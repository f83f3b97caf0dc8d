/** What an accepted set of result manifests proves about the checkpoint. */
module RunEvidence {
  import opened Sequences
  import opened RunOutputs

  predicate CountsAs(job: Job, kind: Kind, m: Manifest) {
    KindOf(m.result.phase) == kind && Within(job, m.result)
  }

  function Counting(job: Job, kind: Kind): Manifest -> bool { m => CountsAs(job, kind, m) }

  /** The manifests of one kind that the checkpoint vouches for, as listed. */
  function History(job: Job, s: seq<Manifest>, kind: Kind): seq<Manifest> { Filter(s, Counting(job, kind)) }

  function Claims(s: seq<Manifest>): seq<nat> {
    if s == [] then [] else Claims(s[..|s| - 1]) + s[|s| - 1].result.ordinals
  }

  /** Numbered from one, each naming the digest of the one before. */
  predicate Linked(s: seq<Manifest>, i: nat)
    requires i < |s|
  {
    s[i].result.sequence == i + 1 &&
    if i == 0 then s[i].result.previous.None? else s[i].result.previous == Some(s[i - 1].sha)
  }

  predicate Chained(s: seq<Manifest>) { forall i | 0 <= i < |s| :: Linked(s, i) }

  function Head(s: seq<Manifest>): Frontier {
    if s == [] then NO_OUTPUT else Frontier(|s|, Some(s[|s| - 1].sha))
  }

  function Heads(job: Job, s: seq<Manifest>): Outputs {
    Outputs(Head(History(job, s, Enrichment)), Head(History(job, s, Attempt)),
            Head(History(job, s, Registry)), Head(History(job, s, Receipt)))
  }

  function RawKeys(job: Job, s: seq<Manifest>): set<string> {
    set m | m in s && Within(job, m.result) :: m.result.rawKey
  }

  /** What each manifest must satisfy by itself. */
  predicate Sane(job: Job, m: Manifest) {
    m.result.runId == job.runId && (job.exact ==> Within(job, m.result)) &&
    (Within(job, m.result) ==> job.codec.shaInKey(m.result.rawKey) == Some(m.result.rawSha))
  }

  ghost predicate NewBits(job: Job, claims: seq<nat>) {
    Distinct(claims) && forall o | o in claims :: Claimable(job, o)
  }

  ghost predicate GoodClaims(job: Job, s: seq<Manifest>, kind: Kind) {
    var claims := Claims(History(job, s, kind));
    match kind
    case Enrichment => NewBits(job, claims)
    case Attempt => Below(claims, job.state.total)
    case Registry => Contiguous(job.baseline.registry, claims) && Below(claims, job.state.nextOrdinal)
    case Receipt => claims == []
  }

  ghost predicate GoodKind(job: Job, s: seq<Manifest>, kind: Kind) {
    Chained(History(job, s, kind)) && GoodClaims(job, s, kind)
  }

  ghost predicate Fine(job: Job, s: seq<Manifest>) {
    (forall m | m in s :: Sane(job, m)) && forall kind :: GoodKind(job, s, kind)
  }

  function ToSet(s: seq<nat>): set<nat> { set x | x in s }

  function Summary(job: Job, s: seq<Manifest>): Progress {
    Progress(ToSet(Claims(History(job, s, Enrichment))),
             job.baseline.registry + |Claims(History(job, s, Registry))|,
             Heads(job, s), RawKeys(job, s))
  }

  // One more manifest -----------------------------------------------------------------------------------------

  lemma HistoryAppend(job: Job, s: seq<Manifest>, m: Manifest, kind: Kind)
    ensures History(job, s + [m], kind) ==
            if CountsAs(job, kind, m) then History(job, s, kind) + [m] else History(job, s, kind)
  {
    FilterSnoc(s, m, Counting(job, kind));
  }

  lemma ClaimsAppend(s: seq<Manifest>, m: Manifest)
    ensures Claims(s + [m]) == Claims(s) + m.result.ordinals
  {
    assert (s + [m])[..|s|] == s;
  }

  /** Claiming ordinals one by one accepts exactly new, distinct, claimable ones. */
  lemma {:induction false} ClaimQueueExact(job: Job, ordinals: seq<nat>, before: seq<nat>)
    requires NewBits(job, before)
    ensures ClaimQueue(job, ordinals, ToSet(before)).Ok? <==> NewBits(job, before + ordinals)
    ensures ClaimQueue(job, ordinals, ToSet(before)).Ok? ==>
              ClaimQueue(job, ordinals, ToSet(before)) == Ok(ToSet(before + ordinals))
    decreases |ordinals|
  {
    hide Claimable;
    if ordinals == [] {
      assert before + ordinals == before;
    } else {
      var o := ordinals[0];
      assert before + ordinals == before + [o] + ordinals[1..];
      if Claimable(job, o) && o !in before {
        assert ToSet(before + [o]) == ToSet(before) + {o};
        ClaimQueueExact(job, ordinals[1..], before + [o]);
      } else {
        NotNew(job, before, ordinals);
      }
    }
  }

  lemma NotNew(job: Job, before: seq<nat>, ordinals: seq<nat>)
    requires ordinals != [] && (!Claimable(job, ordinals[0]) || ordinals[0] in before)
    ensures !NewBits(job, before + ordinals)
  {
    hide Claimable;
    var all := before + ordinals;
    assert all[|before|] == ordinals[0];
    if ordinals[0] in before {
      var i :| 0 <= i < |before| && before[i] == ordinals[0];
      assert all[i] == all[|before|];
    }
  }

  lemma ContiguousAppend(first: int, a: seq<nat>, b: seq<nat>, bound: int)
    ensures Contiguous(first, a + b) <==> Contiguous(first, a) && Contiguous(first + |a|, b)
    ensures Below(a + b, bound) <==> Below(a, bound) && Below(b, bound)
  {
    var all := a + b;
    assert forall i | 0 <= i < |a| :: all[i] == a[i];
    assert forall i | 0 <= i < |b| :: all[|a| + i] == b[i];
  }

  /** The claim check accepts a result exactly when its kind's claims stay good. */
  lemma ClaimExact(job: Job, s: seq<Manifest>, m: Manifest)
    requires Within(job, m.result) && GoodClaims(job, s, KindOf(m.result.phase))
    ensures Claim(job, m.result, Summary(job, s)).Ok? <==> GoodClaims(job, s + [m], KindOf(m.result.phase))
    ensures Claim(job, m.result, Summary(job, s)).Ok? ==>
              Claim(job, m.result, Summary(job, s)).value == ToSet(Claims(History(job, s + [m], Enrichment)))
  {
    hide NewBits, ClaimQueue, ToSet, Contiguous, Below, Claims, History, Heads, RawKeys;
    var kind := KindOf(m.result.phase);
    var before := Claims(History(job, s, kind));
    HistoryAppend(job, s, m, kind);
    HistoryAppend(job, s, m, Enrichment);
    ClaimsAppend(History(job, s, kind), m);
    match kind
    case Enrichment => ClaimQueueExact(job, m.result.ordinals, before);
    case Attempt => ContiguousAppend(0, before, m.result.ordinals, job.state.total);
    case Registry => ContiguousAppend(job.baseline.registry, before, m.result.ordinals, job.state.nextOrdinal);
    case Receipt =>
  }

  lemma HeadOf(job: Job, s: seq<Manifest>, kind: Kind)
    ensures FrontierOf(Heads(job, s), kind) == Head(History(job, s, kind))
  {
  }

  lemma ChainedAppend(s: seq<Manifest>, m: Manifest)
    requires Chained(s)
    ensures Chained(s + [m]) <==> m.result.sequence == Head(s).sequence + 1 && m.result.previous == Head(s).chain
    ensures Chained(s + [m]) ==> Head(s + [m]) == Frontier(m.result.sequence, Some(m.sha))
  {
    var t := s + [m];
    assert t[|s|] == m && forall i | 0 <= i < |s| :: t[i] == s[i];
    assert forall i | 0 <= i < |s| :: Linked(t, i) == Linked(s, i);
    assert Chained(t) ==> Linked(t, |s|);
  }

  lemma ChainedBefore(s: seq<Manifest>, m: Manifest)
    requires Chained(s + [m])
    ensures Chained(s)
  {
    var t := s + [m];
    assert forall i | 0 <= i < |s| :: t[i] == s[i];
    assert forall i | 0 <= i < |s| :: Linked(t, i) == Linked(s, i);
  }

  lemma OtherKinds(job: Job, s: seq<Manifest>, m: Manifest, kind: Kind)
    requires !CountsAs(job, kind, m)
    ensures History(job, s + [m], kind) == History(job, s, kind) &&
            (GoodKind(job, s + [m], kind) <==> GoodKind(job, s, kind))
  {
    HistoryAppend(job, s, m, kind);
    hide History, Chained, Claims, CountsAs, NewBits, Below, Contiguous;
  }

  lemma OwnKind(job: Job, s: seq<Manifest>, m: Manifest)
    requires Within(job, m.result) && GoodKind(job, s, KindOf(m.result.phase))
    ensures GoodKind(job, s + [m], KindOf(m.result.phase)) <==>
              Extends(Heads(job, s), m.result) && Claim(job, m.result, Summary(job, s)).Ok?
    ensures GoodKind(job, s + [m], KindOf(m.result.phase)) ==>
              Head(History(job, s + [m], KindOf(m.result.phase))) == Frontier(m.result.sequence, Some(m.sha))
  {
    var kind := KindOf(m.result.phase);
    HistoryAppend(job, s, m, kind);
    ChainedAppend(History(job, s, kind), m);
    ClaimExact(job, s, m);
    HeadOf(job, s, kind);
    hide History, Chained, GoodClaims, Claim, Head, Heads;
  }

  lemma RawAppend(job: Job, s: seq<Manifest>, m: Manifest)
    ensures RawKeys(job, s + [m]) == RawKeys(job, s) + if Within(job, m.result) then {m.result.rawKey} else {}
  {
    assert forall x :: x in s + [m] <==> x in s || x == m;
  }

  lemma NotGood(job: Job, s: seq<Manifest>, m: Manifest)
    requires !Sane(job, m) || !GoodKind(job, s + [m], KindOf(m.result.phase))
    ensures !Fine(job, s + [m])
  {
    hide Sane, GoodKind;
    assert m in s + [m];
  }

  lemma StillFine(job: Job, s: seq<Manifest>, m: Manifest)
    requires Fine(job, s) && Sane(job, m) && GoodKind(job, s + [m], KindOf(m.result.phase))
    ensures Fine(job, s + [m])
  {
    hide Sane, GoodKind;
    forall kind ensures GoodKind(job, s + [m], kind) {
      if kind != KindOf(m.result.phase) {
        OtherKinds(job, s, m, kind);
      }
    }
  }

  lemma SkippedSummary(job: Job, s: seq<Manifest>, m: Manifest)
    requires !Within(job, m.result)
    ensures Summary(job, s + [m]) == Summary(job, s)
  {
    OtherKinds(job, s, m, Enrichment);
    OtherKinds(job, s, m, Attempt);
    OtherKinds(job, s, m, Registry);
    OtherKinds(job, s, m, Receipt);
    RawAppend(job, s, m);
    hide History, RawKeys, GoodKind, Claims;
  }

  lemma AdvancedSummary(job: Job, s: seq<Manifest>, m: Manifest, completed: set<nat>)
    requires Within(job, m.result) && completed == ToSet(Claims(History(job, s + [m], Enrichment)))
    requires Head(History(job, s + [m], KindOf(m.result.phase))) == Frontier(m.result.sequence, Some(m.sha))
    ensures Summary(job, s + [m]) == Advanced(Summary(job, s), m, completed)
  {
    HistoryAppend(job, s, m, Enrichment);
    HistoryAppend(job, s, m, Attempt);
    HistoryAppend(job, s, m, Registry);
    HistoryAppend(job, s, m, Receipt);
    ClaimsAppend(History(job, s, Registry), m);
    RawAppend(job, s, m);
    hide History, RawKeys, ToSet, Claims, Head;
  }

  /** Acceptance of one manifest, in terms of its own conditions. */
  lemma AcceptOwn(job: Job, s: seq<Manifest>, m: Manifest)
    requires GoodKind(job, s, KindOf(m.result.phase))
    ensures Accept(job, Summary(job, s), m).Ok? <==> Sane(job, m) && GoodKind(job, s + [m], KindOf(m.result.phase))
  {
    hide GoodKind, Claim, Extends, History, Claims, Head, Advanced;
    if Within(job, m.result) {
      OwnKind(job, s, m);
    } else {
      OtherKinds(job, s, m, KindOf(m.result.phase));
    }
  }

  lemma AcceptResult(job: Job, s: seq<Manifest>, m: Manifest)
    requires GoodKind(job, s, KindOf(m.result.phase)) && Sane(job, m)
    requires GoodKind(job, s + [m], KindOf(m.result.phase))
    ensures Accept(job, Summary(job, s), m) == Ok(Summary(job, s + [m]))
  {
    if Within(job, m.result) {
      OwnKind(job, s, m);
      ClaimExact(job, s, m);
      hide GoodKind, Claim, Extends, History, Claims, Head, Advanced, ToSet, RawKeys;
      AdvancedSummary(job, s, m, Claim(job, m.result, Summary(job, s)).value);
    } else {
      SkippedSummary(job, s, m);
      hide GoodKind, Summary;
    }
  }

  lemma AcceptExact(job: Job, s: seq<Manifest>, m: Manifest)
    requires Fine(job, s)
    ensures Accept(job, Summary(job, s), m).Ok? <==> Fine(job, s + [m])
    ensures Accept(job, Summary(job, s), m).Ok? ==> Accept(job, Summary(job, s), m) == Ok(Summary(job, s + [m]))
  {
    var kind := KindOf(m.result.phase);
    assert GoodKind(job, s, kind);
    hide Fine, GoodKind, Accept, Summary, Sane;
    AcceptOwn(job, s, m);
    if Sane(job, m) && GoodKind(job, s + [m], kind) {
      AcceptResult(job, s, m);
      StillFine(job, s, m);
    } else {
      NotGood(job, s, m);
    }
  }

  lemma FineBefore(job: Job, s: seq<Manifest>, m: Manifest)
    requires Fine(job, s + [m])
    ensures Fine(job, s)
  {
    forall kind ensures GoodKind(job, s, kind) {
      assert GoodKind(job, s + [m], kind);
      GoodBefore(job, s, m, kind);
    }
    hide Sane, GoodKind;
    assert forall x | x in s :: x in s + [m];
  }

  lemma ClaimsBefore(job: Job, a: seq<nat>, b: seq<nat>)
    requires NewBits(job, a + b)
    ensures NewBits(job, a)
  {
    hide Claimable;
    var all := a + b;
    assert forall i | 0 <= i < |a| :: all[i] == a[i];
    assert forall o | o in a :: o in all;
  }

  lemma GoodBefore(job: Job, s: seq<Manifest>, m: Manifest, kind: Kind)
    requires GoodKind(job, s + [m], kind)
    ensures GoodKind(job, s, kind)
  {
    HistoryAppend(job, s, m, kind);
    var t := History(job, s, kind);
    hide History, NewBits, Chained, Claims, Below, Contiguous;
    if CountsAs(job, kind, m) {
      ChainedBefore(t, m);
      ClaimsAppend(t, m);
      ContiguousAppend(job.baseline.registry, Claims(t), m.result.ordinals, job.state.nextOrdinal);
      ContiguousAppend(0, Claims(t), m.result.ordinals, job.state.total);
      if kind.Enrichment? {
        ClaimsBefore(job, Claims(t), m.result.ordinals);
      }
    }
  }

  lemma NothingIsFine(job: Job)
    ensures Fine(job, []) && Summary(job, []) == Start(job)
  {
  }

  /** The reading loop accepts exactly the lists that are fine, and ends with their summary. */
  lemma {:induction false} AcceptAllExact(job: Job, s: seq<Manifest>)
    ensures AcceptAll(job, s).Ok? <==> Fine(job, s)
    ensures AcceptAll(job, s).Ok? ==> AcceptAll(job, s) == Ok(Summary(job, s))
  {
    hide Fine, Summary, Accept, Start;
    if s == [] {
      NothingIsFine(job);
    } else {
      var before, m := s[..|s| - 1], s[|s| - 1];
      assert s == before + [m];
      AcceptAllExact(job, before);
      if Fine(job, before) {
        AcceptExact(job, before, m);
      } else if Fine(job, s) {
        FineBefore(job, before, m);
      }
    }
  }
}
