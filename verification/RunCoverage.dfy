/** The checkpoint bitmap, the registry cursor and the chain heads against the manifests. */
module RunCoverage {
  import opened Sequences
  import opened RunOutputs
  import opened RunEvidence
  import opened RunBits
  import opened Numbers

  /** The ordinals the checkpoint records as completed. */
  function SetBits(state: Checkpoint): set<int> { BitSet(state.bitmap, state.total) }

  function Members(s: seq<int>): set<int> { set x | x in s }

  lemma {:induction false} DistinctCount(s: seq<int>)
    requires Distinct(s)
    ensures |Members(s)| == |s|
  {
    if s != [] {
      var front, last := s[..|s| - 1], s[|s| - 1];
      DistinctCount(front);
      assert Members(s) == Members(front) + {last};
    }
  }

  /** A baseline passes exactly when it lies in the completed bits and within both counters. */
  lemma {:induction false} BaselineOrdinalsExact(state: Checkpoint, ordinals: seq<int>)
    requires state.total <= MAX_SAFE_INTEGER
    ensures CheckBaselineOrdinals(state, ordinals).None? <==> Members(ordinals) <= SetBits(state)
  {
    hide Completed, BitSet;
    if ordinals != [] {
      if 0 <= ordinals[0] < state.total {
        InBitSet(state.bitmap, state.total, ordinals[0]);
      } else {
        InQueue(state, ordinals[0]);
      }
      BaselineOrdinalsExact(state, ordinals[1..]);
      assert Members(ordinals) == {ordinals[0]} + Members(ordinals[1..]);
    }
  }

  /** The claims and the baseline split the completed bits exactly, with no overlap. */
  ghost predicate SplitsBits(job: Job, claims: seq<nat>) {
    Distinct(claims) && Members(claims) !! Members(job.baseline.queue) &&
    Members(claims) + Members(job.baseline.queue) == SetBits(job.state)
  }

  /** Registry claims run from the baseline to the cursor without a gap. */
  ghost predicate FillsRegistry(job: Job, claims: seq<nat>) {
    |claims| == job.state.nextOrdinal - job.baseline.registry && Contiguous(job.baseline.registry, claims)
  }

  /** What the manifests prove about the checkpoint. */
  ghost predicate Proves(job: Job, s: seq<Manifest>) {
    (forall m | m in s :: Sane(job, m)) && (forall kind :: Chained(History(job, s, kind))) &&
    Heads(job, s) == job.state.outputs &&
    SplitsBits(job, Claims(History(job, s, Enrichment))) && FillsRegistry(job, Claims(History(job, s, Registry))) &&
    Below(Claims(History(job, s, Attempt)), job.state.total) && Claims(History(job, s, Receipt)) == []
  }

  /** The completed-count of a checkpoint counts its bits, and a JavaScript set lists its
      members once. */
  ghost predicate Counted(job: Job) {
    job.state.done == |SetBits(job.state)| && job.state.total <= MAX_SAFE_INTEGER &&
    job.state.nextOrdinal <= MAX_SAFE_INTEGER && Distinct(job.baseline.queue)
  }

  /** The queue baseline lies in the completed bits, the registry baseline before the cursor. */
  ghost predicate BaselineFits(job: Job) {
    Members(job.baseline.queue) <= SetBits(job.state) && 0 <= job.baseline.registry <= job.state.nextOrdinal
  }

  lemma BaselineExact(job: Job)
    requires Counted(job)
    ensures CheckBaseline(job.state, job.baseline).None? <==> BaselineFits(job)
  {
    hide SetBits, Members;
    DistinctCount(job.baseline.queue);
    BaselineOrdinalsExact(job.state, job.baseline.queue);
    if Members(job.baseline.queue) <= SetBits(job.state) {
      SubsetCount(Members(job.baseline.queue), SetBits(job.state));
    }
  }

  lemma InQueue(state: Checkpoint, ordinal: int)
    ensures ordinal in SetBits(state) ==> 0 <= ordinal < state.total
  {
  }

  lemma ClaimableExactly(job: Job, ordinal: nat)
    ensures Claimable(job, ordinal) <==> ordinal !in job.baseline.queue && ordinal in SetBits(job.state)
  {
    if ordinal < job.state.total {
      InBitSet(job.state.bitmap, job.state.total, ordinal);
    } else {
      InQueue(job.state, ordinal);
    }
    hide Completed, BitSet;
  }

  lemma NewBitsExact(job: Job, claims: seq<nat>)
    ensures NewBits(job, claims) <==>
              Distinct(claims) && Members(claims) !! Members(job.baseline.queue) &&
              Members(claims) <= SetBits(job.state)
  {
    forall o | o in claims
      ensures Claimable(job, o) <==> o !in Members(job.baseline.queue) && o in SetBits(job.state)
      ensures o in Members(claims)
    {
      ClaimableExactly(job, o);
    }
    hide Claimable, SetBits, Distinct;
    if Members(claims) !! Members(job.baseline.queue) && Members(claims) <= SetBits(job.state) {
      assert forall o | o in claims :: Claimable(job, o);
    }
  }

  /** Counting the claims is enough to know that no completed bit is missing. */
  lemma CountIsCover(job: Job, claims: seq<nat>)
    requires Counted(job) && Members(job.baseline.queue) <= SetBits(job.state)
    ensures NewBits(job, claims) && |ToSet(claims)| == job.state.done - |job.baseline.queue| <==>
              SplitsBits(job, claims)
  {
    NewBitsExact(job, claims);
    hide NewBits, SetBits;
    var a, b := Members(claims), Members(job.baseline.queue);
    assert ToSet(claims) == a;
    DistinctCount(job.baseline.queue);
    hide Members;
    if a !! b {
      assert |a + b| == |a| + |b|;
      if a <= SetBits(job.state) {
        SubsetCount(a + b, SetBits(job.state));
      }
    }
  }

  lemma MissingNone(a: Outputs, b: Outputs)
    ensures MissingKind(a, b).None? <==> a == b
  {
  }

  lemma AllKinds(job: Job, s: seq<Manifest>)
    ensures Fine(job, s) <==>
              (forall m | m in s :: Sane(job, m)) && (forall kind :: Chained(History(job, s, kind))) &&
              NewBits(job, Claims(History(job, s, Enrichment))) &&
              Below(Claims(History(job, s, Attempt)), job.state.total) &&
              Contiguous(job.baseline.registry, Claims(History(job, s, Registry))) &&
              Below(Claims(History(job, s, Registry)), job.state.nextOrdinal) && Claims(History(job, s, Receipt)) == []
  {
    hide History, Chained, Claims, NewBits, Below, Contiguous, Sane;
    if Fine(job, s) {
      assert GoodKind(job, s, Enrichment) && GoodKind(job, s, Attempt) && GoodKind(job, s, Registry) &&
        GoodKind(job, s, Receipt);
      forall kind ensures Chained(History(job, s, kind)) {
        assert GoodKind(job, s, kind);
      }
    } else if (forall m | m in s :: Sane(job, m)) && (forall kind :: Chained(History(job, s, kind))) {
      var kind :| !GoodKind(job, s, kind);
      assert !GoodClaims(job, s, kind);
    }
  }

  lemma RegistryExact(job: Job, claims: seq<nat>)
    ensures FillsRegistry(job, claims) <==>
              Contiguous(job.baseline.registry, claims) && Below(claims, job.state.nextOrdinal) &&
              job.baseline.registry + |claims| == job.state.nextOrdinal
  {
  }

  lemma FinishExact(job: Job, s: seq<Manifest>)
    requires Counted(job) && BaselineFits(job)
    ensures Fine(job, s) && Finish(job, Summary(job, s)).Ok? <==> Proves(job, s)
    ensures Finish(job, Summary(job, s)).Ok? ==> Finish(job, Summary(job, s)).value == RawKeys(job, s)
  {
    AllKinds(job, s);
    CountIsCover(job, Claims(History(job, s, Enrichment)));
    RegistryExact(job, Claims(History(job, s, Registry)));
    MissingNone(job.state.outputs, Heads(job, s));
    hide Fine, SplitsBits, FillsRegistry, Counted, Members, SetBits, History, Chained, Claims, NewBits, Below,
      Contiguous, Sane, MissingKind, RawKeys, ToSet, Heads;
  }

  /** Reading accepts exactly when the baseline fits the checkpoint and the manifests
      prove the checkpoint; then it returns the raw keys of every checkpointed result. */
  lemma ReadKeysExact(job: Job, objects: seq<Bytes>)
    requires Counted(job)
    ensures ReadKeys(job, objects).Ok? <==>
              BaselineFits(job) && ReadAll(job.codec, objects).Some? &&
              Proves(job, ReadAll(job.codec, objects).value)
    ensures ReadKeys(job, objects).Ok? ==>
              ReadKeys(job, objects).value == RawKeys(job, ReadAll(job.codec, objects).value)
  {
    BaselineExact(job);
    if ReadAll(job.codec, objects).Some? {
      var s := ReadAll(job.codec, objects).value;
      AcceptAllExact(job, s);
      if BaselineFits(job) {
        FinishExact(job, s);
      }
      hide AcceptAll, Fine, Finish, Summary, Proves, Counted, CheckBaseline, ReadAll, BaselineFits, RawKeys;
    }
  }

  // The chain heads -------------------------------------------------------------------------------------------

  ghost predicate Injective(sha: Bytes -> string) {
    forall a, b | sha(a) == sha(b) :: a == b
  }

  ghost predicate ReadFrom(codec: Codec, s: seq<Manifest>) {
    forall m | m in s :: Read(codec, m.bytes) == Some(m)
  }

  lemma {:induction false} ReadAllReads(codec: Codec, objects: seq<Bytes>)
    requires ReadAll(codec, objects).Some?
    ensures ReadFrom(codec, ReadAll(codec, objects).value)
  {
    if objects != [] {
      ReadAllReads(codec, objects[..|objects| - 1]);
    }
  }

  lemma SameDigest(codec: Codec, a: Manifest, b: Manifest)
    requires Injective(codec.sha) && Read(codec, a.bytes) == Some(a) && Read(codec, b.bytes) == Some(b) &&
             a.sha == b.sha
    ensures a == b
  {
  }

  /** The head of a chain determines all of it. */
  lemma {:induction false} HeadDeterminesChain(codec: Codec, s: seq<Manifest>, t: seq<Manifest>)
    requires Injective(codec.sha) && ReadFrom(codec, s) && ReadFrom(codec, t)
    requires Chained(s) && Chained(t) && Head(s) == Head(t)
    ensures s == t
    decreases |s|
  {
    if s != [] {
      var a, b := s[..|s| - 1], t[..|t| - 1];
      SameDigest(codec, s[|s| - 1], t[|t| - 1]);
      hide Injective, Read;
      assert s == a + [s[|s| - 1]] && t == b + [t[|t| - 1]];
      assert Linked(s, |s| - 1) && Linked(t, |t| - 1);
      ChainedBefore(a, s[|s| - 1]);
      ChainedBefore(b, t[|t| - 1]);
      HeadDeterminesChain(codec, a, b);
    }
  }

  lemma RawKeysFromHistories(job: Job, s: seq<Manifest>, t: seq<Manifest>)
    requires forall kind :: History(job, s, kind) == History(job, t, kind)
    ensures RawKeys(job, s) <= RawKeys(job, t)
  {
    hide Within;
    forall m | m in s && Within(job, m.result) ensures m in t {
      assert m in History(job, s, KindOf(m.result.phase));
    }
  }

  lemma SameHistory(job: Job, s: seq<Manifest>, t: seq<Manifest>, kind: Kind)
    requires Injective(job.codec.sha) && ReadFrom(job.codec, s) && ReadFrom(job.codec, t)
    requires Proves(job, s) && Proves(job, t)
    ensures History(job, s, kind) == History(job, t, kind)
  {
    hide Injective, Read, SplitsBits, FillsRegistry, Below, Claims, Sane;
    HeadOf(job, s, kind);
    HeadOf(job, t, kind);
    assert Chained(History(job, s, kind)) && Chained(History(job, t, kind));
    hide *;
    assert ReadFrom(job.codec, History(job, s, kind)) by { HistoryReads(job, s, kind); }
    assert ReadFrom(job.codec, History(job, t, kind)) by { HistoryReads(job, t, kind); }
    HeadDeterminesChain(job.codec, History(job, s, kind), History(job, t, kind));
  }

  lemma HistoryReads(job: Job, s: seq<Manifest>, kind: Kind)
    requires ReadFrom(job.codec, s)
    ensures ReadFrom(job.codec, History(job, s, kind))
  {
    hide Read, CountsAs;
  }

  /** With an injective digest, the four chain heads determine each kind's result history and
      the returned keys, whatever else the store lists and in whatever order. */
  lemma HeadsDetermineHistory(job: Job, a: seq<Bytes>, b: seq<Bytes>)
    requires Counted(job) && Injective(job.codec.sha)
    requires ReadKeys(job, a).Ok? && ReadKeys(job, b).Ok?
    ensures ReadKeys(job, a) == ReadKeys(job, b)
    ensures var s, t := ReadAll(job.codec, a), ReadAll(job.codec, b);
            s.Some? && t.Some? && forall kind :: History(job, s.value, kind) == History(job, t.value, kind)
  {
    hide *;
    ReadKeysExact(job, a);
    ReadKeysExact(job, b);
    var s, t := ReadAll(job.codec, a).value, ReadAll(job.codec, b).value;
    ReadAllReads(job.codec, a);
    ReadAllReads(job.codec, b);
    forall kind ensures History(job, s, kind) == History(job, t, kind) {
      SameHistory(job, s, t, kind);
    }
    RawKeysFromHistories(job, s, t);
    RawKeysFromHistories(job, t, s);
    assert RawKeys(job, s) == RawKeys(job, t);
  }
}
