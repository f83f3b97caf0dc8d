/** How large a page of the change stream gets, and that it ends only when the next change does
    not fit, an activation starts or nothing is left. */
module PageSizes {
  import opened Sequences
  import opened KeysetPages
  import opened ConsumerPage
  import opened ConsumerChanges
  import opened CandidatePages

  /** The encoded bytes of the changes, each with its separator. */
  function Total(size: Change -> nat, changes: seq<Change>): nat {
    if changes == [] then 0 else Total(size, changes[..|changes| - 1]) + size(changes[|changes| - 1]) + 1
  }

  /** The count is bounded, several changes stay within 2 MiB and a single one within 8 MiB,
      8 KiB of envelope included. */
  ghost predicate WithinBounds(size: Change -> nat, changes: seq<Change>, limit: nat) {
    |changes| <= limit &&
    Total(size, changes) + 8192 <= (if |changes| > 1 then 2_097_152 else 8_388_608)
  }

  /** Why a page takes no further change. */
  ghost predicate Full(size: Change -> nat, changes: seq<Change>, change: Change, limit: nat) {
    |changes| >= limit || (changes != [] && Total(size, changes) + size(change) + 1 + 8192 > 2_097_152)
  }

  /** The change one unit contributes. */
  function ChangeOf(db: Database, id: nat): Option<Change> { Replacement(id, UnitBefore(db, id), UnitAfter(db, id)) }

  lemma TotalGrows(size: Change -> nat, changes: seq<Change>, change: Change)
    ensures Total(size, changes + [change]) == Total(size, changes) + size(change) + 1
  {
    assert (changes + [change])[..|changes + [change]| - 1] == changes;
  }

  /** One more change keeps the bounds, or the page is full, or the change alone is over 8 MiB. */
  lemma AddExactly(db: Database, page: Page, change: Change, limit: nat)
    requires 0 < limit && page.bytes == Total(db.size, page.changes) + 8192
    requires WithinBounds(db.size, page.changes, limit)
    ensures match Add(page, change, db.size(change), limit)
            case Accepted(next) =>
              next.changes == page.changes + [change] && next.bytes == Total(db.size, next.changes) + 8192 &&
              WithinBounds(db.size, next.changes, limit) && !Full(db.size, page.changes, change, limit)
            case Refused => Full(db.size, page.changes, change, limit) && page.changes != []
            case Oversized => db.size(change) + 1 + 8192 > 8_388_608
  {
    TotalGrows(db.size, page.changes, change);
  }

  /** How far the cursor is once the first `k` units are done. */
  function Reached(db: Database, bootstrap: bool, ids: seq<nat>, next: Phase, k: nat): Phase
    requires k <= |ids|
  {
    if k == 0 then next else UnitPhase(db, bootstrap, ids[k - 1])
  }

  /** Where a fill stopped: after the last unit, at a unit that activates, or before the unit
      whose change no longer fits. */
  ghost predicate StopsAt(
    db: Database, bootstrap: bool, ids: seq<nat>, next: Phase, limit: nat, filled: Filled, k: nat)
  {
    k <= |ids| &&
    (filled.complete <==> k == |ids| && (k > 0 ==> !Activates(db, bootstrap, ids[k - 1]))) &&
    filled.next == Reached(db, bootstrap, ids, next, k) &&
    (k < |ids| && (k > 0 ==> !Activates(db, bootstrap, ids[k - 1])) ==>
       ChangeOf(db, ids[k]).Some? && Full(db.size, filled.page.changes, ChangeOf(db, ids[k]).value, limit))
  }

  lemma StopsAtNone(db: Database, bootstrap: bool, next: Phase, limit: nat, page: Page)
    ensures StopsAt(db, bootstrap, [], next, limit, Filled(page, next, true), 0)
  {
  }

  lemma StopsRefused(db: Database, bootstrap: bool, ids: seq<nat>, next: Phase, limit: nat, page: Page)
    requires ids != [] && ChangeOf(db, ids[0]).Some?
    requires Full(db.size, page.changes, ChangeOf(db, ids[0]).value, limit)
    ensures StopsAt(db, bootstrap, ids, next, limit, Filled(page, next, false), 0)
  {
    hide Full, Replacement, Activates;
  }

  lemma StopsActivating(db: Database, bootstrap: bool, ids: seq<nat>, next: Phase, limit: nat, page: Page)
    requires ids != [] && Activates(db, bootstrap, ids[0])
    ensures StopsAt(db, bootstrap, ids, next, limit, Filled(page, UnitPhase(db, bootstrap, ids[0]), false), 1)
  {
    hide Full, Replacement, Activates;
  }

  lemma StopsLater(
      db: Database, bootstrap: bool, ids: seq<nat>, next: Phase, limit: nat, filled: Filled, k: nat)
    requires ids != [] && !Activates(db, bootstrap, ids[0])
    requires StopsAt(db, bootstrap, ids[1..], UnitPhase(db, bootstrap, ids[0]), limit, filled, k)
    ensures StopsAt(db, bootstrap, ids, next, limit, filled, k + 1)
  {
    hide Full, Replacement, Activates, UnitPhase;
    assert k > 0 ==> ids[1..][k - 1] == ids[k];
    assert k < |ids[1..]| ==> ids[1..][k] == ids[k + 1];
  }

  function AddedTo(db: Database, page: Page, id: nat, limit: nat): Added {
    var change := ChangeOf(db, id);
    if change.None? then Accepted(page) else Add(page, change.value, db.size(change.value), limit)
  }

  lemma FillOne(db: Database, bootstrap: bool, ids: seq<nat>, page: Page, next: Phase, limit: nat)
    requires ids != []
    ensures Fill(db, bootstrap, ids, page, next, limit) ==
            match AddedTo(db, page, ids[0], limit)
            case Oversized => Throws(OversizedSource)
            case Refused => Ok(Filled(page, next, false))
            case Accepted(grown) =>
              if Activates(db, bootstrap, ids[0])
              then Ok(Filled(grown, UnitPhase(db, bootstrap, ids[0]), false))
              else Fill(db, bootstrap, ids[1..], grown, UnitPhase(db, bootstrap, ids[0]), limit)
  {
    hide Replacement, UnitBefore, UnitAfter, Add, Activates;
  }

  lemma AddedExactly(db: Database, page: Page, id: nat, limit: nat)
    requires 0 < limit && page.bytes == Total(db.size, page.changes) + 8192
    requires WithinBounds(db.size, page.changes, limit)
    ensures match AddedTo(db, page, id, limit)
            case Accepted(next) =>
              next.bytes == Total(db.size, next.changes) + 8192 && WithinBounds(db.size, next.changes, limit)
            case Refused => ChangeOf(db, id).Some? && Full(db.size, page.changes, ChangeOf(db, id).value, limit)
            case Oversized => true
  {
    hide WithinBounds, Full, Total, Add, Replacement;
    var change := ChangeOf(db, id);
    if change.Some? {
      AddExactly(db, page, change.value, limit);
    }
  }

  /** Filling keeps a page within its bounds, and stops early only at a full page or an activation. */
  lemma {:induction false} FillStops(
      db: Database, bootstrap: bool, ids: seq<nat>, page: Page, next: Phase, limit: nat) returns (k: nat)
    requires 0 < limit && page.bytes == Total(db.size, page.changes) + 8192
    requires WithinBounds(db.size, page.changes, limit) && Fill(db, bootstrap, ids, page, next, limit).Ok?
    ensures var filled := Fill(db, bootstrap, ids, page, next, limit).value;
            WithinBounds(db.size, filled.page.changes, limit) && StopsAt(db, bootstrap, ids, next, limit, filled, k)
  {
    if ids == [] {
      StopsAtNone(db, bootstrap, next, limit, page);
      return 0;
    }
    hide *;
    FillOne(db, bootstrap, ids, page, next, limit);
    AddedExactly(db, page, ids[0], limit);
    var added, advanced := AddedTo(db, page, ids[0], limit), UnitPhase(db, bootstrap, ids[0]);
    if added.Refused? {
      StopsRefused(db, bootstrap, ids, next, limit, page);
      return 0;
    }
    if Activates(db, bootstrap, ids[0]) {
      StopsActivating(db, bootstrap, ids, next, limit, added.page);
      return 1;
    }
    k := FillStops(db, bootstrap, ids[1..], added.page, advanced, limit);
    StopsLater(db, bootstrap, ids, next, limit, Fill(db, bootstrap, ids[1..], added.page, advanced, limit).value, k);
    k := k + 1;
  }

  // Whole steps -------------------------------------------------------------------------------------------------

  lemma EmptyWithinBounds(size: Change -> nat, limit: nat)
    ensures WithinBounds(size, [], limit) && Total(size, []) == 0
  {
  }

  lemma UnitsWithinBounds(db: Database, phase: Phase, limit: nat)
    requires (phase.Bootstrap? || phase.Content?) && 0 < limit && ContentStep(db, phase, limit).Ok?
    ensures WithinBounds(db.size, ContentStep(db, phase, limit).value.changes, limit)
  {
    hide Fill, ReadableCount, WithinBounds, BootstrapCandidates, ContentCandidates, AfterUnits;
    EmptyWithinBounds(db.size, limit);
    var candidates := PhaseCandidates(db, phase.Bootstrap?, phase.after);
    var count := ReadableCount(db, candidates.ids).value;
    var k := FillStops(db, phase.Bootstrap?, candidates.ids[..count], EMPTY_PAGE, phase, limit);
  }

  /** A page of units keeps all bounds, and a page of samples the count. */
  lemma StepWithinBounds(db: Database, phase: Phase, limit: nat)
    requires 0 < limit && Advance(db, phase, limit).Ok?
    ensures var changes := Advance(db, phase, limit).value.changes;
            |changes| <= limit &&
            (phase.Bootstrap? || phase.Content? ==> WithinBounds(db.size, changes, limit)) &&
            (phase.Observations? ==> |changes| <= 100)
  {
    hide ContentStep, Filter, Above, ReadableCount;
    match phase
    case Bootstrap(_) => UnitsWithinBounds(db, phase, limit);
    case Content(_) => UnitsWithinBounds(db, phase, limit);
    case Observations(offset, from) =>
      if db.base.Some? {
        FewerPermitted(ScannedPage(db, offset, from, limit), IsPermitted(db));
      }
    case _ =>
  }

  lemma {:induction false} FewerPermitted<T>(s: seq<T>, p: T -> bool)
    ensures |Filter(s, p)| <= |s|
  {
    if s != [] {
      FewerPermitted(s[1..], p);
    }
  }

  /** A page of samples reads all the rows left in its batch, or as many as asked for up to 100. */
  lemma ScannedPageIsFull(db: Database, offset: nat, from: Position, limit: nat)
    requires db.base.Some?
    ensures var left := Above(BatchRows(db, offset), ObservationKey, from);
            var page := ScannedPage(db, offset, from, limit);
            page <= left && (page == left || |page| == limit || |page| == 100) && |page| <= limit && |page| <= 100
  {
    hide Above, BatchRows;
  }

  /** The length left after halving `n` some number of times. */
  function Halved(n: nat, times: nat): nat { if times == 0 then n else Halved(n / 2, times - 1) }

  /** One read covers the units that are left after as few halvings as the reader accepts. */
  lemma {:induction false} ReadsLargest(db: Database, ids: seq<nat>) returns (times: nat)
    requires ids != [] && ReadableCount(db, ids).Ok?
    ensures ReadableCount(db, ids).value == Halved(|ids|, times) <= |ids| && !db.tooLarge(ids[..Halved(|ids|, times)])
    ensures forall k | 0 <= k < times :: Halved(|ids|, k) <= |ids| && db.tooLarge(ids[..Halved(|ids|, k)])
  {
    assert ids[..|ids|] == ids;
    if !db.tooLarge(ids) {
      return 0;
    }
    var half := ids[..|ids| / 2];
    var rest := ReadsLargest(db, half);
    times := rest + 1;
    assert half[..Halved(|half|, rest)] == ids[..Halved(|ids|, times)];
    forall k | 0 <= k < times ensures Halved(|ids|, k) <= |ids| && db.tooLarge(ids[..Halved(|ids|, k)]) {
      if k > 0 {
        assert Halved(|half|, k - 1) <= |half| && half[..Halved(|half|, k - 1)] == ids[..Halved(|ids|, k)];
      }
    }
  }

  /** Rows in key order come post by post, and within a post by time, then by identifier. */
  lemma RowsByPost(rows: seq<Observation>, i: nat, j: nat)
    requires Ascending(rows, ObservationKey) && i < j < |rows|
    ensures rows[i].post < rows[j].post ||
            (rows[i].post == rows[j].post &&
             (rows[i].at < rows[j].at || (rows[i].at == rows[j].at && rows[i].id < rows[j].id)))
  {
    assert Before(ObservationKey(rows[i]), ObservationKey(rows[j]));
  }
}
