/** The paged change stream refines one reference stream that knows no pages, windows or
    batches, and every sequence of pages ends. */
module ConsumerStream {
  import opened Sequences
  import opened KeysetPages
  import opened ConsumerPage
  import opened ConsumerChanges
  import opened CandidatePages

  // The reference stream --------------------------------------------------------------------------

  /** The posts of a publishable unit that were not visible before, in order. */
  function Visible(db: Database, unit: nat): seq<nat>
    requires UnitAfter(db, unit).Some?
  {
    NewlyVisible(UnitBefore(db, unit), UnitAfter(db, unit).value)
  }

  /** Every retained observation of the posts a unit makes newly visible. */
  function ActivationRows(db: Database, id: nat): seq<Observation>
    requires UnitAfter(db, id).Some?
  {
    HistoryRows(db, Visible(db, id))
  }

  function UnitChanges(db: Database, bootstrap: bool, id: nat): seq<Change> {
    var change := Replacement(id, UnitBefore(db, id), UnitAfter(db, id));
    (if change.Some? then [change.value] else []) +
    (if Activates(db, bootstrap, id) then Samples(ActivationRows(db, id)) else [])
  }

  function UnitStream(db: Database, bootstrap: bool, ids: seq<nat>): seq<Change> {
    if ids == [] then [] else UnitChanges(db, bootstrap, ids[0]) + UnitStream(db, bootstrap, ids[1..])
  }

  function SampleStream(db: Database, offset: nat): seq<Change>
    decreases |ChangedSegments(db)| - offset
  {
    if db.base.None? || SegmentBatch(db, offset) == [] then []
    else
      Samples(Permitted(db, BatchRows(db, offset))) + SampleStream(db, offset + |SegmentBatch(db, offset)|)
  }

  function StreamEnd(db: Database, bootstrap: bool): seq<Change> {
    if bootstrap then [] else SampleStream(db, 0)
  }

  function PendingUnits(db: Database, bootstrap: bool, after: nat): seq<nat> {
    Above(Listed(db, bootstrap), IdKey, IdKey(after))
  }

  function UnitsFrom(db: Database, bootstrap: bool, after: nat): seq<Change> {
    UnitStream(db, bootstrap, PendingUnits(db, bootstrap, after)) + StreamEnd(db, bootstrap)
  }

  /** Everything the consumer has still to receive from a phase on. */
  function Reference(db: Database, phase: Phase): seq<Change> {
    match phase
    case Idle => []
    case Bootstrap(after) => UnitsFrom(db, true, after)
    case Content(after) => UnitsFrom(db, false, after)
    case Activation(unit, from) =>
      (if UnitAfter(db, unit).None? then [UnitRemove(unit)]
       else Samples(Above(ActivationRows(db, unit), ObservationKey, from))) + UnitsFrom(db, false, unit)
    case Observations(offset, from) =>
      if db.base.None? || SegmentBatch(db, offset) == [] then []
      else
        Samples(Permitted(db, Above(BatchRows(db, offset), ObservationKey, from))) +
        SampleStream(db, offset + |SegmentBatch(db, offset)|)
  }

  // Progress ------------------------------------------------------------------------------------------

  function Stage(phase: Phase): nat {
    match phase
    case Idle => 0
    case Observations(_, _) => 1
    case _ => 2
  }

  function Major(db: Database, phase: Phase): nat {
    match phase
    case Idle => 0
    case Bootstrap(after) => 2 * |PendingUnits(db, true, after)|
    case Content(after) => 2 * |PendingUnits(db, false, after)|
    case Activation(unit, _) => 2 * |PendingUnits(db, false, unit)| + 1
    case Observations(offset, _) => var n := |ChangedSegments(db)|; if offset < n then n - offset else 0
  }

  function Minor(db: Database, phase: Phase): nat {
    match phase
    case Activation(unit, from) =>
      if UnitAfter(db, unit).None? then 0
      else
        |Above(ActivationRows(db, unit), ObservationKey, from)| +
        |Filter(Visible(db, unit), AtLeast(from.post))|
    case Observations(offset, from) =>
      if db.base.None? then 0 else |Above(BatchRows(db, offset), ObservationKey, from)|
    case _ => 0
  }

  /** The lexicographic measure: phase, then units or segments, then observations. */
  ghost predicate Smaller(db: Database, p: Phase, q: Phase) {
    || Stage(p) < Stage(q)
    || (Stage(p) == Stage(q) && Major(db, p) < Major(db, q))
    || (Stage(p) == Stage(q) && Major(db, p) == Major(db, q) && Minor(db, p) < Minor(db, q))
  }

  /** Activation keys are those of retained rows, the start, or the window sentinel. */
  ghost predicate Sound(db: Database, phase: Phase) {
    phase.Activation? ==> !Before(Position(phase.from.post, db.until, LAST_ID), phase.from)
  }

  /** What a step must do: hand out a prefix of the reference and get closer to the end. */
  ghost predicate Refines(db: Database, phase: Phase, step: Step) {
    && Reference(db, phase) == step.changes + Reference(db, step.next)
    && Smaller(db, step.next, phase)
    && Sound(db, step.next)
  }

  // Units ---------------------------------------------------------------------------------------------

  function UnitPosition(bootstrap: bool, after: nat): Phase {
    if bootstrap then Bootstrap(after) else Content(after)
  }

  /** A query over the observation table lists its rows in key order from the start key on. */
  lemma TableScan(db: Database, p: Observation -> bool)
    requires Valid(db)
    ensures Ascending(Filter(db.rows, p), ObservationKey)
    ensures Above(Filter(db.rows, p), ObservationKey, START) == Filter(db.rows, p)
  {
    FilterAscending(db.rows, ObservationKey, p);
    FilterAll(Filter(db.rows, p), Beyond(ObservationKey, START));
  }

  /** Visiting the first pending unit. */
  lemma FirstUnit(db: Database, bootstrap: bool, after: nat)
    requires Valid(db) && PendingUnits(db, bootstrap, after) != []
    ensures var pending := PendingUnits(db, bootstrap, after);
            PendingUnits(db, bootstrap, pending[0]) == pending[1..]
  {
    hide Filter, Listed, PhaseCandidates, Valid, Ascending;
    CandidatePagePrefix(db, bootstrap, after);
    NextPage(Listed(db, bootstrap), IdKey, IdKey(after), 1);
  }

  lemma UnitPhaseReference(db: Database, bootstrap: bool, id: nat)
    requires Valid(db)
    ensures var change := Replacement(id, UnitBefore(db, id), UnitAfter(db, id));
            UnitChanges(db, bootstrap, id) + UnitsFrom(db, bootstrap, id) ==
            (if change.Some? then [change.value] else []) + Reference(db, UnitPhase(db, bootstrap, id))
    ensures Sound(db, UnitPhase(db, bootstrap, id))
  {
    hide Filter, SampleStream, Sort, Replacement, UnitBefore, UnitAfter, NewlyVisible, UnitsFrom, Above, Map;
    if Activates(db, bootstrap, id) {
      TableScan(db, InHistory(db, Visible(db, id)));
    }
  }

  function ChangeOf(db: Database, id: nat): seq<Change> {
    var change := Replacement(id, UnitBefore(db, id), UnitAfter(db, id));
    if change.Some? then [change.value] else []
  }

  /** Handing out the first pending unit's change moves on to its phase. */
  lemma TakeUnit(db: Database, bootstrap: bool, after: nat)
    requires Valid(db) && PendingUnits(db, bootstrap, after) != []
    ensures var pending := PendingUnits(db, bootstrap, after);
            PendingUnits(db, bootstrap, pending[0]) == pending[1..] &&
            Reference(db, UnitPosition(bootstrap, after)) ==
              ChangeOf(db, pending[0]) + Reference(db, UnitPhase(db, bootstrap, pending[0])) &&
            Sound(db, UnitPhase(db, bootstrap, pending[0])) &&
            Smaller(db, UnitPhase(db, bootstrap, pending[0]), UnitPosition(bootstrap, after))
  {
    hide Filter, SampleStream, Sort;
    FirstUnit(db, bootstrap, after);
    var id := PendingUnits(db, bootstrap, after)[0];
    UnitPhaseReference(db, bootstrap, id);
    assert UnitsFrom(db, bootstrap, after) == UnitChanges(db, bootstrap, id) + UnitsFrom(db, bootstrap, id);
  }

  lemma SmallerTransitive(db: Database, p: Phase, q: Phase, r: Phase)
    requires Smaller(db, p, q) && Smaller(db, q, r)
    ensures Smaller(db, p, r)
  {
  }

  lemma PageGrowth(page: Page, change: Option<Change>, size: Change -> nat, limit: nat)
    requires 0 < limit
    ensures var added := if change.None? then Accepted(page) else Add(page, change.value, size(change.value), limit);
            (page.changes == [] ==> !added.Refused?) &&
            (added.Accepted? ==> added.page.changes == page.changes + (if change.Some? then [change.value] else []))
  {
  }

  lemma {:induction false} FillRefines(
      db: Database, bootstrap: bool, ids: seq<nat>, tail: seq<nat>, page: Page, after: nat, limit: nat, filled: Filled)
    requires Valid(db) && 0 < limit
    requires PendingUnits(db, bootstrap, after) == ids + tail
    requires Fill(db, bootstrap, ids, page, UnitPosition(bootstrap, after), limit) == Ok(filled)
    ensures page.changes + Reference(db, UnitPosition(bootstrap, after)) ==
            filled.page.changes + Reference(db, filled.next)
    ensures Sound(db, filled.next)
    ensures ids == [] ==> filled.complete
    ensures filled.complete ==>
              exists last :: filled.next == UnitPosition(bootstrap, last) && PendingUnits(db, bootstrap, last) == tail
    ensures filled.next == UnitPosition(bootstrap, after) || Smaller(db, filled.next, UnitPosition(bootstrap, after))
    ensures page.changes == [] && ids != [] ==> Smaller(db, filled.next, UnitPosition(bootstrap, after))
  {
    hide PendingUnits, Reference, Smaller, NewlyVisible, Replacement, Add;
    if ids == [] {
      assert ids + tail == tail;
    } else {
      var id := ids[0];
      var change := Replacement(id, UnitBefore(db, id), UnitAfter(db, id));
      var added := if change.None? then Accepted(page) else Add(page, change.value, db.size(change.value), limit);
      assert (ids + tail)[0] == id && (ids + tail)[1..] == ids[1..] + tail;
      TakeUnit(db, bootstrap, after);
      PageGrowth(page, change, db.size, limit);
      if added.Accepted? {
        assert added.page.changes == page.changes + ChangeOf(db, id);
        if !Activates(db, bootstrap, id) {
          FillRefines(db, bootstrap, ids[1..], tail, added.page, id, limit, filled);
          if filled.next != UnitPosition(bootstrap, id) {
            SmallerTransitive(db, filled.next, UnitPosition(bootstrap, id), UnitPosition(bootstrap, after));
          }
        }
      }
    }
  }

  /** With no unit pending, what remains is what follows the units. */
  lemma UnitsDone(db: Database, bootstrap: bool, after: nat)
    requires Valid(db) && (bootstrap || db.base.Some?) && PendingUnits(db, bootstrap, after) == []
    ensures Reference(db, UnitPosition(bootstrap, after)) == Reference(db, AfterUnits(db, bootstrap))
    ensures Stage(AfterUnits(db, bootstrap)) < 2 && Sound(db, AfterUnits(db, bootstrap))
  {
    hide Filter, SampleStream, PendingUnits, BatchRows;
    SampleReference(db, 0);
    assert Reference(db, UnitPosition(bootstrap, after)) == [] + StreamEnd(db, bootstrap);
  }

  /** A candidate page against the units still pending. */
  lemma PendingPage(db: Database, bootstrap: bool, after: nat)
    requires Valid(db)
    ensures var pending := PendingUnits(db, bootstrap, after);
            var page := PhaseCandidates(db, bootstrap, after);
            page.ids <= pending && (page.ids == [] ==> pending == []) && (page.hasMore <==> page.ids != pending)
  {
    CandidatePagePrefix(db, bootstrap, after);
  }

  lemma UnitStepRefines(db: Database, phase: Phase, limit: nat, step: Step)
    requires Valid(db) && 0 < limit && (phase.Bootstrap? || phase.Content?)
    requires ContentStep(db, phase, limit) == Ok(step)
    ensures Refines(db, phase, step)
  {
    hide Reference, Major, Minor, Filter, Fill, BootstrapCandidates, ContentCandidates, PendingUnits, Above,
      ReadableCount, AfterUnits, Sound, Ascending;
    var bootstrap := phase.Bootstrap?;
    PendingPage(db, bootstrap, phase.after);
    var page := PhaseCandidates(db, bootstrap, phase.after);
    var pending := PendingUnits(db, bootstrap, phase.after);
    var count := ReadableCount(db, page.ids).value;
    var filled := Fill(db, bootstrap, page.ids[..count], EMPTY_PAGE, phase, limit).value;
    assert pending == page.ids[..count] + pending[count..];
    FillRefines(db, bootstrap, page.ids[..count], pending[count..], EMPTY_PAGE, phase.after, limit, filled);
    assert EMPTY_PAGE.changes + Reference(db, phase) == Reference(db, phase);
    if filled.complete && !page.hasMore && count == |page.ids| {
      var last :| filled.next == UnitPosition(bootstrap, last) && PendingUnits(db, bootstrap, last) == pending[count..];
      UnitsDone(db, bootstrap, last);
    }
  }

  // Observations ----------------------------------------------------------------------------------------


  /** Entering a batch at the start key is entering the rest of the sample stream. */
  lemma SampleReference(db: Database, offset: nat)
    requires Valid(db)
    ensures Reference(db, Observations(offset, START)) == SampleStream(db, offset)
    ensures db.base.None? || offset >= |ChangedSegments(db)| ==> SampleStream(db, offset) == []
  {
    hide Filter;
    if db.base.Some? && SegmentBatch(db, offset) != [] {
      TableScan(db, InBatch(db, offset));
    }
  }

  /** Cutting a scan of a batch after `n` rows. */
  lemma CutScan(db: Database, offset: nat, from: Position, n: nat)
    requires Valid(db) && db.base.Some? && 0 < n <= |Above(BatchRows(db, offset), ObservationKey, from)|
    ensures var found := Above(BatchRows(db, offset), ObservationKey, from);
            var rest := Above(BatchRows(db, offset), ObservationKey, ObservationKey(found[n - 1]));
            rest == found[n..] &&
            Samples(Permitted(db, found)) == Samples(Permitted(db, found[..n])) + Samples(Permitted(db, rest))
  {
    hide Filter, Map;
    var found := Above(BatchRows(db, offset), ObservationKey, from);
    TableScan(db, InBatch(db, offset));
    NextPage(BatchRows(db, offset), ObservationKey, from, n);
    assert found == found[..n] + found[n..];
    FilterAppend(found[..n], found[n..], IsPermitted(db));
    MapAppend(ToSample, Permitted(db, found[..n]), Permitted(db, found[n..]));
  }

  lemma InsideBatch(db: Database, offset: nat, from: Position)
    requires db.base.Some? && SegmentBatch(db, offset) != []
    ensures Reference(db, Observations(offset, from)) ==
            Samples(Permitted(db, Above(BatchRows(db, offset), ObservationKey, from))) +
            SampleStream(db, offset + |SegmentBatch(db, offset)|)
  {
    hide Filter, Map, BatchRows, SampleStream, SegmentBatch;
  }

  lemma FewerRows(db: Database, offset: nat, from: Position, to: Position)
    requires db.base.Some?
    requires |Above(BatchRows(db, offset), ObservationKey, to)| < |Above(BatchRows(db, offset), ObservationKey, from)|
    ensures Smaller(db, Observations(offset, to), Observations(offset, from))
  {
    hide BatchRows, Above, ChangedSegments;
  }

  lemma NextBatch(db: Database, offset: nat, from: Position)
    requires SegmentBatch(db, offset) != []
    ensures var after := offset + |SegmentBatch(db, offset)|;
            Smaller(db, Observations(after, START), Observations(offset, from)) &&
            Smaller(db, Idle, Observations(offset, from))
  {
    hide BatchRows, Above, ChangedSegments;
  }

  lemma SamplesStepRefines(db: Database, offset: nat, from: Position, limit: nat, step: Step)
    requires Valid(db) && 0 < limit
    requires SamplesStep(db, offset, from, limit) == Ok(step)
    ensures Refines(db, Observations(offset, from), step)
  {
    hide Filter, Map, SampleStream, BatchRows, ChangedSegments, Above, Ascending, Valid, Samples, Permitted,
      SegmentBatch, Smaller;
    var keys := SegmentBatch(db, offset);
    if keys == [] {
      EmptyBatch(db, offset, from);
    } else {
      hide Reference;
      var found := Above(BatchRows(db, offset), ObservationKey, from);
      InsideBatch(db, offset, from);
      if |found| > PageLimit(limit) {
        var to := ObservationKey(found[PageLimit(limit) - 1]);
        CutScan(db, offset, from, PageLimit(limit));
        InsideBatch(db, offset, to);
        FewerRows(db, offset, from, to);
      } else {
        SampleReference(db, offset + |keys|);
        NextBatch(db, offset, from);
        NothingIdle(db);
      }
    }
  }

  lemma EmptyBatch(db: Database, offset: nat, from: Position)
    requires SegmentBatch(db, offset) == []
    ensures Reference(db, Observations(offset, from)) == Reference(db, Idle)
    ensures Smaller(db, Idle, Observations(offset, from))
  {
    hide BatchRows, Above, ChangedSegments;
  }

  lemma NothingIdle(db: Database)
    ensures Reference(db, Idle) == []
  {
  }
}
