/** How often a client is handed an observation, and which rows the pages of a run scan. */
module ConsumerDeliveries {
  import opened Sequences
  import opened KeysetPages
  import opened ConsumerPage
  import opened ConsumerChanges
  import opened CandidatePages
  import opened ConsumerStream
  import opened ConsumerUnits
  import opened ConsumerCompletion
  import opened ConsumerRuns

  // What the client sees ------------------------------------------------------------------------------

  /** The rows the observation phase scans from a segment offset on, permitted or not. */
  function ScanStream(db: Database, offset: nat): seq<Observation>
    requires db.base.Some?
    decreases |ChangedSegments(db)| - offset
  {
    if SegmentBatch(db, offset) == [] then []
    else BatchRows(db, offset) + ScanStream(db, offset + |SegmentBatch(db, offset)|)
  }

  lemma NothingSampled(db: Database)
    ensures Samples(Permitted(db, [])) == []
  {
  }

  /** The observation phase hands out the permitted part of what it scans. */
  lemma {:induction false} SampleStreamIsScan(db: Database, offset: nat)
    requires db.base.Some?
    ensures SampleStream(db, offset) == Samples(Permitted(db, ScanStream(db, offset)))
    decreases |ChangedSegments(db)| - offset
  {
    hide BatchRows, Filter, Map;
    if SegmentBatch(db, offset) == [] {
      NothingSampled(db);
    } else {
      var next := offset + |SegmentBatch(db, offset)|;
      SampleStreamIsScan(db, next);
      FilterAppend(BatchRows(db, offset), ScanStream(db, next), IsPermitted(db));
      MapAppend(ToSample, Permitted(db, BatchRows(db, offset)), Permitted(db, ScanStream(db, next)));
    }
  }

  /** A public observation inside the window, in the target but not in the base. */
  predicate NewlyObserved(db: Database, o: Observation)
    requires db.base.Some?
  {
    && o in db.rows && o.isPublic && db.since <= o.at
    && InSegments(o, db.targetSegments) && !InSegments(o, db.base.value.segments)
  }

  lemma InSegmentsSplit(o: Observation, a: seq<nat>, b: seq<nat>)
    ensures InSegments(o, a + b) <==> InSegments(o, a) || InSegments(o, b)
  {
    if InSegments(o, a + b) {
      var key :| key in o.segments && key in a + b;
      assert key in a || key in b;
    }
    if InSegments(o, a) {
      var key :| key in o.segments && key in a;
      assert key in a + b;
    }
    if InSegments(o, b) {
      var key :| key in o.segments && key in b;
      assert key in a + b;
    }
  }

  lemma ChangedSegmentsOf(db: Database, o: Observation)
    requires Valid(db) && db.base.Some?
    ensures !InSegments(o, db.base.value.segments) ==>
              (InSegments(o, ChangedSegments(db)) <==> InSegments(o, db.targetSegments))
    ensures InSegments(o, ChangedSegments(db)) ==> InSegments(o, db.targetSegments)
  {
    var changed := ChangedSegments(db);
    if InSegments(o, changed) {
      var key :| key in o.segments && key in changed;
      assert key in db.targetSegments;
    }
    if InSegments(o, db.targetSegments) && !InSegments(o, db.base.value.segments) {
      var key :| key in o.segments && key in db.targetSegments;
      assert key !in db.base.value.segments;
      assert Outside(db.base.value.segments)(key);
      assert key in changed;
    }
  }

  lemma BatchOccurrence(db: Database, offset: nat, o: Observation)
    requires Valid(db) && db.base.Some?
    ensures Occurrences(BatchRows(db, offset), o) == if o in db.rows && InBatch(db, offset)(o) then 1 else 0
  {
    TableScan(db, InBatch(db, offset));
    AscendingIsDistinct(BatchRows(db, offset), ObservationKey);
    DistinctOccursOnce(BatchRows(db, offset), o);
  }

  lemma {:induction false} StreamOccurrence(db: Database, offset: nat, o: Observation)
    requires Valid(db) && db.base.Some?
    ensures Occurrences(ScanStream(db, offset), o) ==
            if NewlyObserved(db, o) && offset < |ChangedSegments(db)| &&
               InSegments(o, ChangedSegments(db)[offset..]) && !InSegments(o, ChangedSegments(db)[..offset])
            then 1 else 0
    decreases |ChangedSegments(db)| - offset
  {
    hide Filter, BatchRows, InSegments;
    var changed := ChangedSegments(db);
    var batch := SegmentBatch(db, offset);
    if batch != [] {
      var next := offset + |batch|;
      OccurrencesAppend(BatchRows(db, offset), ScanStream(db, next), o);
      BatchOccurrence(db, offset, o);
      StreamOccurrence(db, next, o);
      ChangedSegmentsOf(db, o);
      assert changed[offset..] == batch + changed[next..];
      InSegmentsSplit(o, batch, changed[next..]);
      assert changed[..next] == changed[..offset] + batch;
      InSegmentsSplit(o, changed[..offset], batch);
      assert changed == changed[..next] + changed[next..];
      InSegmentsSplit(o, changed[..next], changed[next..]);
      assert FirstPage(changed, offset) == changed[..offset];
      if next == |changed| {
        assert changed[next..] == [];
        NoSegments(o);
      }
    }
  }

  lemma NoSegments(o: Observation)
    ensures !InSegments(o, [])
  {
  }

  lemma WholeScan(db: Database, o: Observation)
    requires Valid(db) && db.base.Some?
    ensures Occurrences(ScanStream(db, 0), o) == if NewlyObserved(db, o) then 1 else 0
  {
    hide ScanStream, ChangedSegments;
    StreamOccurrence(db, 0, o);
    ChangedSegmentsOf(db, o);
    assert ChangedSegments(db)[0..] == ChangedSegments(db) && ChangedSegments(db)[..0] == [];
    NoSegments(o);
    if ChangedSegments(db) == [] {
      assert InSegments(o, ChangedSegments(db)) == InSegments(o, []);
    }
  }

  // What the pages scan -------------------------------------------------------------------------------

  /** The rows the page of a cursor reads from the new segments. */
  function ScannedRows(db: Database, phase: Phase, limit: nat): seq<Observation> {
    if phase.Observations? && db.base.Some? && SegmentBatch(db, phase.offset) != []
    then ScannedPage(db, phase.offset, phase.from, limit) else []
  }

  /** A page of the observation phase hands out the permitted part of the rows it reads. */
  lemma PageHandsOutScan(db: Database, offset: nat, from: Position, limit: nat)
    requires 0 < limit && db.base.Some?
    ensures SamplesStep(db, offset, from, limit).Ok?
    ensures SamplesStep(db, offset, from, limit).value.changes ==
            Samples(Permitted(db, ScannedRows(db, Observations(offset, from), limit)))
  {
    hide ScannedPage, SegmentBatch, ChangedSegments;
  }

  /** What the pages from a cursor on read, page after page, until one throws or is the last. */
  ghost function Scans(db: Database, phase: Phase, limit: Phase -> nat): seq<Observation>
    requires Valid(db) && Sound(db, phase) && forall p :: 0 < limit(p)
    decreases Stage(phase), Major(db, phase), Minor(db, phase)
  {
    hide Reference, Advance, Major, Minor;
    if phase.Idle? || Advance(db, phase, limit(phase)).Throws? then []
    else
      var step := Advance(db, phase, limit(phase)).value;
      AdvanceRefines(db, phase, limit(phase), step);
      ScannedRows(db, phase, limit(phase)) + Scans(db, step.next, limit)
  }

  /** What is left to scan, without pages. */
  function ScanFrom(db: Database, phase: Phase): seq<Observation> {
    if db.base.None? then []
    else
      match phase
      case Content(_) => ScanStream(db, 0)
      case Activation(_, _) => ScanStream(db, 0)
      case Observations(offset, from) =>
        if SegmentBatch(db, offset) == [] then []
        else
          Above(BatchRows(db, offset), ObservationKey, from) + ScanStream(db, offset + |SegmentBatch(db, offset)|)
      case _ => []
  }

  lemma {:induction false} FillKind(
      db: Database, bootstrap: bool, ids: seq<nat>, page: Page, next: Phase, limit: nat)
    requires next == UnitPosition(bootstrap, PlaceOf(next))
    ensures var filled := Fill(db, bootstrap, ids, page, next, limit);
            filled.Ok? ==>
              if bootstrap then filled.value.next.Bootstrap?
              else filled.value.next.Content? || filled.value.next.Activation?
  {
    hide Add, Replacement, UnitBefore, UnitAfter, UnitPhase;
    if ids != [] {
      var id := ids[0];
      var change := Replacement(id, UnitBefore(db, id), UnitAfter(db, id));
      var added := if change.None? then Accepted(page) else Add(page, change.value, db.size(change.value), limit);
      UnitPhaseIs(db, bootstrap, id);
      if added.Accepted? && !UnitPhase(db, bootstrap, id).Activation? {
        FillKind(db, bootstrap, ids[1..], added.page, UnitPhase(db, bootstrap, id), limit);
      }
    }
  }

  lemma AfterUnitsScan(db: Database)
    requires Valid(db) && db.base.Some?
    ensures ScanFrom(db, AfterUnits(db, false)) == ScanStream(db, 0)
  {
    hide BatchRows, ChangedSegments, Filter;
    ScanAtStart(db, 0);
  }

  /** Entering a batch at the start key is entering the rest of the scan. */
  lemma ScanAtStart(db: Database, offset: nat)
    requires Valid(db) && db.base.Some?
    ensures ScanFrom(db, Observations(offset, START)) == ScanStream(db, offset)
    ensures offset >= |ChangedSegments(db)| ==> ScanStream(db, offset) == []
  {
    hide Filter;
    TableScan(db, InBatch(db, offset));
  }

  lemma ContentScans(db: Database, phase: Phase, limit: nat)
    requires Valid(db) && 0 < limit && (phase.Bootstrap? || phase.Content?) && ContentStep(db, phase, limit).Ok?
    ensures ScanFrom(db, phase) == ScanFrom(db, ContentStep(db, phase, limit).value.next)
  {
    hide BootstrapCandidates, ContentCandidates, ReadableCount, Fill, AfterUnits, ScanStream, BatchRows, Above;
    var page := PhaseCandidates(db, phase.Bootstrap?, phase.after);
    FillKind(db, phase.Bootstrap?, page.ids[..ReadableCount(db, page.ids).value], EMPTY_PAGE, phase, limit);
    if phase.Bootstrap? {
      BootstrapIsLast(db);
    } else {
      AfterUnitsScan(db);
    }
  }

  lemma BootstrapIsLast(db: Database)
    ensures AfterUnits(db, true) == Idle
  {
  }

  lemma BatchEnds(db: Database, offset: nat)
    requires Valid(db) && db.base.Some? && SegmentBatch(db, offset) != []
    ensures var next := offset + |SegmentBatch(db, offset)|;
            ScanFrom(db, if next < |ChangedSegments(db)| then Observations(next, START) else Idle) ==
            ScanStream(db, next)
  {
    hide ChangedSegments, ScanStream, ScanFrom, SegmentBatch;
    ScanAtStart(db, offset + |SegmentBatch(db, offset)|);
    NothingLeft(db);
  }

  lemma NothingLeft(db: Database)
    ensures ScanFrom(db, Idle) == []
  {
  }

  lemma ScanInside(db: Database, offset: nat, from: Position)
    requires db.base.Some? && SegmentBatch(db, offset) != []
    ensures ScanFrom(db, Observations(offset, from)) ==
            Above(BatchRows(db, offset), ObservationKey, from) + ScanStream(db, offset + |SegmentBatch(db, offset)|)
  {
  }

  /** A cut page goes on with the rows it left out; a complete one with the next batch. */
  lemma SamplesScan(db: Database, offset: nat, from: Position, limit: nat)
    requires Valid(db) && 0 < limit && SamplesStep(db, offset, from, limit).Ok?
    ensures ScanFrom(db, Observations(offset, from)) ==
            ScannedRows(db, Observations(offset, from), limit) +
            ScanFrom(db, SamplesStep(db, offset, from, limit).value.next)
  {
    hide BatchRows, ChangedSegments, Above, ScanStream, SegmentBatch, Samples, Permitted, Valid, ScanFrom;
    if SegmentBatch(db, offset) == [] {
      NothingLeft(db);
      NoBatch(db, offset, from);
    } else {
      var found := Above(BatchRows(db, offset), ObservationKey, from);
      var n := PageLimit(limit);
      ScanInside(db, offset, from);
      if |found| > n {
        CutScan(db, offset, from, n);
        ScanInside(db, offset, ObservationKey(found[n - 1]));
        assert found == found[..n] + found[n..];
      } else {
        BatchEnds(db, offset);
      }
    }
  }

  lemma NoBatch(db: Database, offset: nat, from: Position)
    requires SegmentBatch(db, offset) == []
    ensures ScanFrom(db, Observations(offset, from)) == []
  {
  }

  lemma ActivationScans(db: Database, unit: nat, from: Position, limit: nat)
    requires 0 < limit && ActivationStep(db, unit, from, limit).Ok?
    ensures ScanFrom(db, Activation(unit, from)) == ScanFrom(db, ActivationStep(db, unit, from, limit).value.next)
  {
    hide ScanStream, UnitAfter, NewlyVisible, Filter, HistoryRows, Above, FirstPage, ReadableCount;
  }

  lemma AdvanceScans(db: Database, phase: Phase, limit: nat)
    requires Valid(db) && 0 < limit && Advance(db, phase, limit).Ok?
    ensures ScanFrom(db, phase) ==
            ScannedRows(db, phase, limit) + ScanFrom(db, Advance(db, phase, limit).value.next)
  {
    hide ScanStream, ScanFrom, ContentStep, SamplesStep, ActivationStep;
    match phase
    case Bootstrap(_) => ContentScans(db, phase, limit);
    case Content(_) => ContentScans(db, phase, limit);
    case Activation(unit, from) => ActivationScans(db, unit, from, limit);
    case Observations(offset, from) => SamplesScan(db, offset, from, limit);
  }

  /** The pages of a run scan what is left to scan, each row where it comes. */
  lemma {:induction false} ScansAreStream(db: Database, phase: Phase, limit: Phase -> nat)
    requires Valid(db) && Sound(db, phase) && (forall p :: 0 < limit(p)) && Completes(db, phase)
    ensures Scans(db, phase, limit) == ScanFrom(db, phase)
    decreases Stage(phase), Major(db, phase), Minor(db, phase)
  {
    hide Reference, Advance, Major, Minor, Valid, Completes, Monotone, ScannedRows;
    if phase.Idle? {
      assert ScanFrom(db, Idle) == [];
    } else {
      hide ScanFrom;
      AdvanceExact(db, phase, limit(phase));
      var step := Advance(db, phase, limit(phase)).value;
      AdvanceRefines(db, phase, limit(phase), step);
      AdvanceScans(db, phase, limit(phase));
      ScansAreStream(db, step.next, limit);
    }
  }

  /** From the start of any batch on, the pages scan an observation once if it is new, untouched by
      earlier batches and carried by a segment still to come, and otherwise not at all. */
  lemma ScanOccurrence(db: Database, offset: nat, limit: Phase -> nat, o: Observation)
    requires Valid(db) && db.base.Some? && forall p :: 0 < limit(p)
    ensures Occurrences(Scans(db, Observations(offset, START), limit), o) ==
            if NewlyObserved(db, o) && offset < |ChangedSegments(db)| &&
               InSegments(o, ChangedSegments(db)[offset..]) && !InSegments(o, ChangedSegments(db)[..offset])
            then 1 else 0
  {
    hide Valid, ScanStream, NewlyObserved, Scans, ChangedSegments, InSegments;
    ScansAreStream(db, Observations(offset, START), limit);
    ScanAtStart(db, offset);
    StreamOccurrence(db, offset, o);
  }

  /** Over a whole run the pages scan every new public observation in the window exactly once,
      however many segments carry it, and nothing else; what they hand out of it is what the
      permission filter leaves. */
  lemma EachNewObservationScannedOnce(db: Database, limit: Phase -> nat, o: Observation)
    requires Valid(db) && (forall p :: 0 < limit(p)) && Completes(db, Content(0))
    ensures Occurrences(Scans(db, Content(0), limit), o) == if NewlyObserved(db, o) then 1 else 0
  {
    hide Valid, ScanStream, NewlyObserved, Scans;
    ScansAreStream(db, Content(0), limit);
    WholeScan(db, o);
  }

  lemma {:induction false} SampleOccurrences(rows: seq<Observation>, o: Observation)
    ensures Occurrences(Samples(rows), Sample(o)) == Occurrences(rows, o)
  {
    if rows != [] {
      assert Samples(rows)[0] == Sample(rows[0]) && Samples(rows)[1..] == Samples(rows[1..]);
      SampleOccurrences(rows[1..], o);
    }
  }

  lemma {:induction false} FilterOccurrences(rows: seq<Observation>, p: Observation -> bool, o: Observation)
    ensures Occurrences(Filter(rows, p), o) == if p(o) then Occurrences(rows, o) else 0
  {
    if rows != [] {
      FilterOccurrences(rows[1..], p, o);
      OccurrencesAppend(if p(rows[0]) then [rows[0]] else [], Filter(rows[1..], p), o);
    }
  }

  /** The units whose activation hands out this observation. */
  function Shows(db: Database, o: Observation): nat -> bool {
    (id: nat) => Activates(db, false, id) && o in ActivationRows(db, id)
  }

  lemma UnitDeliveries(db: Database, id: nat, o: Observation)
    requires Valid(db)
    ensures Occurrences(UnitChanges(db, false, id), Sample(o)) == if Shows(db, o)(id) then 1 else 0
  {
    hide Filter, Map, HistoryRows, Visible;
    var first := ChangeOf(db, id);
    var samples := if Activates(db, false, id) then Samples(ActivationRows(db, id)) else [];
    OccurrencesAppend(first, samples, Sample(o));
    if Activates(db, false, id) {
      var rows := ActivationRows(db, id);
      ActivationRowsOnce(db, id);
      SampleOccurrences(rows, o);
      DistinctOccursOnce(rows, o);
    }
    if first != [] {
      assert first[1..] == [];
    }
  }

  /** A unit hands the observation out exactly when it is an eligible one of a new original post. */
  lemma ShowsExactly(db: Database, o: Observation, id: nat)
    requires Valid(db)
    ensures Shows(db, o)(id) <==> Eligible(db, o) && NewOriginal(db, id, o.post)
  {
    NothingNewActivatesNothing(db, false, id);
    if UnitAfter(db, id).Some? {
      ActivationRowsOnce(db, id);
    }
    hide Eligible, ActivationRows, Activates;
    if NewOriginal(db, id, o.post) {
      UnitsExactly(db, id, db.targetView[id]);
    }
  }

  lemma {:induction false} UnitStreamDeliveries(db: Database, ids: seq<nat>, o: Observation)
    requires Valid(db)
    ensures Occurrences(UnitStream(db, false, ids), Sample(o)) == |Filter(ids, Shows(db, o))|
  {
    hide UnitChanges, Shows;
    if ids != [] {
      OccurrencesAppend(UnitChanges(db, false, ids[0]), UnitStream(db, false, ids[1..]), Sample(o));
      UnitDeliveries(db, ids[0], o);
      UnitStreamDeliveries(db, ids[1..], o);
    }
  }

  /** Whether the observation phase hands this observation out. */
  predicate Updates(db: Database, o: Observation)
    requires db.base.Some?
  {
    NewlyObserved(db, o) && o.post in db.permitted
  }

  /** How often a whole run hands out an observation: once for every candidate unit that newly
      shows its post, and once more if it is itself new and permitted. */
  lemma Deliveries(db: Database, o: Observation, limit: Phase -> nat)
    requires Valid(db) && (forall p :: 0 < limit(p)) && Completes(db, Content(0))
    ensures Drain(db, Content(0), limit).Ok?
    ensures Occurrences(Drain(db, Content(0), limit).value, Sample(o)) ==
            |Filter(Listed(db, false), Shows(db, o))| + if Updates(db, o) then 1 else 0
  {
    DrainCompletes(db, Content(0), limit);
    hide Drain, Filter, UnitStream, Listed, PendingUnits, SampleStream, ScanStream, NewlyObserved, Map, Shows;
    AllUnitsPending(db, false);
    var units := UnitStream(db, false, Listed(db, false));
    OccurrencesAppend(units, SampleStream(db, 0), Sample(o));
    UnitStreamDeliveries(db, Listed(db, false), o);
    SampleStreamIsScan(db, 0);
    SampleOccurrences(Permitted(db, ScanStream(db, 0)), o);
    FilterOccurrences(ScanStream(db, 0), IsPermitted(db), o);
    WholeScan(db, o);
  }

  lemma ListedOnce(db: Database)
    requires Valid(db)
    ensures Distinct(Listed(db, false))
    ensures forall id :: id in Listed(db, false) <==> id in db.affected || id in db.restored
  {
    CandidatePagePrefix(db, false, 0);
    UnionIsMerge(db.affected, db.restored);
    MergeMembers(db.affected, db.restored);
    AscendingIsDistinct(Listed(db, false), IdKey);
    hide Valid, Merge, SortedUnion, Ascending;
  }

  /** A candidate unit that newly shows the post of an eligible observation. */
  ghost predicate ShownBy(db: Database, o: Observation, id: nat) {
    (id in db.affected || id in db.restored) && Eligible(db, o) && NewOriginal(db, id, o.post)
  }

  ghost predicate ShownByNone(db: Database, o: Observation) { forall id :: !ShownBy(db, o, id) }

  ghost predicate ShownByOne(db: Database, o: Observation) {
    exists id :: ShownBy(db, o, id) && forall other | ShownBy(db, o, other) :: other == id
  }

  lemma ShownUnits(db: Database, o: Observation)
    requires Valid(db)
    ensures ForNone(Listed(db, false), Shows(db, o)) <==> ShownByNone(db, o)
    ensures ForOne(Listed(db, false), Shows(db, o)) <==> ShownByOne(db, o)
  {
    ListedOnce(db);
    var listed, shows := Listed(db, false), Shows(db, o);
    forall id: nat ensures id in listed && shows(id) <==> ShownBy(db, o, id) {
      ShowsExactly(db, o, id);
    }
    hide Listed, Shows, ShownBy, Distinct;
    SameOne(listed, shows, db, o);
  }

  lemma SameOne(listed: seq<nat>, shows: nat -> bool, db: Database, o: Observation)
    requires forall id: nat :: id in listed && shows(id) <==> ShownBy(db, o, id)
    ensures ForNone(listed, shows) <==> ShownByNone(db, o)
    ensures ForOne(listed, shows) <==> ShownByOne(db, o)
  {
    hide ShownBy;
    if ForOne(listed, shows) {
      var id :| id in listed && shows(id) && forall y | y in listed && shows(y) :: y == id;
      assert ShownBy(db, o, id);
    }
    if ShownByOne(db, o) {
      var id :| ShownBy(db, o, id) && forall other | ShownBy(db, o, other) :: other == id;
      assert id in listed && shows(id);
    }
  }

  /** An observation comes exactly once if and only if it is new and permitted and no candidate
      unit newly shows its post, or it is not and exactly one candidate unit does. */
  lemma DeliveredOnce(db: Database, o: Observation, limit: Phase -> nat)
    requires Valid(db) && (forall p :: 0 < limit(p)) && Completes(db, Content(0))
    ensures Drain(db, Content(0), limit).Ok?
    ensures Occurrences(Drain(db, Content(0), limit).value, Sample(o)) == 1 <==>
            if Updates(db, o) then ShownByNone(db, o) else ShownByOne(db, o)
  {
    hide *;
    Deliveries(db, o, limit);
    ListedOnce(db);
    FilterOne(Listed(db, false), Shows(db, o));
    FilterEmpty(Listed(db, false), Shows(db, o));
    ShownUnits(db, o);
  }

  // Handed out twice ----------------------------------------------------------------------------------

  function Anything<T>(): T -> bool { (x: T) => true }

  function Nothing<T>(): T -> bool { (x: T) => false }

  function Small(): Change -> nat { (c: Change) => 100 }

  const FIRST_SAMPLE := Observation(5, 10, 1, {1}, true)

  const NEW_UNIT := Unit(1, [Post(5, false)], 0)

  /** A base without segments, and a target with one: it brings a unit with one post, and a
      sample of that post. */
  const NEW_POST := Database(
    [1], map[1 := NEW_UNIT], Some(Base([], map[])), Anything<Unit>(), {}, [1], [], [], Nothing<seq<nat>>(), Small(),
    [FIRST_SAMPLE], {5}, 0, 100)

  lemma NewPostIsValid()
    ensures Valid(NEW_POST) && Completes(NEW_POST, Content(0))
  {
  }

  lemma NewPostIsVisible()
    ensures UnitAfter(NEW_POST, 1) == Some(NEW_UNIT) && Visible(NEW_POST, 1) == [5]
  {
    var posts := [Post(5, false)];
    assert Filter(posts, OriginalOutside({})) == posts;
    assert Map(PostId, posts) == [5];
    assert Sort([5]) == [5] by {
      SameMembers(Sort([5]), [5]);
    }
    hide Filter, Map, Sort;
  }

  lemma NewPostIsShown()
    ensures Listed(NEW_POST, false) == [1] && Shows(NEW_POST, FIRST_SAMPLE)(1)
  {
    assert SortedUnion([1], []) == [1] by {
      assert [1] + Filter([], Outside([1])) == [1];
      SameMembers(Sort([1]), [1]);
      hide Sort, Filter;
    }
    NewPostIsVisible();
    hide Filter, Map, Sort, NewlyVisible, UnitAfter, Visible, Listed;
    assert 1 in FIRST_SAMPLE.segments && 1 in NEW_POST.targetSegments;
    assert FIRST_SAMPLE in NEW_POST.rows && InHistory(NEW_POST, [5])(FIRST_SAMPLE);
  }

  lemma NewPostIsNew()
    ensures Updates(NEW_POST, FIRST_SAMPLE)
  {
    assert 1 in FIRST_SAMPLE.segments && 1 in NEW_POST.targetSegments;
  }

  lemma ShownAndNew(db: Database, id: nat, o: Observation, limit: Phase -> nat)
    requires Valid(db) && (forall p :: 0 < limit(p)) && Completes(db, Content(0))
    requires Listed(db, false) == [id] && Shows(db, o)(id) && Updates(db, o)
    ensures Drain(db, Content(0), limit).Ok?
    ensures Occurrences(Drain(db, Content(0), limit).value, Sample(o)) == 2
  {
    hide Drain, Valid, Completes, Shows, Updates, Listed, Occurrences;
    Deliveries(db, o, limit);
    FilterAll([id], Shows(db, o));
  }

  /** The ordinary first sample of an ordinary new post comes in both phases. */
  lemma NewPostComesTwice(limit: Phase -> nat)
    requires forall p :: 0 < limit(p)
    ensures Valid(NEW_POST) && Drain(NEW_POST, Content(0), limit).Ok?
    ensures Occurrences(Drain(NEW_POST, Content(0), limit).value, Sample(FIRST_SAMPLE)) == 2
  {
    NewPostIsValid();
    NewPostIsShown();
    NewPostIsNew();
    hide *;
    ShownAndNew(NEW_POST, 1, FIRST_SAMPLE, limit);
  }

  /** The same unit with more posts than one read may cover, or larger than a page. */
  const UNREADABLE := NEW_POST.(tooLarge := Anything<seq<nat>>())
  const OVERSIZED := NEW_POST.(size := Large())

  function Large(): Change -> nat { (c: Change) => HARD_PAGE_BYTES }

  lemma BadUnits()
    ensures Valid(UNREADABLE) && Monotone(UNREADABLE) && !Completes(UNREADABLE, Content(0))
    ensures Valid(OVERSIZED) && Monotone(OVERSIZED) && !Completes(OVERSIZED, Content(0))
  {
    NewPostIsValid();
    NewPostIsShown();
    NewPostIsVisible();
    assert UnitAfter(OVERSIZED, 1) == UnitAfter(NEW_POST, 1) && UnitBefore(OVERSIZED, 1) == None;
    assert Listed(UNREADABLE, false) == [1] && Listed(OVERSIZED, false) == [1];
    hide UnitAfter, UnitBefore, Listed, Visible, Shows, Valid;
    assert !Readable(UNREADABLE, 1) && !Fits(OVERSIZED, 1);
    assert 1 in [1];
  }

  /** Runs that never reach idle. */
  lemma OneUnitStopsARun(limit: Phase -> nat)
    requires forall p :: 0 < limit(p)
    ensures Valid(UNREADABLE) && Drain(UNREADABLE, Content(0), limit).Throws?
    ensures Valid(OVERSIZED) && Drain(OVERSIZED, Content(0), limit).Throws?
  {
    BadUnits();
    hide *;
    Stops(UNREADABLE, limit);
    Stops(OVERSIZED, limit);
  }

  lemma Stops(db: Database, limit: Phase -> nat)
    requires Valid(db) && Monotone(db) && !Completes(db, Content(0)) && forall p :: 0 < limit(p)
    ensures Drain(db, Content(0), limit).Throws?
  {
    DrainCompletes(db, Content(0), limit);
  }

  /** The pages that follow one activation cursor start with exactly the unit's rows. */
  lemma ActivationIsComplete(db: Database, id: nat, limit: Phase -> nat)
    requires Valid(db) && UnitAfter(db, id).Some? && (forall p :: 0 < limit(p)) && Completes(db, Activation(id, START))
    ensures Drain(db, Activation(id, START), limit) == Ok(Samples(ActivationRows(db, id)) + Reference(db, Content(id)))
  {
    DrainCompletes(db, Activation(id, START), limit);
    hide Filter, Drain;
    TableScan(db, InHistory(db, Visible(db, id)));
  }
}
