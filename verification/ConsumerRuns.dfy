/** Whole runs of the consumer change stream: what a client holds and has seen when the cursor
    comes to rest, for every page limit, every page cut and every halved read. */
module ConsumerRuns {
  import opened Sequences
  import opened KeysetPages
  import opened ConsumerPage
  import opened ConsumerChanges
  import opened CandidatePages
  import opened ConsumerStream
  import opened ConsumerUnits
  import opened ConsumerActivation
  import opened ConsumerCompletion

  lemma AdvanceRefines(db: Database, phase: Phase, limit: nat, step: Step)
    requires Valid(db) && Sound(db, phase) && 0 < limit
    requires Advance(db, phase, limit) == Ok(step)
    ensures Refines(db, phase, step)
  {
    hide Refines, ContentStep, ActivationStep, SamplesStep;
    match phase
    case Bootstrap(_) => UnitStepRefines(db, phase, limit, step);
    case Content(_) => UnitStepRefines(db, phase, limit, step);
    case Activation(unit, from) => ActivationStepRefines(db, unit, from, limit, step);
    case Observations(offset, from) => SamplesStepRefines(db, offset, from, limit, step);
  }

  /** Follow the cursor until it is idle. The page limit may differ from page to page: no
      phase comes twice, so a limit chosen by phase is a limit chosen freely. */
  ghost function Drain(db: Database, phase: Phase, limit: Phase -> nat): (all: Outcome<seq<Change>>)
    requires Valid(db) && Sound(db, phase) && forall p :: 0 < limit(p)
    ensures all.Ok? ==> all.value == Reference(db, phase)
    decreases Stage(phase), Major(db, phase), Minor(db, phase)
  {
    hide Reference, Advance, Major, Minor;
    if phase.Idle? then
      NothingIdle(db);
      Ok([])
    else
      match Advance(db, phase, limit(phase))
      case Throws(error) => Throws(error)
      case Ok(step) =>
        AdvanceRefines(db, phase, limit(phase), step);
        match Drain(db, step.next, limit)
        case Throws(error) => Throws(error)
        case Ok(rest) => Ok(step.changes + rest)
  }

  lemma IdleCompletes(db: Database)
    ensures Completes(db, Idle)
  {
  }

  /** No page of a run throws if every unit it comes to can be read alone and its change fits a
      page; and if larger reads are never smaller, a run ends only then. */
  lemma {:induction false} DrainCompletes(db: Database, phase: Phase, limit: Phase -> nat)
    requires Valid(db) && Sound(db, phase) && forall p :: 0 < limit(p)
    ensures Completes(db, phase) ==> Drain(db, phase, limit).Ok?
    ensures Monotone(db) ==> (Drain(db, phase, limit).Ok? <==> Completes(db, phase))
    decreases Stage(phase), Major(db, phase), Minor(db, phase)
  {
    hide Reference, Advance, Major, Minor, Valid, Monotone, Completes;
    if phase.Idle? {
      IdleCompletes(db);
    } else {
      AdvanceExact(db, phase, limit(phase));
      var step := Advance(db, phase, limit(phase));
      if step.Ok? {
        AdvanceRefines(db, phase, limit(phase), step.value);
        DrainCompletes(db, step.value.next, limit);
      }
    }
  }

  // What the client holds ---------------------------------------------------------------------------

  function Lookup(view: map<nat, Unit>, id: nat): Option<Unit> {
    if id in view then Some(view[id]) else None
  }

  function ApplyChange(view: map<nat, Unit>, change: Change): map<nat, Unit> {
    match change
    case UnitUpsert(unit) => view[unit.id := unit]
    case UnitRemove(id) => view - {id}
    case Sample(_) => view
  }

  function Apply(view: map<nat, Unit>, changes: seq<Change>): map<nat, Unit>
    decreases |changes|
  {
    if changes == [] then view else Apply(ApplyChange(view, changes[0]), changes[1..])
  }

  lemma {:induction false} ApplyAppend(view: map<nat, Unit>, a: seq<Change>, b: seq<Change>)
    ensures Apply(view, a + b) == Apply(Apply(view, a), b)
    decreases |a|
  {
    if a == [] {
      assert a + b == b;
    } else {
      assert (a + b)[1..] == a[1..] + b;
      ApplyAppend(ApplyChange(view, a[0]), a[1..], b);
    }
  }

  lemma {:induction false} SamplesKeepView(view: map<nat, Unit>, rows: seq<Observation>)
    ensures Apply(view, Samples(rows)) == view
  {
    if rows != [] {
      assert Samples(rows)[0] == Sample(rows[0]) && Samples(rows)[1..] == Samples(rows[1..]);
      SamplesKeepView(view, rows[1..]);
    }
  }

  lemma {:induction false} SampleStreamKeepsView(db: Database, offset: nat, view: map<nat, Unit>)
    ensures Apply(view, SampleStream(db, offset)) == view
    decreases |ChangedSegments(db)| - offset
  {
    hide Filter, Map;
    if db.base.Some? && SegmentBatch(db, offset) != [] {
      var batch := Samples(Permitted(db, BatchRows(db, offset)));
      ApplyAppend(view, batch, SampleStream(db, offset + |SegmentBatch(db, offset)|));
      SamplesKeepView(view, Permitted(db, BatchRows(db, offset)));
      SampleStreamKeepsView(db, offset + |SegmentBatch(db, offset)|, view);
    }
  }

  /** Whether the stream says anything about a unit. */
  predicate Announced(db: Database, bootstrap: bool, id: nat) {
    id in Listed(db, bootstrap) && Replacement(id, UnitBefore(db, id), UnitAfter(db, id)).Some?
  }

  lemma UnitChangesView(db: Database, bootstrap: bool, unit: nat, view: map<nat, Unit>, id: nat)
    requires Valid(db)
    ensures Lookup(Apply(view, UnitChanges(db, bootstrap, unit)), id) ==
            if id == unit && Replacement(unit, UnitBefore(db, unit), UnitAfter(db, unit)).Some?
            then UnitAfter(db, unit) else Lookup(view, id)
  {
    hide Filter, Map, NewlyVisible, HistoryRows;
    var first := ChangeOf(db, unit);
    var samples := if Activates(db, bootstrap, unit) then Samples(ActivationRows(db, unit)) else [];
    ApplyAppend(view, first, samples);
    if Activates(db, bootstrap, unit) {
      SamplesKeepView(Apply(view, first), ActivationRows(db, unit));
    }
    if first != [] {
      assert first[1..] == [];
    }
  }

  lemma {:induction false} UnitStreamView(db: Database, bootstrap: bool, ids: seq<nat>, view: map<nat, Unit>, id: nat)
    requires Valid(db)
    ensures Lookup(Apply(view, UnitStream(db, bootstrap, ids)), id) ==
            if id in ids && Replacement(id, UnitBefore(db, id), UnitAfter(db, id)).Some?
            then UnitAfter(db, id) else Lookup(view, id)
  {
    hide Lookup, UnitChanges, Replacement, UnitBefore, UnitAfter;
    if ids != [] {
      var first := UnitChanges(db, bootstrap, ids[0]);
      ApplyAppend(view, first, UnitStream(db, bootstrap, ids[1..]));
      UnitChangesView(db, bootstrap, ids[0], view, id);
      UnitStreamView(db, bootstrap, ids[1..], Apply(view, first), id);
    }
  }

  lemma AllUnitsPending(db: Database, bootstrap: bool)
    requires Valid(db)
    ensures PendingUnits(db, bootstrap, 0) == Listed(db, bootstrap)
  {
    hide Filter, Merge;
    CandidatePagePrefix(db, bootstrap, 0);
    UnionIsMerge(db.affected, db.restored);
    MergeMembers(db.affected, db.restored);
    forall id | id in Listed(db, bootstrap) ensures Beyond(IdKey, IdKey(0))(id) {
      assert id in db.bootstrap || id in db.affected || id in db.restored;
      assert Before(IdKey(0), IdKey(id));
    }
    FilterAll(Listed(db, bootstrap), Beyond(IdKey, IdKey(0)));
  }

  /** What a whole run does to any view: exactly the announced units take their target value. */
  lemma FinalView(db: Database, bootstrap: bool, view: map<nat, Unit>, id: nat)
    requires Valid(db)
    ensures Lookup(Apply(view, Reference(db, UnitPosition(bootstrap, 0))), id) ==
            if Announced(db, bootstrap, id) then UnitAfter(db, id) else Lookup(view, id)
  {
    hide Filter, SampleStream, UnitStream, Listed, PendingUnits, Lookup, Replacement, UnitBefore, UnitAfter;
    AllUnitsPending(db, bootstrap);
    var units := UnitStream(db, bootstrap, Listed(db, bootstrap));
    ApplyAppend(view, units, StreamEnd(db, bootstrap));
    if !bootstrap {
      SampleStreamKeepsView(db, 0, Apply(view, units));
    }
    UnitStreamView(db, bootstrap, Listed(db, bootstrap), view, id);
  }

  /** Equal published content: both absent, or equal content digests. */
  predicate SameContent(a: Option<Unit>, b: Option<Unit>) {
    a.Some? == b.Some? && (a.Some? ==> a.value.hash == b.value.hash)
  }

  /** The view holds the published content of the target, unit by unit. */
  ghost predicate Reaches(db: Database, view: map<nat, Unit>) {
    forall id: nat :: SameContent(Lookup(view, id), Lookup(PublishedView(db), id))
  }

  lemma UnitsOfViews(db: Database, id: nat)
    ensures Lookup(PublishedView(db), id) == UnitAfter(db, id)
    ensures Lookup(HeldView(db), id) == UnitBefore(db, id)
  {
  }

  /** For a client holding any view at all: a run of changes ends with the target's publishable
      units exactly when every unit the stream is silent about was already right. */
  lemma ChangesReachTarget(db: Database, view: map<nat, Unit>, limit: Phase -> nat)
    requires Valid(db) && forall p :: 0 < limit(p)
    requires Completes(db, Content(0))
    ensures Drain(db, Content(0), limit).Ok?
    ensures Reaches(db, Apply(view, Drain(db, Content(0), limit).value)) <==>
              forall id: nat | !Announced(db, false, id) :: SameContent(Lookup(view, id), Lookup(PublishedView(db), id))
  {
    DrainCompletes(db, Content(0), limit);
    hide Drain, Reference, Lookup, UnitAfter, Announced, Completes, PublishedView;
    var final := Apply(view, Reference(db, Content(0)));
    forall id: nat
      ensures Lookup(final, id) == if Announced(db, false, id) then UnitAfter(db, id) else Lookup(view, id)
      ensures Lookup(PublishedView(db), id) == UnitAfter(db, id)
    {
      FinalView(db, false, view, id);
      UnitsOfViews(db, id);
    }
    if forall id: nat | !Announced(db, false, id) :: SameContent(Lookup(view, id), Lookup(PublishedView(db), id)) {
      forall id: nat ensures SameContent(Lookup(final, id), Lookup(PublishedView(db), id)) {
        assert Announced(db, false, id) || SameContent(Lookup(view, id), Lookup(PublishedView(db), id));
      }
    }
  }

  /** A unit is announced exactly when a candidate query lists it and its content differs. */
  lemma AnnouncedExactly(db: Database, id: nat)
    requires Valid(db)
    ensures Announced(db, false, id) <==>
              (id in db.affected || id in db.restored) &&
              !SameContent(Lookup(HeldView(db), id), Lookup(PublishedView(db), id))
    ensures Announced(db, true, id) <==>
              id in db.bootstrap && !SameContent(Lookup(HeldView(db), id), Lookup(PublishedView(db), id))
  {
    UnitsOfViews(db, id);
    UnionIsMerge(db.affected, db.restored);
    MergeMembers(db.affected, db.restored);
    hide HeldView, PublishedView, Lookup, UnitBefore, UnitAfter, Valid;
  }

  /** A client that holds the base view without the privacy-removed units ends with the target
      exactly when the candidate queries together cover every unit that differs. */
  lemma BaseViewReachesTarget(db: Database, limit: Phase -> nat)
    requires Valid(db) && forall p :: 0 < limit(p)
    requires Completes(db, Content(0))
    ensures Drain(db, Content(0), limit).Ok?
    ensures Reaches(db, Apply(HeldView(db), Drain(db, Content(0), limit).value)) <==>
              forall id: nat | !SameContent(Lookup(HeldView(db), id), Lookup(PublishedView(db), id)) ::
                id in db.affected || id in db.restored
  {
    hide Drain, Reference, Lookup, HeldView, PublishedView, Completes, Announced;
    ChangesReachTarget(db, HeldView(db), limit);
    forall id: nat
      ensures Announced(db, false, id) <==>
              (id in db.affected || id in db.restored) &&
              !SameContent(Lookup(HeldView(db), id), Lookup(PublishedView(db), id))
    {
      AnnouncedExactly(db, id);
    }
  }

  /** A bootstrap from nothing ends with the target exactly when the bootstrap query covers it. */
  lemma BootstrapReachesTarget(db: Database, limit: Phase -> nat)
    requires Valid(db) && db.base.None? && forall p :: 0 < limit(p)
    requires Completes(db, Bootstrap(0))
    ensures Drain(db, Bootstrap(0), limit).Ok?
    ensures Reaches(db, Apply(map[], Drain(db, Bootstrap(0), limit).value)) <==>
              forall id | id in PublishedView(db) :: id in db.bootstrap
  {
    DrainCompletes(db, Bootstrap(0), limit);
    hide Drain, Reference, Completes, Announced, Lookup, PublishedView;
    var final := Apply(map[], Reference(db, Bootstrap(0)));
    forall id: nat
      ensures Lookup(final, id) == if id in db.bootstrap then Lookup(PublishedView(db), id) else None
      ensures Lookup(PublishedView(db), id).Some? <==> id in PublishedView(db)
    {
      BootstrapUnit(db, id);
    }
  }

  lemma BootstrapUnit(db: Database, id: nat)
    requires Valid(db) && db.base.None?
    ensures Lookup(Apply(map[], Reference(db, Bootstrap(0))), id) ==
            if id in db.bootstrap then Lookup(PublishedView(db), id) else None
    ensures Lookup(PublishedView(db), id).Some? <==> id in PublishedView(db)
  {
    FinalView(db, true, map[], id);
    UnitsOfViews(db, id);
    hide Reference, Apply;
  }
}
