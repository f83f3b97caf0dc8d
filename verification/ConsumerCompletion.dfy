/** Which steps of the change stream can throw, and the condition under which none does. */
module ConsumerCompletion {
  import opened Sequences
  import opened KeysetPages
  import opened ConsumerPage
  import opened ConsumerChanges
  import opened CandidatePages
  import opened ConsumerStream

  /** The unit can be read on its own. */
  predicate Readable(db: Database, id: nat) { !db.tooLarge([id]) }

  /** The unit's change, if it has one, is no larger than a page can be. */
  predicate Fits(db: Database, id: nat) {
    var change := Replacement(id, UnitBefore(db, id), UnitAfter(db, id));
    change.Some? ==> db.size(change.value) + 1 + ENVELOPE_BYTES <= HARD_PAGE_BYTES
  }

  predicate Servable(db: Database, bootstrap: bool, after: nat) {
    forall id | id in Listed(db, bootstrap) && after < id :: Readable(db, id) && Fits(db, id)
  }

  /** Every listed unit still to come can be read alone and its change fits a page, the unit of
      an activation can be read alone, and outside a bootstrap there is a base. */
  predicate Completes(db: Database, phase: Phase) {
    match phase
    case Idle => true
    case Bootstrap(after) => Servable(db, true, after)
    case Content(after) => db.base.Some? && Servable(db, false, after)
    case Activation(unit, _) => db.base.Some? && Readable(db, unit) && Servable(db, false, unit)
    case Observations(_, _) => db.base.Some?
  }

  /** A read that covers a unit is at least as large as a read of that unit. */
  ghost predicate Monotone(db: Database) {
    forall id, ids: seq<nat> | id in ids && db.tooLarge([id]) :: db.tooLarge(ids)
  }

  // Reading -------------------------------------------------------------------------------------------

  /** Halving ends at a readable batch if every unit can be read alone, and what it ends at
      holds no unit that cannot. */
  lemma {:induction false} ReadableCountExact(db: Database, ids: seq<nat>)
    ensures (forall id | id in ids :: Readable(db, id)) ==> ReadableCount(db, ids).Ok?
    ensures Monotone(db) && ReadableCount(db, ids).Ok? ==>
              forall id | id in ids[..ReadableCount(db, ids).value] :: Readable(db, id)
  {
    if ids != [] && db.tooLarge(ids) {
      if |ids| <= 1 {
        assert ids == [ids[0]] && !Readable(db, ids[0]);
      } else {
        var half := ids[..|ids| / 2];
        ReadableCountExact(db, half);
        if ReadableCount(db, half).Ok? {
          assert half[..ReadableCount(db, half).value] == ids[..ReadableCount(db, half).value];
        }
      }
    } else if ids != [] {
      assert ids[..|ids|] == ids;
    }
  }

  // Filling a page ------------------------------------------------------------------------------------

  /** The unit after which a unit phase goes on. */
  function PlaceOf(phase: Phase): nat {
    match phase
    case Bootstrap(after) => after
    case Content(after) => after
    case Activation(unit, _) => unit
    case _ => 0
  }

  function Rest(db: Database, bootstrap: bool, phase: Phase): seq<nat> {
    PendingUnits(db, bootstrap, PlaceOf(phase))
  }

  lemma PendingIs(db: Database, bootstrap: bool, after: nat)
    ensures forall id :: id in PendingUnits(db, bootstrap, after) <==> id in Listed(db, bootstrap) && after < id
  {
    hide Listed;
    forall id: nat ensures id in PendingUnits(db, bootstrap, after) <==> id in Listed(db, bootstrap) && after < id {
      assert Before(IdKey(after), IdKey(id)) <==> after < id;
    }
  }

  lemma AddFits(db: Database, page: Page, id: nat, limit: nat)
    ensures var change := Replacement(id, UnitBefore(db, id), UnitAfter(db, id));
            var added := if change.None? then Accepted(page) else Add(page, change.value, db.size(change.value), limit);
            added != Oversized <==> Fits(db, id)
  {
    hide Replacement, UnitBefore, UnitAfter;
  }

  lemma UnitPhaseIs(db: Database, bootstrap: bool, id: nat)
    ensures PlaceOf(UnitPhase(db, bootstrap, id)) == id
    ensures UnitPhase(db, bootstrap, id).Activation? || UnitPhase(db, bootstrap, id) == UnitPosition(bootstrap, id)
    ensures UnitPhase(db, bootstrap, id).Activation? ==> !bootstrap
  {
    hide NewlyVisible;
  }

  /** Walking a batch throws exactly at a change that fits no page; otherwise what it passed
      fits, and what it did not pass is still to come. */
  lemma {:induction false} FillExact(
      db: Database, bootstrap: bool, ids: seq<nat>, tail: seq<nat>, page: Page, next: Phase, limit: nat)
    requires Valid(db) && next == UnitPosition(bootstrap, PlaceOf(next)) && Rest(db, bootstrap, next) == ids + tail
    ensures var filled := Fill(db, bootstrap, ids, page, next, limit);
            ((forall id | id in ids :: Fits(db, id)) ==> filled.Ok?) &&
            (filled.Ok? ==> Leads(db, bootstrap, ids, tail, filled.value))
  {
    hide Listed, PendingUnits, Add, Fits, Replacement, UnitBefore, UnitAfter, UnitPhase, Valid;
    if ids == [] {
      assert ids + tail == tail;
    } else {
      var id := ids[0];
      AddFits(db, page, id, limit);
      UnitPhaseIs(db, bootstrap, id);
      assert (ids + tail)[0] == id && (ids + tail)[1..] == ids[1..] + tail;
      FirstUnit(db, bootstrap, PlaceOf(next));
      var change := Replacement(id, UnitBefore(db, id), UnitAfter(db, id));
      var added := if change.None? then Accepted(page) else Add(page, change.value, db.size(change.value), limit);
      if added.Accepted? && !UnitPhase(db, bootstrap, id).Activation? {
        FillExact(db, bootstrap, ids[1..], tail, added.page, UnitPhase(db, bootstrap, id), limit);
      }
    }
  }

  /** Where a page leads: every unit of the batch fits or is still to come, the rest is still
      to come, and nothing else. */
  ghost predicate Leads(db: Database, bootstrap: bool, ids: seq<nat>, tail: seq<nat>, filled: Filled) {
    var rest := Rest(db, bootstrap, filled.next);
    && (forall id | id in ids :: Fits(db, id) || id in rest)
    && (forall id | id in tail :: id in rest)
    && (forall id | id in rest :: id in tail || (id in ids && !filled.complete))
    && (filled.next == UnitPosition(bootstrap, PlaceOf(filled.next)) ||
        (filled.next.Activation? && !bootstrap && filled.next.unit in ids))
  }

  /** The condition in terms of the units still to come. */
  lemma CompletesIs(db: Database, bootstrap: bool, phase: Phase)
    requires phase == UnitPosition(bootstrap, PlaceOf(phase)) || (phase.Activation? && !bootstrap)
    ensures Completes(db, phase) <==>
              (bootstrap || db.base.Some?) && (phase.Activation? ==> Readable(db, phase.unit)) &&
              forall id | id in Rest(db, bootstrap, phase) :: Readable(db, id) && Fits(db, id)
  {
    hide Listed, PendingUnits, Readable, Fits;
    PendingIs(db, bootstrap, PlaceOf(phase));
  }

  /** No step throws while the condition holds, and steps keep it; for a monotone reader it
      held before a step if it holds after. */
  ghost predicate StepExact(db: Database, phase: Phase, step: Outcome<Step>) {
    && (Completes(db, phase) ==> step.Ok? && Completes(db, step.value.next))
    && (Monotone(db) && step.Ok? && Completes(db, step.value.next) ==> Completes(db, phase))
  }

  /** A filled page and the condition before and after it. */
  lemma PageExact(db: Database, bootstrap: bool, phase: Phase, ids: seq<nat>, tail: seq<nat>, filled: Filled)
    requires bootstrap || db.base.Some?
    requires phase == UnitPosition(bootstrap, PlaceOf(phase)) && Rest(db, bootstrap, phase) == ids + tail
    requires Leads(db, bootstrap, ids, tail, filled)
    ensures Completes(db, phase) ==> Completes(db, filled.next)
    ensures (forall id | id in ids :: Readable(db, id)) && Completes(db, filled.next) ==> Completes(db, phase)
    ensures (forall id | id in ids :: Readable(db, id)) && filled.complete && tail == [] ==> Completes(db, phase)
  {
    hide Rest, Readable, Fits, Completes;
    CompletesIs(db, bootstrap, phase);
    CompletesIs(db, bootstrap, filled.next);
    assert forall id :: id in ids + tail <==> id in ids || id in tail;
  }

  lemma AllFit(db: Database, bootstrap: bool, phase: Phase, ids: seq<nat>, tail: seq<nat>)
    requires phase == UnitPosition(bootstrap, PlaceOf(phase)) && Rest(db, bootstrap, phase) == ids + tail
    ensures Completes(db, phase) ==> forall id | id in ids :: Readable(db, id) && Fits(db, id)
  {
    hide Rest, Readable, Fits, Completes;
    CompletesIs(db, bootstrap, phase);
    assert forall id | id in ids :: id in ids + tail;
  }

  lemma ContentStepExact(db: Database, phase: Phase, limit: nat)
    requires Valid(db) && 0 < limit && (phase.Bootstrap? || phase.Content?)
    ensures StepExact(db, phase, ContentStep(db, phase, limit))
  {
    var bootstrap := phase.Bootstrap?;
    hide BootstrapCandidates, ContentCandidates, ReadableCount, Fill, Valid, Completes, Monotone, AfterUnits,
      PendingUnits, Leads, Readable, Fits;
    NeedsBase(db, phase);
    if bootstrap || db.base.Some? {
      PendingPage(db, bootstrap, phase.after);
      var page := PhaseCandidates(db, bootstrap, phase.after);
      var pending := PendingUnits(db, bootstrap, phase.after);
      ReadableCountExact(db, page.ids);
      AllFit(db, bootstrap, phase, page.ids, pending[|page.ids|..]);
      if ReadableCount(db, page.ids).Ok? {
        var count := ReadableCount(db, page.ids).value;
        var ids, tail := page.ids[..count], pending[count..];
        assert pending == ids + tail;
        FillExact(db, bootstrap, ids, tail, EMPTY_PAGE, phase, limit);
        var filled := Fill(db, bootstrap, ids, EMPTY_PAGE, phase, limit);
        if filled.Ok? {
          PageExact(db, bootstrap, phase, ids, tail, filled.value);
          AfterUnitsCompletes(db, bootstrap);
        }
      }
    }
  }

  lemma NeedsBase(db: Database, phase: Phase)
    ensures phase.Content? && db.base.None? ==> !Completes(db, phase)
  {
  }

  lemma AfterUnitsCompletes(db: Database, bootstrap: bool)
    requires bootstrap || db.base.Some?
    ensures Completes(db, AfterUnits(db, bootstrap))
  {
  }

  lemma ActivationStepExact(db: Database, unit: nat, from: Position, limit: nat)
    requires 0 < limit
    ensures StepExact(db, Activation(unit, from), ActivationStep(db, unit, from, limit))
  {
    hide Servable, UnitAfter, NewlyVisible, Filter, HistoryRows, Above, FirstPage, Monotone;
    assert ReadableCount(db, [unit]).Ok? <==> Readable(db, unit);
  }

  lemma SamplesStepExact(db: Database, offset: nat, from: Position, limit: nat)
    requires 0 < limit
    ensures StepExact(db, Observations(offset, from), SamplesStep(db, offset, from, limit))
  {
    hide ChangedSegments, SegmentBatch, BatchRows, Above, Filter, Monotone, FirstPage;
  }

  lemma AdvanceExact(db: Database, phase: Phase, limit: nat)
    requires Valid(db) && 0 < limit && !phase.Idle?
    ensures StepExact(db, phase, Advance(db, phase, limit))
  {
    hide StepExact, ContentStep, ActivationStep, SamplesStep;
    match phase
    case Bootstrap(_) => ContentStepExact(db, phase, limit);
    case Content(_) => ContentStepExact(db, phase, limit);
    case Activation(unit, from) => ActivationStepExact(db, unit, from, limit);
    case Observations(offset, from) => SamplesStepExact(db, offset, from, limit);
  }
}
