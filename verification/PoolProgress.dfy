/** The flush ends and empties the queue, when nothing is added, storage takes every write and the
    daemon answers. */
module PoolProgress {
  import opened Sequences
  import opened JsonText
  import opened CanonicalJson
  import opened HandoffSize
  import opened Observations
  import opened PoolQueue
  import opened PoolNames
  import opened PoolLedger
  import opened PoolDelivery

  // The measure ---------------------------------------------------------------------------------------------

  /** How many observations are queued, counting an admission still being written. */
  function Pending(w: World): nat {
    if w.writing.Some? && w.writing.value.effect.Admission? then |w.writing.value.next.queue|
    else if w.memory.Some? then |w.memory.value.queue| else 0
  }

  /** How far the flush still is from having committed its batch. */
  function Stage(w: World): nat {
    match w.flush
    case Idle => if Pending(w) == 0 then 0 else 12
    case SealingNext =>
      if w.writing.Some? && w.writing.value.effect.Sealing? then (if w.writing.value.stored then 8 else 9)
      else if w.memory.Some? && w.memory.value.sealed.Some? then 7
      else if Pending(w) == 0 then 1 else 11
    case Awaiting(batch) => if batch in w.answered then 5 else 6
    case Committing(_) =>
      if w.writing.Some? && w.writing.value.effect.Commitment? then (if w.writing.value.stored then 2 else 3) else 4
  }

  function Admitting(w: World): nat {
    if w.writing.Some? && w.writing.value.effect.Admission? then (if w.writing.value.stored then 1 else 2) else 0
  }

  function Measure(w: World): nat { 39 * Pending(w) + 3 * Stage(w) + Admitting(w) }

  // Steps ---------------------------------------------------------------------------------------------------

  /** Nothing is added, nothing crashes, storage refuses nothing, and the flush gives up only
      when it has nothing left to seal. */
  predicate Calm(w: World, e: Event) {
    match e
    case Crash => false
    case Start => false
    case Enqueue(_) => false
    case Refuse => false
    case GiveUp => w.flush.SealingNext? && w.memory.Some? && w.memory.value.queue == []
    case _ => true
  }

  /** A step of the flush, of a write, or of the daemon on the batch that is waited for. */
  predicate Works(w: World, e: Event) {
    && Calm(w, e) && Next(w, e) != w
    && !e.Upload?
    && (e.Deliver? ==> w.flush == Awaiting(e.batch) && e.batch !in w.answered)
  }

  lemma SealLowers(pool: Pool, now: nat, tag: Text)
    requires pool.sealed.None? && pool.queue != []
    ensures var next := Seal(pool, now, tag);
            |next.queue| <= |pool.queue| && (next.sealed.None? ==> next.queue == [])
  {
    SealFacts(pool, now, tag);
    hide Fits, TotalBytes, Seal;
  }

  lemma CommitLowers(pool: Pool)
    requires HasSealed(pool)
    ensures |Commit(pool).queue| < |pool.queue| && Commit(pool).sealed.None?
  {
  }

  ghost predicate WriteLowers(memory: Pool, next: Pool, effect: Effect) {
    match effect
    case Admission(_, _) => next.sealed == memory.sealed && |memory.queue| <= |next.queue|
    case Sealing(_) => |next.queue| <= |memory.queue| && (next.sealed.None? ==> next.queue == [])
    case Commitment(_) => |next.queue| < |memory.queue| && next.sealed.None?
  }

  /** What memory has sealed is there, and what a write in flight will make of memory. */
  ghost predicate Lowers(w: World) {
    w.memory.Some? ==>
      (w.memory.value.sealed.Some? ==> HasSealed(w.memory.value)) &&
      (w.writing.Some? ==> WriteLowers(w.memory.value, w.writing.value.next, w.writing.value.effect))
  }

  lemma AdmissionKeepsSealed(pool: Pool, tweets: seq<Tweet>)
    ensures Admit(pool, tweets).Admitted? ==>
              Admit(pool, tweets).next.sealed == pool.sealed && |pool.queue| <= |Admit(pool, tweets).next.queue|
  {
    hide Prepare;
  }

  lemma DiskSealed(w: World)
    requires Inv(w)
    ensures w.disk.sealed.Some? ==> HasSealed(w.disk)
    ensures w.memory.None? ==> w.writing.None?
    ensures w.writing.Some? && w.writing.value.stored ==> w.disk == w.writing.value.next
    ensures Load(w.disk) == w.disk
  {
    LoadIsExact(w.disk, w.history);
    hide SentAgrees, DaemonAgrees, Batches, Conserved, Sampling, FlushAgrees, WriteIsSound, Load, SameSealed;
  }

  /** Memory stays and no write begins. */
  lemma SameMemory(w: World, v: World)
    requires Lowers(w) && v.memory == w.memory
    requires v.writing.Some? ==>
               w.writing.Some? && v.writing.value.next == w.writing.value.next &&
               v.writing.value.effect == w.writing.value.effect
    ensures Lowers(v)
  {
    hide HasSealed, WriteLowers;
  }

  lemma BeginLowers(w: World, next: Pool, effect: Effect)
    requires Lowers(w) && w.memory.Some? && WriteLowers(w.memory.value, next, effect)
    ensures Lowers(Begin(w, next, effect))
  {
    hide HasSealed, WriteLowers;
  }

  lemma NewMemory(w: World, v: World)
    requires v.memory.Some? ==> v.writing.None? && (v.memory.value.sealed.Some? ==> HasSealed(v.memory.value))
    ensures Lowers(v)
  {
    hide HasSealed, WriteLowers;
  }

  lemma EnqueueLowers(w: World, tweets: seq<Tweet>)
    requires Lowers(w)
    ensures Lowers(EnqueueNext(w, tweets))
  {
    hide Lowers, Admit, HasSealed, WriteIsSound;
    if EnqueueNext(w, tweets) != w {
      AdmissionKeepsSealed(w.memory.value, tweets);
      var admission := Admit(w.memory.value, tweets);
      BeginLowers(w, admission.next, Admission(admission.accepted, admission.sampled));
    }
  }

  lemma BeginSealLowers(w: World, now: nat, tag: Text)
    requires Lowers(w)
    ensures Lowers(SealNext(w, now, tag))
  {
    hide Lowers, Seal, Uuid;
    var v := SealNext(w, now, tag);
    if v != w {
      SealLowers(w.memory.value, now, tag);
      BeginLowers(w, Seal(w.memory.value, now, tag), v.writing.value.effect);
    }
  }

  lemma BeginCommitLowers(w: World)
    requires Lowers(w)
    ensures Lowers(CommitNext(w))
  {
    hide Lowers, Commit;
    if CommitNext(w) != w {
      CommitLowers(w.memory.value);
      BeginLowers(w, Commit(w.memory.value), Commitment(w.flush.batch));
    }
  }

  lemma ReturnLowers(w: World)
    requires Inv(w) && Lowers(w)
    ensures Lowers(ReturnNext(w))
  {
    DiskSealed(w);
    hide Inv, Lowers;
    if ReturnNext(w) != w {
      NewMemory(w, ReturnNext(w));
    }
  }

  lemma StartLowers(w: World)
    requires Inv(w) && Lowers(w)
    ensures Lowers(Next(w, Start))
  {
    DiskSealed(w);
    hide Inv, Lowers, Load, HasSealed;
    if w.memory.None? {
      NewMemory(w, Next(w, Start));
    }
  }

  lemma LowersKeeps(w: World, e: Event)
    requires Inv(w) && Lowers(w)
    ensures Lowers(Next(w, e))
  {
    hide Inv, Lowers, NameText, Content, DaemonTakes, HasSealed, SealedBatch, EnqueueNext, SealNext, CommitNext,
      ReturnNext, Load;
    match e
    case Enqueue(tweets) => EnqueueLowers(w, tweets);
    case BeginSeal(now, tag) => BeginSealLowers(w, now, tag);
    case BeginCommit => BeginCommitLowers(w);
    case Return => ReturnLowers(w);
    case Start => StartLowers(w);
    case Crash => NewMemory(w, Next(w, Crash));
    case _ => SameMemory(w, Next(w, e));
  }

  /** A world that events can lead to. */
  ghost predicate Orderly(w: World) { Inv(w) && Lowers(w) }

  lemma {:induction false} RunIsOrderly(w: World, events: seq<Event>)
    requires Orderly(w)
    ensures Orderly(Run(w, events))
    decreases |events|
  {
    hide Inv, Lowers, Next;
    if events != [] {
      StepKeeps(w, events[0]);
      LowersKeeps(w, events[0]);
      RunIsOrderly(Next(w, events[0]), events[1..]);
    }
  }

  // Every working step lowers the measure ---------------------------------------------------------------------

  /** The parts of the invariant that the flush rests on. */
  ghost predicate FlushRests(w: World) {
    && w.memory.Some? && Lowers(w)
    && (w.writing.None? ==> w.memory.value == w.disk)
    && (w.flush.Awaiting? || w.flush.Committing? ==>
          HasSealed(w.memory.value) && SealedBatch(w.memory.value) == w.flush.batch)
    && (w.flush.Awaiting? ==> w.flush.batch in w.sent)
    && (w.writing.Some? && w.writing.value.effect.Sealing? ==> w.flush.SealingNext? && w.memory.value.sealed.None?)
    && (w.writing.Some? && w.writing.value.effect.Commitment? ==> w.flush.Committing?)
  }

  lemma FlushFacts(w: World)
    requires Orderly(w) && w.memory.Some?
    ensures FlushRests(w)
  {
    hide Sound, WriteIsSound, SentAgrees, DaemonAgrees, SealedBatch, Lowers;
  }

  lemma SealStep(w: World, now: nat, tag: Text)
    requires FlushRests(w)
    ensures var v := SealNext(w, now, tag);
            v.memory.Some? && (if v == w then Measure(v) == Measure(w) else Measure(v) < Measure(w))
  {
    hide Seal, Uuid, SealedBatch;
  }

  lemma WriteStep(w: World)
    requires FlushRests(w)
    ensures var v := Next(w, Store);
            v.memory.Some? && (if v == w then Measure(v) == Measure(w) else Measure(v) < Measure(w))
  {
    hide SealedBatch, HasSealed;
  }

  lemma ReturnStep(w: World)
    requires FlushRests(w)
    ensures var v := ReturnNext(w);
            v.memory.Some? && (if v == w then Measure(v) == Measure(w) else Measure(v) < Measure(w))
  {
    hide SealedBatch;
  }

  lemma BeginStep(w: World)
    requires FlushRests(w)
    ensures var v := Next(w, BeginFlush);
            v.memory.Some? && (if v == w then Measure(v) == Measure(w) else Measure(v) < Measure(w))
  {
    hide SealedBatch;
  }

  lemma SendStep(w: World)
    requires FlushRests(w)
    ensures var v := SendNext(w);
            v.memory.Some? && (if v == w then Measure(v) == Measure(w) else Measure(v) < Measure(w))
  {
    hide SealedBatch;
  }

  lemma AcknowledgeStep(w: World)
    requires FlushRests(w)
    ensures var v := Next(w, Acknowledge);
            v.memory.Some? && (if v == w then Measure(v) == Measure(w) else Measure(v) < Measure(w))
  {
    hide SealedBatch;
  }

  lemma CommitStep(w: World)
    requires FlushRests(w)
    ensures var v := CommitNext(w);
            v.memory.Some? && (if v == w then Measure(v) == Measure(w) else Measure(v) < Measure(w))
  {
    hide SealedBatch, Commit;
  }

  lemma GiveUpStep(w: World)
    requires FlushRests(w) && Calm(w, GiveUp)
    ensures var v := GiveUpNext(w);
            v.memory.Some? && (if v == w then Measure(v) == Measure(w) else Measure(v) < Measure(w))
  {
    hide SealedBatch;
  }

  lemma DaemonStep(w: World, batch: Batch)
    requires w.memory.Some? && DeliverNext(w, batch).conflicts == w.conflicts
    ensures var v := DeliverNext(w, batch);
            v.memory.Some? && Measure(v) <= Measure(w) && (Works(w, Deliver(batch)) ==> Measure(v) < Measure(w))
  {
    DeliverAnswers(w, batch);
    hide DeliverNext;
  }

  lemma DeliverAnswers(w: World, batch: Batch)
    requires DeliverNext(w, batch).conflicts == w.conflicts
    ensures var v := DeliverNext(w, batch);
            v == w.(outbox := v.outbox, answered := v.answered) &&
            v.answered == if v == w then w.answered else w.answered + {batch}
  {
    hide NameText, Content, Acceptable;
  }

  /** A calm step leaves no more to do, and less if it works. */
  lemma CalmStep(w: World, e: Event)
    requires Orderly(w) && w.memory.Some? && Calm(w, e)
    ensures Next(w, e).memory.Some? && Measure(Next(w, e)) <= Measure(w)
    ensures Works(w, e) ==> Measure(Next(w, e)) < Measure(w)
  {
    FlushFacts(w);
    match e
    case BeginFlush => BeginStep(w);
    case BeginSeal(now, tag) => SealStep(w, now, tag);
    case Send => SendStep(w);
    case Deliver(batch) =>
      NoConflict(w, batch);
      DaemonStep(w, batch);
    case Acknowledge => AcknowledgeStep(w);
    case GiveUp => GiveUpStep(w);
    case BeginCommit => CommitStep(w);
    case Store => WriteStep(w);
    case Return => ReturnStep(w);
    case Upload(name) => UploadStep(w, name);
  }

  /** Delivering never meets other bytes. */
  lemma NoConflict(w: World, batch: Batch)
    requires Inv(w)
    ensures DeliverNext(w, batch).conflicts == w.conflicts
  {
    DeliverKeeps(w, batch);
    hide Sound, HandedOver, FilesOf, Holds, DeliverNext, FlushAgrees, MemoryAgrees, WriteIsSound, SentAgrees;
  }

  lemma UploadStep(w: World, name: Text)
    requires w.memory.Some?
    ensures UploadNext(w, name).memory.Some? && Measure(UploadNext(w, name)) == Measure(w)
  {
  }

  // Runs ----------------------------------------------------------------------------------------------------

  predicate AllCalm(w: World, events: seq<Event>)
    decreases |events|
  {
    events != [] ==> Calm(w, events[0]) && AllCalm(Next(w, events[0]), events[1..])
  }

  /** How many of the events work. */
  function Working(w: World, events: seq<Event>): nat
    decreases |events|
  {
    if events == [] then 0 else (if Works(w, events[0]) then 1 else 0) + Working(Next(w, events[0]), events[1..])
  }

  /** However calm events are interleaved, only so many of them work. */
  lemma {:induction false} WorkIsBounded(w: World, events: seq<Event>)
    requires Orderly(w) && w.memory.Some? && AllCalm(w, events)
    ensures Run(w, events).memory.Some?
    ensures Working(w, events) + Measure(Run(w, events)) <= Measure(w)
    decreases |events|
  {
    hide Inv, Lowers, Next, Works, Measure, Calm;
    if events != [] {
      CalmStep(w, events[0]);
      StepKeeps(w, events[0]);
      LowersKeeps(w, events[0]);
      WorkIsBounded(Next(w, events[0]), events[1..]);
    }
  }

  // When nothing works any more -----------------------------------------------------------------------------

  predicate Drained(w: World) {
    w.flush.Idle? && w.writing.None? && w.memory.Some? && w.memory.value.queue == [] && w.disk.queue == []
  }

  /** The flush waits for a batch whose stamp the daemon does not take. */
  predicate Refused(w: World) {
    w.writing.None? && w.flush.Awaiting? && w.flush.batch !in w.answered && !ThirteenDigits(w.flush.batch.name.stamp)
  }

  predicate ThirteenDigits(stamp: nat) { Pow10(12) <= stamp < FOURTEEN_DIGITS }

  lemma {:induction false} LinesEnd(values: seq<Value>)
    requires values != []
    ensures BatchText(values) != [] && BatchText(values)[|BatchText(values)| - 1] == LINE_FEED
  {
    hide Stringify;
    if |values| > 1 {
      LinesEnd(values[1..]);
    } else {
      assert BatchText(values[1..]) == [];
    }
  }

  /** The daemon takes a batch exactly when its stamp has thirteen digits. */
  lemma TakenExactly(batch: Batch)
    requires WellSealed(batch)
    ensures Acceptable(NameText(batch.name), Content(batch)) <==> ThirteenDigits(batch.name.stamp)
  {
    hide Uuid, NameText, DaemonTakes, TotalBytes, BatchText, Pow10;
    DaemonTakesThirteenDigits(batch.name);
    LinesEnd(Map(Json, batch.tweets));
  }

  lemma AwaitedIsWellSealed(w: World)
    requires Inv(w) && w.flush.Awaiting?
    ensures WellSealed(w.flush.batch)
  {
    assert w.flush.batch in HandedOver(w.disk, w.history) by {
      hide Sound, WriteIsSound, DaemonAgrees, HandedOver;
    }
    hide HandedOver, StampsBelow, Conserved, Sampling, WriteIsSound, MemoryAgrees, FlushAgrees, SentAgrees,
      DaemonAgrees;
  }

  /** The daemon answers the batch that is waited for, unless its stamp is not of thirteen digits. */
  lemma AwaitedAnswer(w: World)
    requires Orderly(w) && w.memory.Some? && w.flush.Awaiting? && w.flush.batch !in w.answered
    ensures Works(w, Deliver(w.flush.batch)) <==> ThirteenDigits(w.flush.batch.name.stamp)
  {
    var batch := w.flush.batch;
    AwaitedWasSent(w);
    DeliveryWorks(w, batch);
    hide *;
    OrderlyIs(w);
    AwaitedIsWellSealed(w);
    TakenExactly(batch);
    NoConflict(w, batch);
    DeliverChanges(w, batch);
  }

  lemma OrderlyIs(w: World)
    requires Orderly(w)
    ensures Inv(w)
  {
  }

  lemma AwaitedWasSent(w: World)
    requires Orderly(w) && w.memory.Some? && w.flush.Awaiting?
    ensures w.flush.batch in w.sent
  {
    FlushFacts(w);
    hide Inv, Lowers, SealedBatch;
  }

  lemma DeliveryWorks(w: World, batch: Batch)
    requires w.flush == Awaiting(batch) && batch !in w.answered
    ensures Works(w, Deliver(batch)) <==> DeliverNext(w, batch) != w
  {
    hide DeliverNext;
  }

  lemma DeliverChanges(w: World, batch: Batch)
    requires batch in w.sent && batch !in w.answered && DeliverNext(w, batch).conflicts == w.conflicts
    ensures DeliverNext(w, batch) != w <==> Acceptable(NameText(batch.name), Content(batch))
  {
    hide NameText, Content, Acceptable;
    var v := DeliverNext(w, batch);
    assert v != w ==> v.answered != w.answered || v.conflicts != w.conflicts;
  }

  /** While a write is in flight, it goes on. */
  lemma WriteGoesOn(w: World)
    requires w.memory.Some? && w.writing.Some?
    ensures Works(w, Store) || Works(w, Return)
  {
  }

  lemma SealGoesOn(w: World, now: nat, tag: Text)
    requires FlushRests(w) && w.writing.None? && w.flush.SealingNext? && now <= MAX_DATE_MS && Uuid(tag)
    ensures Works(w, BeginSeal(now, tag)) || Works(w, Send) || Works(w, GiveUp)
  {
    hide Seal, Uuid, SealedBatch;
  }

  lemma CommitGoesOn(w: World)
    requires FlushRests(w) && w.writing.None? && w.flush.Committing?
    ensures Works(w, BeginCommit)
  {
    hide Commit, SealedBatch;
  }

  /** Nothing works exactly when the queue is empty and the flush idle, or the flush waits for a
      batch whose name the daemon does not take. */
  lemma NothingWorks(w: World, now: nat, tag: Text)
    requires Orderly(w) && w.memory.Some? && now <= MAX_DATE_MS && Uuid(tag)
    ensures (forall e :: !Works(w, e)) <==> Drained(w) || Refused(w)
  {
    FlushFacts(w);
    if w.writing.Some? {
      WriteGoesOn(w);
    } else {
      match w.flush
      case Idle => IdleWorks(w);
      case SealingNext => SealGoesOn(w, now, tag);
      case Awaiting(batch) => AwaitingWorks(w);
      case Committing(_) => CommitGoesOn(w);
    }
  }

  lemma IdleWorks(w: World)
    requires FlushRests(w) && w.writing.None? && w.flush.Idle?
    ensures (forall e :: !Works(w, e)) <==> Drained(w)
  {
    hide SealedBatch, HasSealed, DeliverNext, Lowers;
    if w.memory.value.queue != [] {
      assert Works(w, BeginFlush);
    }
    assert w.memory.value == w.disk;
  }

  lemma AnswerGoesOn(w: World)
    requires w.flush.Awaiting? && w.flush.batch in w.answered
    ensures Works(w, Acknowledge)
  {
  }

  lemma OnlyDelivery(w: World, e: Event)
    requires w.memory.Some? && w.writing.None? && w.flush.Awaiting? && w.flush.batch !in w.answered && Works(w, e)
    ensures e == Deliver(w.flush.batch)
  {
    hide DeliverNext, UploadNext;
  }

  lemma AwaitingWorks(w: World)
    requires Orderly(w) && w.memory.Some? && w.writing.None? && w.flush.Awaiting?
    ensures (forall e :: !Works(w, e)) <==> Refused(w)
  {
    if w.flush.batch in w.answered {
      AnswerGoesOn(w);
    } else {
      AwaitedAnswer(w);
      hide Orderly, Works, ThirteenDigits;
      forall e | Works(w, e) ensures e == Deliver(w.flush.batch) {
        OnlyDelivery(w, e);
      }
    }
  }

  /** From any point of any run, let nothing more be added, storage take every write and the
      daemon be asked: only so many steps work, and when no step works any more the queue is empty
      and every admitted observation that fits was committed, unless the flush waits for a batch
      whose stamp the daemon does not take. */
  lemma FlushEmptiesQueue(before: seq<Event>, events: seq<Event>, now: nat, tag: Text)
    requires Run(INSTALLED, before).memory.Some? && AllCalm(Run(INSTALLED, before), events)
    requires now <= MAX_DATE_MS && Uuid(tag)
    ensures var w := Run(INSTALLED, before);
            Working(w, events) <= Measure(w) &&
            ((forall e :: !Works(Run(w, events), e)) ==>
               Refused(Run(w, events)) ||
               (Drained(Run(w, events)) &&
                Contents(Run(w, events).history.committed) == Filter(Run(w, events).history.admitted, Fits)))
  {
    var w := Run(INSTALLED, before);
    var v := Run(w, events);
    InstalledHolds();
    NewMemory(INSTALLED, INSTALLED);
    hide Inv, Lowers, Works, Measure, AllCalm, Run, Contents, Filter, Uuid, Refused;
    RunIsOrderly(INSTALLED, before);
    WorkIsBounded(w, events);
    RunIsOrderly(w, events);
    NothingWorks(v, now, tag);
    if Drained(v) {
      AllCommitted(v);
    }
  }

  lemma AllCommitted(w: World)
    requires Inv(w) && w.disk.queue == []
    ensures Contents(w.history.committed) == Filter(w.history.admitted, Fits)
  {
    hide StampsBelow, Batches, Sampling, WriteIsSound, MemoryAgrees, FlushAgrees, SentAgrees, DaemonAgrees, Contents,
      Filter, Fits;
    var h := w.history;
    assert h.admitted[..h.taken] == h.admitted;
  }

  // With a clock between 2001 and 2286 ------------------------------------------------------------------------

  /** What is sealed has a stamp of thirteen digits, and there is room for the stamps to come. */
  predicate InTime(pool: Pool) {
    && (pool.sealed.Some? ==> ThirteenDigits(pool.sealed.value.stamp) && pool.lastSealMs == pool.sealed.value.stamp)
    && pool.lastSealMs + |pool.queue| < FOURTEEN_DIGITS + if pool.sealed.Some? then pool.sealed.value.count else 0
  }

  predicate Punctual(e: Event) {
    e.BeginSeal? ==> Pow10(12) <= e.now && e.now + MAX_QUEUE < FOURTEEN_DIGITS
  }

  predicate AllInTime(w: World) {
    w.memory.Some? && InTime(w.memory.value) && (w.writing.Some? ==> InTime(w.writing.value.next))
  }

  lemma SealInTime(pool: Pool, now: nat, tag: Text)
    requires InTime(pool) && pool.sealed.None? && pool.queue != [] && |pool.queue| <= MAX_QUEUE
    requires Punctual(BeginSeal(now, tag))
    ensures InTime(Seal(pool, now, tag))
  {
    SealFacts(pool, now, tag);
    hide Seal, Fits, TotalBytes, Pow10;
  }

  lemma CommitInTime(pool: Pool)
    requires InTime(pool) && HasSealed(pool)
    ensures InTime(Commit(pool))
  {
  }

  lemma QueueIsBounded(w: World)
    requires Inv(w) && w.memory.Some? && w.writing.None?
    ensures |w.memory.value.queue| <= MAX_QUEUE
  {
    hide StampsBelow, Batches, Sampling, WriteIsSound, FlushAgrees, SentAgrees, DaemonAgrees, Contents, Filter, Fits;
  }

  lemma StepInTime(w: World, e: Event)
    requires Inv(w) && AllInTime(w) && Calm(w, e) && Punctual(e)
    ensures AllInTime(Next(w, e))
  {
    hide Inv, InTime, Punctual, Seal, Commit, HasSealed, SealedBatch, NameText, Content, Acceptable, Uuid;
    match e
    case BeginSeal(now, tag) =>
      if SealNext(w, now, tag) != w {
        QueueIsBounded(w);
        SealInTime(w.memory.value, now, tag);
      }
    case BeginCommit =>
      if CommitNext(w) != w {
        CommitInTime(w.memory.value);
      }
    case _ =>
  }

  lemma {:induction false} RunInTime(w: World, events: seq<Event>)
    requires Inv(w) && AllInTime(w) && AllCalm(w, events) && forall e | e in events :: Punctual(e)
    ensures AllInTime(Run(w, events))
    decreases |events|
  {
    hide Inv, AllInTime, Punctual, Next, Calm;
    if events != [] {
      assert events[0] in events && forall e | e in events[1..] :: e in events;
      StepInTime(w, events[0]);
      StepKeeps(w, events[0]);
      RunInTime(Next(w, events[0]), events[1..]);
    }
  }

  lemma InTimeIsTaken(w: World)
    requires Orderly(w) && AllInTime(w)
    ensures !Refused(w)
  {
    FlushFacts(w);
    if w.flush.Awaiting? {
      SealedStamp(w.memory.value);
    }
    hide Inv, Lowers, SealedBatch, ThirteenDigits;
  }

  /** With stamps and clocks of thirteen digits the flush always empties the queue. */
  lemma FlushEmptiesQueueInTime(before: seq<Event>, events: seq<Event>, now: nat, tag: Text)
    requires AllInTime(Run(INSTALLED, before)) && AllCalm(Run(INSTALLED, before), events)
    requires (forall e | e in events :: Punctual(e)) && now <= MAX_DATE_MS && Uuid(tag)
    ensures var v := Run(Run(INSTALLED, before), events);
            (forall e :: !Works(v, e)) ==>
              Drained(v) && Contents(v.history.committed) == Filter(v.history.admitted, Fits)
  {
    var w := Run(INSTALLED, before);
    InstalledHolds();
    NewMemory(INSTALLED, INSTALLED);
    hide Inv, Lowers, Works, Measure, AllCalm, Run, Contents, Filter, Uuid, Refused, Punctual, InTime, Drained;
    FlushEmptiesQueue(before, events, now, tag);
    RunIsOrderly(INSTALLED, before);
    RunIsOrderly(w, events);
    RunInTime(w, events);
    InTimeIsTaken(Run(w, events));
  }
}
