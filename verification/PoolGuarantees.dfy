/** What holds after any run of the pool queue since installation. */
module PoolGuarantees {
  import opened Sequences
  import opened HandoffSize
  import opened Observations
  import opened PoolQueue
  import opened PoolNames
  import opened PoolLedger
  import opened PoolDelivery

  /** Deliveries under one name carry identical bytes, so the daemon never sees a conflict. */
  lemma OneNameOneContent(events: seq<Event>)
    ensures var w := Run(INSTALLED, events);
            w.conflicts == 0 &&
            forall a, b | a in w.sent && b in w.sent && NameText(a.name) == NameText(b.name) ::
              a == b && Content(a) == Content(b)
  {
    InstalledHolds();
    RunKeeps(INSTALLED, events);
    var w := Run(INSTALLED, events);
    hide Sound, HandedOver, Run, NameText, Content, WriteIsSound, MemoryAgrees, FlushAgrees, FilesOf, Holds;
    forall a, b | a in w.sent && b in w.sent && NameText(a.name) == NameText(b.name) ensures a == b {
      NameIdentifiesBatch(w.disk, w.history, a, b);
    }
  }

  /** The committed batches in seal order, followed by the queue, are the admitted observations
      in order minus the oversized ones, which are counted; stamps strictly increase; and
      every committed batch is in the outbox or was uploaded. */
  lemma NothingIsLost(events: seq<Event>)
    ensures var w := Run(INSTALLED, events);
            var h := w.history;
            h.taken <= |h.admitted| && w.disk.queue == h.admitted[h.taken..] && |w.disk.queue| <= MAX_QUEUE &&
            Contents(h.committed) == Filter(h.admitted[..h.taken], Fits) &&
            w.disk.stats ==
            Stats(|Contents(h.committed)|, |h.admitted|, |h.sampled|, h.taken - |Contents(h.committed)|) &&
            Increasing(h.committed) &&
            forall b | b in h.committed :: Holds(w.outbox, b) || Holds(w.uploaded, b)
  {
    InstalledHolds();
    RunKeeps(INSTALLED, events);
    hide *;
    LedgerHolds(Run(INSTALLED, events));
  }

  lemma LedgerHolds(w: World)
    requires Inv(w)
    ensures var h := w.history;
            h.taken <= |h.admitted| && w.disk.queue == h.admitted[h.taken..] && |w.disk.queue| <= MAX_QUEUE &&
            Contents(h.committed) == Filter(h.admitted[..h.taken], Fits) &&
            w.disk.stats ==
            Stats(|Contents(h.committed)|, |h.admitted|, |h.sampled|, h.taken - |Contents(h.committed)|) &&
            Increasing(h.committed) &&
            forall b | b in h.committed :: Holds(w.outbox, b) || Holds(w.uploaded, b)
  {
    hide Sampling, WriteIsSound, MemoryAgrees, FlushAgrees, FilesOf, Holds, Filter, Contents, SentAgrees, Increasing;
    CommittedIncrease(w.disk, w.history);
  }

  lemma CommittedIncrease(pool: Pool, h: History)
    ensures Increasing(HandedOver(pool, h)) ==> Increasing(h.committed)
  {
    hide SealedBatch;
    assert h.committed <= HandedOver(pool, h);
  }

  /** Every observation sampled out repeats an admitted one: same post, same content, same
      five minutes; and the samples kept stay within their limit. */
  lemma SampledOutRepeats(events: seq<Event>)
    ensures var w := Run(INSTALLED, events);
            |w.disk.samples| <= MAX_SAMPLES &&
            forall t | t in w.history.sampled ::
              t.time.Some? &&
              exists a :: a in w.history.admitted && a.time.Some? && a.id == t.id && a.content == t.content &&
                          a.time.value / 300_000 == t.time.value / 300_000
  {
    InstalledHolds();
    RunKeeps(INSTALLED, events);
    var w := Run(INSTALLED, events);
    assert AllRepeat(w.history.sampled, w.history.admitted) by {
      hide Run, WriteIsSound, MemoryAgrees, FlushAgrees, SentAgrees, DaemonAgrees, StampsBelow, Batches, Conserved,
        AllRepeat;
    }
    hide Run, WriteIsSound, MemoryAgrees, FlushAgrees, SentAgrees, DaemonAgrees, StampsBelow, Batches, Conserved,
      Interval;
    forall t | t in w.history.sampled
      ensures exists a :: a in w.history.admitted && a.time.Some? && a.id == t.id && a.content == t.content &&
                          a.time.value / 300_000 == t.time.value / 300_000
    {
      var a :| a in w.history.admitted && a.time.Some? && a.id == t.id && Repeats(a, t.time.value, t.content);
    }
  }

  /** Every request that hands over a batch is below the daemon's limit. */
  lemma HandoffsFit(events: seq<Event>, batch: Batch)
    requires batch in Run(INSTALLED, events).sent
    ensures Utf8Length(Body(NameText(batch.name), Content(batch))) < MAX_BODY_SIZE
  {
    InstalledHolds();
    RunKeeps(INSTALLED, events);
    var w := Run(INSTALLED, events);
    assert WellSealed(batch) by {
      hide Run, Conserved, Sampling, WriteIsSound, MemoryAgrees, FlushAgrees, DaemonAgrees, HandedOver;
    }
    TotalIsBatchBytes(batch.tweets);
    hide *;
    NameOfWellSealed(batch);
    BodyFits(NameText(batch.name), Map(Json, batch.tweets));
    ContentIs(batch);
  }

  lemma ContentIs(batch: Batch)
    ensures Content(batch) == BatchText(Map(Json, batch.tweets))
  {
    hide BatchText, Map;
  }

  lemma NameOfWellSealed(batch: Batch)
    requires WellSealed(batch)
    ensures Ascii(NameText(batch.name)) && |NameText(batch.name)| <= 1000
    ensures TotalBytes(batch.tweets) <= MAX_HANDOFF_BYTES
  {
    hide Uuid, NameText, TotalBytes;
    NameIsShortAscii(batch.name);
  }

  /** A handoff cut off by a crash is repeated with the same name and content, whatever queue
      write was in flight. */
  lemma CrashRepeatsHandoff(events: seq<Event>)
    requires Run(INSTALLED, events).flush.Awaiting?
    ensures var w := Run(INSTALLED, events);
            var again := Run(w, [Crash, Start, BeginFlush, Send]);
            again.flush == w.flush && again.sent == w.sent + {w.flush.batch}
  {
    InstalledHolds();
    RunKeeps(INSTALLED, events);
    RepeatHandoff(Run(INSTALLED, events));
  }

  /** What storage holds while an answer is awaited. */
  lemma AwaitedIsStored(w: World)
    requires Inv(w) && w.flush.Awaiting?
    ensures Load(w.disk) == w.disk && w.disk.queue != [] && HasSealed(w.disk) && SealedBatch(w.disk) == w.flush.batch
  {
    LoadIsExact(w.disk, w.history);
    assert SameSealed(w.memory.value, w.disk) by {
      hide Sound, WriteIsSound, SentAgrees, DaemonAgrees;
    }
    hide Sound, WriteIsSound, SentAgrees, DaemonAgrees, Load;
  }

  lemma Restart(w: World)
    requires Load(w.disk) == w.disk && w.disk.queue != []
    ensures Next(Next(Next(w, Crash), Start), BeginFlush) ==
            w.(memory := Some(w.disk), writing := None, flush := SealingNext)
  {
    hide Load;
  }

  lemma RepeatHandoff(w: World)
    requires Inv(w) && w.flush.Awaiting?
    ensures var again := Run(w, [Crash, Start, BeginFlush, Send]);
            again.flush == w.flush && again.sent == w.sent + {w.flush.batch}
  {
    hide *;
    AwaitedIsStored(w);
    Restart(w);
    FourSteps(w, Crash, Start, BeginFlush, Send);
    SendsAgain(w);
  }

  lemma SendsAgain(w: World)
    requires HasSealed(w.disk) && w.flush.Awaiting? && SealedBatch(w.disk) == w.flush.batch
    ensures var again := Next(w.(memory := Some(w.disk), writing := None, flush := SealingNext), Send);
            again.flush == w.flush && again.sent == w.sent + {w.flush.batch}
  {
    hide HasSealed, SealedBatch;
  }

  lemma OneStep(w: World, e: Event, rest: seq<Event>)
    ensures Run(w, [e] + rest) == Run(Next(w, e), rest)
  {
    hide Next;
    assert ([e] + rest)[1..] == rest;
  }

  lemma FourSteps(w: World, a: Event, b: Event, c: Event, d: Event)
    ensures Run(w, [a, b, c, d]) == Next(Next(Next(Next(w, a), b), c), d)
  {
    hide Next;
    OneStep(w, a, [b, c, d]);
    OneStep(Next(w, a), b, [c, d]);
    OneStep(Next(Next(w, a), b), c, [d]);
    OneStep(Next(Next(Next(w, a), b), c), d, []);
    assert [a] + [b, c, d] == [a, b, c, d] && [b] + [c, d] == [b, c, d] && [c] + [d] == [c, d] && [d] + [] == [d];
  }
}
