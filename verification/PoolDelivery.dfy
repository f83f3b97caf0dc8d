/** Delivery of the pool queue to the daemon, step by step: memory, storage, the flush and the
    outbox, with a crash possible between any two steps. */
module PoolDelivery {
  import opened Sequences
  import opened JsonText
  import opened HandoffSize
  import opened Observations
  import opened PoolQueue
  import opened PoolNames
  import opened PoolLedger

  datatype Effect =
    | Admission(accepted: seq<Tweet>, sampled: seq<Tweet>)
    | Sealing(dropped: nat)
    | Commitment(batch: Batch)

  /** A queue write in flight: storage may already have it, memory changes when it returns. */
  datatype Write = Write(next: Pool, effect: Effect, stored: bool)

  datatype Flush = Idle | SealingNext | Awaiting(batch: Batch) | Committing(batch: Batch)

  datatype World = World(disk: Pool, memory: Option<Pool>, writing: Option<Write>, flush: Flush,
                         sent: set<Batch>, answered: set<Batch>, outbox: map<Text, Text>, uploaded: map<Text, Text>,
                         conflicts: nat, history: History)

  const INSTALLED := World(EMPTY_POOL, None, None, Idle, {}, {}, map[], map[], 0, NOTHING_YET)

  datatype Event =
    | Crash
    | Start
    | Enqueue(tweets: seq<Tweet>)
    | BeginFlush
    | BeginSeal(now: nat, tag: Text)
    | Send
    | Deliver(batch: Batch)
    | Acknowledge
    | GiveUp
    | BeginCommit
    | Store
    | Refuse
    | Return
    | Upload(name: Text)

  function Content(batch: Batch): Text { BatchText(Map(Json, batch.tweets)) }

  function Recorded(h: History, effect: Effect): History {
    match effect
    case Admission(accepted, sampled) => AfterAdmission(h, accepted, sampled)
    case Sealing(dropped) => AfterSeal(h, dropped)
    case Commitment(batch) => AfterCommit(h, batch)
  }

  predicate HasSealed(pool: Pool) { ValidSealed(pool.sealed, |pool.queue|) }

  /** A queue write starts only after the one before it returned. */
  function Begin(w: World, next: Pool, effect: Effect): World { w.(writing := Some(Write(next, effect, false))) }

  function EnqueueNext(w: World, tweets: seq<Tweet>): World {
    if w.memory.None? || w.writing.Some? then w
    else
      var admission := Admit(w.memory.value, tweets);
      if admission.Admitted? then Begin(w, admission.next, Admission(admission.accepted, admission.sampled)) else w
  }

  function SealNext(w: World, now: nat, tag: Text): World {
    if w.memory.None? || w.writing.Some? || !w.flush.SealingNext? then w
    else if w.memory.value.sealed.Some? || w.memory.value.queue == [] || now > MAX_DATE_MS || !Uuid(tag) then w
    else
      var next := Seal(w.memory.value, now, tag);
      Begin(w, next, Sealing(if next.stats.dropped >= w.memory.value.stats.dropped
                             then next.stats.dropped - w.memory.value.stats.dropped else 0))
  }

  function SendNext(w: World): World {
    if w.memory.None? || !w.flush.SealingNext? || !HasSealed(w.memory.value) then w
    else
      var batch := SealedBatch(w.memory.value);
      w.(flush := Awaiting(batch), sent := w.sent + {batch})
  }

  function CommitNext(w: World): World {
    if w.memory.None? || w.writing.Some? || !w.flush.Committing? || !HasSealed(w.memory.value) then w
    else Begin(w, Commit(w.memory.value), Commitment(w.flush.batch))
  }

  function ReturnNext(w: World): World {
    if w.writing.None? || !w.writing.value.stored then w
    else
      var write := w.writing.value;
      w.(memory := Some(write.next), writing := None,
         flush := if !write.effect.Commitment? then w.flush
                  else if write.next.queue == [] then Idle
                  else SealingNext)
  }

  predicate Acceptable(name: Text, content: Text) {
    DaemonTakes(name) && content != [] && content[|content| - 1] == LINE_FEED
  }

  /** The daemon keeps a new file, accepts the same bytes again, and refuses other bytes. */
  function DeliverNext(w: World, batch: Batch): World {
    var name, content := NameText(batch.name), Content(batch);
    if batch !in w.sent || !Acceptable(name, content) then w
    else if name !in w.outbox then w.(outbox := w.outbox[name := content], answered := w.answered + {batch})
    else if w.outbox[name] == content then w.(answered := w.answered + {batch})
    else w.(conflicts := w.conflicts + 1)
  }

  /** The uploader stores a name once and removes the file. */
  function UploadNext(w: World, name: Text): World {
    if name !in w.outbox then w
    else
      w.(outbox := w.outbox - {name},
         uploaded := if name in w.uploaded then w.uploaded else w.uploaded[name := w.outbox[name]])
  }

  function GiveUpNext(w: World): World {
    if w.flush.Awaiting? || (w.flush.SealingNext? && w.writing.None?) then w.(flush := Idle) else w
  }

  function Next(w: World, e: Event): World {
    match e
    case Crash => w.(memory := None, writing := None, flush := Idle)
    case Start => if w.memory.None? then w.(memory := Some(Load(w.disk))) else w
    case Enqueue(tweets) => EnqueueNext(w, tweets)
    case BeginFlush =>
      if w.flush.Idle? && w.memory.Some? && w.memory.value.queue != [] then w.(flush := SealingNext) else w
    case BeginSeal(now, tag) => SealNext(w, now, tag)
    case Send => SendNext(w)
    case Deliver(batch) => DeliverNext(w, batch)
    case Acknowledge =>
      if w.flush.Awaiting? && w.flush.batch in w.answered then w.(flush := Committing(w.flush.batch)) else w
    case GiveUp => GiveUpNext(w)
    case BeginCommit => CommitNext(w)
    case Store =>
      if w.writing.None? || w.writing.value.stored then w
      else
        w.(disk := w.writing.value.next, history := Recorded(w.history, w.writing.value.effect),
           writing := Some(w.writing.value.(stored := true)))
    case Refuse =>
      if w.writing.None? || w.writing.value.stored then w
      else w.(writing := None, flush := if w.writing.value.effect.Admission? then w.flush else Idle)
    case Return => ReturnNext(w)
    case Upload(name) => UploadNext(w, name)
  }

  function Run(w: World, events: seq<Event>): World
    decreases |events|
  {
    if events == [] then w else Run(Next(w, events[0]), events[1..])
  }

  // The invariant -------------------------------------------------------------------------------------------

  predicate SameSealed(a: Pool, b: Pool) {
    a.sealed == b.sealed && (HasSealed(a) ==> HasSealed(b) && SealedBatch(a) == SealedBatch(b))
  }

  ghost predicate WriteIsSound(w: World) {
    w.writing.Some? && !w.writing.value.stored ==>
      var next, after := w.writing.value.next, Recorded(w.history, w.writing.value.effect);
      Sound(next, after) && forall b | b in HandedOver(w.disk, w.history) :: b in HandedOver(next, after)
  }

  ghost predicate MemoryAgrees(w: World) {
    match w.memory
    case None => w.writing.None? && w.flush.Idle?
    case Some(memory) =>
      if w.writing.None? then memory == w.disk
      else
        (if w.writing.value.stored then w.disk == w.writing.value.next else w.disk == memory) &&
        (w.writing.value.effect.Admission? ==> SameSealed(memory, w.writing.value.next))
  }

  ghost predicate FlushAgrees(w: World) {
    ((w.flush.Awaiting? || w.flush.Committing?) ==>
       w.memory.Some? && HasSealed(w.memory.value) && SealedBatch(w.memory.value) == w.flush.batch) &&
    (w.flush.Awaiting? ==> w.flush.batch in w.sent) &&
    (w.flush.Committing? ==> w.flush.batch in w.answered) &&
    (w.writing.Some? ==>
       match w.writing.value.effect
       case Admission(_, _) => true
       case Sealing(_) => w.flush.SealingNext? && w.memory.Some? && w.memory.value.sealed.None?
       case Commitment(batch) => w.flush == Committing(batch))
  }

  ghost predicate SentAgrees(w: World) {
    (forall b | b in w.sent :: b in HandedOver(w.disk, w.history)) &&
    (forall b | b in w.answered :: b in w.sent && b.name.stamp < FOURTEEN_DIGITS)
  }

  predicate Holds(files: map<Text, Text>, batch: Batch) {
    NameText(batch.name) in files && files[NameText(batch.name)] == Content(batch)
  }

  ghost predicate FilesOf(files: map<Text, Text>, sent: set<Batch>) {
    forall n | n in files :: exists b :: b in sent && NameText(b.name) == n && Content(b) == files[n]
  }

  ghost predicate DaemonAgrees(w: World) {
    FilesOf(w.outbox, w.sent) && FilesOf(w.uploaded, w.sent) && w.conflicts == 0 &&
    (forall b | b in w.answered :: Holds(w.outbox, b) || Holds(w.uploaded, b)) &&
    (forall b | b in w.history.committed :: b in w.answered) &&
    (w.writing.Some? && w.writing.value.effect.Commitment? ==> w.writing.value.effect.batch in w.answered)
  }

  ghost predicate Inv(w: World) {
    Sound(w.disk, w.history) && WriteIsSound(w) && MemoryAgrees(w) && FlushAgrees(w) && SentAgrees(w) && DaemonAgrees(w)
  }

  lemma InstalledHolds()
    ensures Inv(INSTALLED)
  {
    EmptyIsSound();
    hide Sound;
  }

  /** What a queue write must satisfy when it starts. */
  ghost predicate Startable(w: World, next: Pool, effect: Effect) {
    var after := Recorded(w.history, effect);
    Sound(next, after) && (forall b | b in HandedOver(w.disk, w.history) :: b in HandedOver(next, after)) &&
    match effect
    case Admission(_, _) => SameSealed(w.disk, next)
    case Sealing(_) => w.flush.SealingNext? && w.disk.sealed.None?
    case Commitment(batch) => w.flush == Committing(batch)
  }

  lemma BeginKeeps(w: World, next: Pool, effect: Effect)
    requires Inv(w) && w.memory.Some? && w.writing.None? && Startable(w, next, effect)
    ensures Inv(Begin(w, next, effect))
  {
    hide Sound, HandedOver, SealedBatch, HasSealed, SameSealed, FilesOf, Holds;
  }

  lemma EnqueueKeeps(w: World, tweets: seq<Tweet>)
    requires Inv(w)
    ensures Inv(EnqueueNext(w, tweets))
  {
    var next := EnqueueNext(w, tweets);
    if next != w {
      AdmissionIsSound(w.disk, w.history, tweets);
      AdmissionKeepsBatches(w.disk, w.history, tweets);
      var admission := Admit(w.disk, tweets);
      assert SameSealed(w.disk, admission.next) by {
        assert StampsBelow(w.disk, w.history);
        hide HandedOver, Batches, Conserved, Sampling, Prepare;
      }
      hide Inv, Sound, Admit, HandedOver, SameSealed;
      BeginKeeps(w, admission.next, Admission(admission.accepted, admission.sampled));
    }
  }

  lemma BeginSealKeeps(w: World, now: nat, tag: Text)
    requires Inv(w)
    ensures Inv(SealNext(w, now, tag))
  {
    hide Sound, Seal, HandedOver, StampsBelow, Batches, Uuid, DaemonAgrees;
    if SealNext(w, now, tag) != w {
      assert w.memory.value == w.disk;
      SealIsSound(w.disk, w.history, now, tag);
      SealHandsOver(w.disk, w.history, now, tag);
      var next := Seal(w.disk, now, tag);
      hide Inv;
      BeginKeeps(w, next, Sealing(next.stats.dropped - w.disk.stats.dropped));
    }
  }

  lemma SealHandsOver(pool: Pool, h: History, now: nat, tag: Text)
    requires Sound(pool, h) && pool.sealed.None? && pool.queue != [] && now <= MAX_DATE_MS && Uuid(tag)
    ensures var next := Seal(pool, now, tag);
            next.stats.dropped >= pool.stats.dropped &&
            forall b | b in HandedOver(pool, h) ::
              b in HandedOver(next, AfterSeal(h, next.stats.dropped - pool.stats.dropped))
  {
    SealStamps(pool, h, now, tag);
    assert HandedOver(pool, h) == h.committed;
    hide Sound, Seal, HandedOver, StampsBelow, Batches, Uuid;
  }

  lemma BeginCommitKeeps(w: World)
    requires Inv(w)
    ensures Inv(CommitNext(w))
  {
    hide Sound, HandedOver, SealedBatch, Commit, WriteIsSound, DaemonAgrees;
    if CommitNext(w) != w {
      assert w.memory.value == w.disk && w.flush.batch == SealedBatch(w.disk);
      assert SealedBatch(w.disk).name.stamp == w.disk.sealed.value.stamp by {
        SealedStamp(w.disk);
      }
      CommitIsSound(w.disk, w.history);
      hide Inv;
      BeginKeeps(w, Commit(w.disk), Commitment(w.flush.batch));
    }
  }

  lemma SealedStamp(pool: Pool)
    requires HasSealed(pool)
    ensures SealedBatch(pool).name.stamp == pool.sealed.value.stamp
  {
  }

  lemma StoreKeeps(w: World)
    requires Inv(w)
    ensures Inv(Next(w, Store)) && Inv(Next(w, Refuse))
  {
    hide Sound, HandedOver, FilesOf, Holds, SealedBatch, HasSealed, SameSealed;
  }

  lemma ReturnKeeps(w: World)
    requires Inv(w)
    ensures Inv(ReturnNext(w))
  {
    hide Sound, HandedOver, FilesOf, Holds, SealedBatch, HasSealed;
  }

  lemma FlushKeeps(w: World)
    requires Inv(w)
    ensures Inv(Next(w, BeginFlush)) && Inv(Next(w, Acknowledge)) && Inv(GiveUpNext(w))
  {
    hide Sound, HandedOver, FilesOf, Holds, SealedBatch, HasSealed, SameSealed;
  }

  lemma CrashKeeps(w: World)
    requires Inv(w)
    ensures Inv(Next(w, Crash))
  {
    hide Sound, HandedOver, FilesOf, Holds, SealedBatch, HasSealed, SameSealed, Load;
  }

  lemma StartKeeps(w: World)
    requires Inv(w)
    ensures Inv(Next(w, Start))
  {
    LoadIsExact(w.disk, w.history);
    hide Sound, HandedOver, FilesOf, Holds, SealedBatch, HasSealed, SameSealed, Load;
  }

  lemma MoreSent(files: map<Text, Text>, sent: set<Batch>, more: set<Batch>)
    requires FilesOf(files, sent) && sent <= more
    ensures FilesOf(files, more)
  {
    hide NameText, Content;
  }

  /** Handing over the sealed batch. */
  lemma SentOneMore(w: World, v: World, batch: Batch)
    requires v == w.(flush := Awaiting(batch), sent := w.sent + {batch}) && Inv(w) && w.flush.SealingNext?
    requires w.memory.Some? && HasSealed(w.memory.value) && batch == SealedBatch(w.memory.value)
    requires w.memory.value.sealed.Some?
    requires batch in HandedOver(w.disk, w.history) && FilesOf(w.outbox, v.sent) && FilesOf(w.uploaded, v.sent)
    ensures Inv(v)
  {
    hide Sound, HandedOver, FilesOf, Holds, SealedBatch, HasSealed, SameSealed;
  }

  lemma SendKeeps(w: World)
    requires Inv(w)
    ensures Inv(SendNext(w))
  {
    var next := SendNext(w);
    if next != w {
      var batch := SealedBatch(w.memory.value);
      assert batch in HandedOver(w.disk, w.history) by {
        hide Sound, WriteIsSound, SentAgrees, DaemonAgrees;
      }
      MoreSent(w.outbox, w.sent, next.sent);
      MoreSent(w.uploaded, w.sent, next.sent);
      hide Inv, HandedOver, FilesOf;
      SentOneMore(w, next, batch);
    }
  }

  /** Whatever file already has the name of a sent batch has its bytes. */
  lemma SameNameSameBytes(w: World, files: map<Text, Text>, batch: Batch)
    requires Inv(w) && batch in w.sent && FilesOf(files, w.sent) && NameText(batch.name) in files
    ensures files[NameText(batch.name)] == Content(batch)
  {
    hide Sound, HandedOver, NameText, Content, WriteIsSound, MemoryAgrees, FlushAgrees, DaemonAgrees;
    var b :| b in w.sent && NameText(b.name) == NameText(batch.name) && Content(b) == files[NameText(batch.name)];
    NameIdentifiesBatch(w.disk, w.history, b, batch);
  }

  lemma FileAdded(files: map<Text, Text>, sent: set<Batch>, batch: Batch)
    requires FilesOf(files, sent) && batch in sent
    ensures FilesOf(files[NameText(batch.name) := Content(batch)], sent)
  {
    hide NameText, Content;
  }

  /** A sent batch whose name the daemon takes has a stamp of thirteen digits. */
  lemma TakenStamp(w: World, batch: Batch)
    requires Inv(w) && batch in w.sent && DaemonTakes(NameText(batch.name))
    ensures batch.name.stamp < FOURTEEN_DIGITS
  {
    assert batch in HandedOver(w.disk, w.history);
    assert WellSealed(batch) by {
      hide HandedOver, StampsBelow, Conserved, Sampling, WriteIsSound, MemoryAgrees, FlushAgrees, DaemonAgrees;
    }
    hide Inv, Uuid, NameText, DaemonTakes;
    DaemonTakesThirteenDigits(batch.name);
  }

  lemma DeliverKeeps(w: World, batch: Batch)
    requires Inv(w)
    ensures Inv(DeliverNext(w, batch))
  {
    hide FilesOf, NameText, Content, DaemonTakes, Sound, HandedOver, WriteIsSound, MemoryAgrees;
    if batch in w.sent && Acceptable(NameText(batch.name), Content(batch)) {
      TakenStamp(w, batch);
      if NameText(batch.name) in w.outbox {
        SameNameSameBytes(w, w.outbox, batch);
      } else {
        FileAdded(w.outbox, w.sent, batch);
      }
      assert WriteIsSound(DeliverNext(w, batch)) && MemoryAgrees(DeliverNext(w, batch)) by {
        SameQueue(w, DeliverNext(w, batch));
      }
    }
  }

  /** Only the queue, its history and the flush matter to these. */
  lemma SameQueue(w: World, v: World)
    requires v.disk == w.disk && v.memory == w.memory && v.writing == w.writing && v.flush == w.flush &&
             v.history == w.history
    ensures WriteIsSound(v) == WriteIsSound(w) && MemoryAgrees(v) == MemoryAgrees(w)
  {
    hide Sound, HandedOver, SameSealed;
  }

  lemma FilesFrom(files: map<Text, Text>, more: map<Text, Text>, sent: set<Batch>)
    requires FilesOf(files, sent) && forall n | n in more :: n in files && more[n] == files[n]
    ensures FilesOf(more, sent)
  {
    hide NameText, Content;
  }

  /** Uploading keeps every file's bytes in one place or the other. */
  lemma UploadHolds(w: World, name: Text, batch: Batch)
    requires name in w.uploaded && NameText(batch.name) == name ==> w.uploaded[name] == Content(batch)
    requires Holds(w.outbox, batch) || Holds(w.uploaded, batch)
    ensures var next := UploadNext(w, name); Holds(next.outbox, batch) || Holds(next.uploaded, batch)
  {
    hide NameText, Content;
  }

  lemma UploadFiles(w: World, name: Text)
    requires Inv(w)
    ensures var next := UploadNext(w, name); FilesOf(next.outbox, w.sent) && FilesOf(next.uploaded, w.sent)
  {
    var next := UploadNext(w, name);
    hide NameText, Content, Sound, WriteIsSound, MemoryAgrees, FlushAgrees, SentAgrees;
    if name in w.outbox {
      FilesFrom(w.outbox, next.outbox, w.sent);
      var batch :| batch in w.sent && NameText(batch.name) == name && Content(batch) == w.outbox[name];
      FileAdded(w.uploaded, w.sent, batch);
    }
  }

  lemma UploadLosesNothing(w: World, name: Text)
    requires Inv(w)
    ensures DaemonAgrees(UploadNext(w, name))
  {
    UploadFiles(w, name);
    hide Sound, HandedOver, FilesOf, Holds, WriteIsSound, MemoryAgrees, FlushAgrees, NameText, Content;
    forall b | b in w.answered ensures Holds(UploadNext(w, name).outbox, b) || Holds(UploadNext(w, name).uploaded, b) {
      if name in w.uploaded && NameText(b.name) == name {
        SameNameSameBytes(w, w.uploaded, b);
      }
      UploadHolds(w, name, b);
    }
  }

  lemma OnlyFilesChange(w: World, v: World)
    requires v == w.(outbox := v.outbox, uploaded := v.uploaded)
    requires Inv(w) && DaemonAgrees(v)
    ensures Inv(v)
  {
    hide Sound, HandedOver, SameSealed, HasSealed, SealedBatch, DaemonAgrees;
  }

  lemma UploadKeeps(w: World, name: Text)
    requires Inv(w)
    ensures Inv(UploadNext(w, name))
  {
    UploadLosesNothing(w, name);
    hide Inv, DaemonAgrees;
    OnlyFilesChange(w, UploadNext(w, name));
  }

  lemma StepKeeps(w: World, e: Event)
    requires Inv(w)
    ensures Inv(Next(w, e))
  {
    hide Inv;
    match e
    case Crash => CrashKeeps(w);
    case Start => StartKeeps(w);
    case Enqueue(tweets) => EnqueueKeeps(w, tweets);
    case BeginFlush => FlushKeeps(w);
    case BeginSeal(now, tag) => BeginSealKeeps(w, now, tag);
    case Send => SendKeeps(w);
    case Deliver(batch) => DeliverKeeps(w, batch);
    case Acknowledge => FlushKeeps(w);
    case GiveUp => FlushKeeps(w);
    case BeginCommit => BeginCommitKeeps(w);
    case Store => StoreKeeps(w);
    case Refuse => StoreKeeps(w);
    case Return => ReturnKeeps(w);
    case Upload(name) => UploadKeeps(w, name);
  }

  /** Every interleaving of calls, deliveries, refused writes and crashes keeps the invariant. */
  lemma {:induction false} RunKeeps(w: World, events: seq<Event>)
    requires Inv(w)
    ensures Inv(Run(w, events))
    decreases |events|
  {
    hide Inv, Next;
    if events != [] {
      StepKeeps(w, events[0]);
      RunKeeps(Next(w, events[0]), events[1..]);
    }
  }
}
