/** The write-ahead log of captured responses, with saving, recovery and flushing interleaved
    and a crash possible between any two steps. */
module CaptureLog {
  import opened Sequences
  import opened CaptureBuffer
  import opened CaptureCover

  /** How far the handling of a staged response has come. */
  datatype Phase = Waiting | Pooled | Processed | Saved

  /** What one storage write saves, with the posts processed by then. */
  datatype Snapshot = Snapshot(seen: seq<Key>, buffer: seq<Item>, processed: set<Key>)

  datatype Saving = Saving(snapshot: Snapshot, waiters: set<nat>, stored: bool)

  datatype Flush = Idle | Sending(pace: Pace) | Posting(batch: seq<Item>, pace: Pace) | Resting(pace: Pace)

  /** The history is what was captured, admitted by the pool, processed, buffered since the last
      start, and let go: acknowledged, dropped for overflow, or refused on its own. */
  datatype World = World(
    staged: map<nat, seq<Post>>, disk: Snapshot,
    memory: Option<Memory>, handlers: map<nat, Phase>, saving: Option<Saving>, flush: Flush,
    nextSerial: nat, captured: map<nat, seq<Post>>, admitted: set<nat>, processed: set<Key>, buffered: set<Item>,
    acknowledged: set<Item>, dropped: set<Item>, refused: set<Item>)

  const INSTALLED := World(map[], Snapshot([], [], {}), None, map[], None, Idle, 0, map[], {}, {}, {}, {}, {}, {})

  datatype Event =
    | Crash
    | Start
    | Capture(key: nat, posts: seq<Post>)
    | Recover(key: nat)
    | PoolTakes(key: nat)
    | Process(key: nat, backfill: bool)
    | Clear(key: nat)
    | Leave(key: nat)
    | BeginSave
    | Store
    | SaveFails
    | SaveReturns
    | BeginFlush
    | Request
    | Respond(answer: Answer)
    | Resume

  function Gone(w: World): set<Item> { w.acknowledged + w.dropped + w.refused }

  function In(w: World, key: nat): Option<Phase> { if key in w.handlers then Some(w.handlers[key]) else None }

  function StartNext(w: World): World {
    if w.memory.Some? then w
    else
      w.(memory := Some(Memory(w.disk.seen, [], w.disk.buffer, w.nextSerial)), processed := w.disk.processed,
         buffered := Members(w.disk.buffer))
  }

  function CaptureNext(w: World, key: nat, posts: seq<Post>): World {
    if w.memory.None? || key in w.captured then w
    else w.(staged := w.staged[key := posts], captured := w.captured[key := posts],
           handlers := w.handlers[key := Waiting])
  }

  /** Recovery may still hold a listing in which a response that was cleared since is staged. */
  function RecoverNext(w: World, key: nat): World {
    if w.memory.None? || key !in w.captured || key in w.handlers then w else w.(handlers := w.handlers[key := Waiting])
  }

  function PoolNext(w: World, key: nat): World {
    if In(w, key) != Some(Waiting) || key !in w.captured || w.captured[key] == [] ||
       !(forall post | post in w.captured[key] :: post.id != "") then w
    else w.(admitted := w.admitted + {key}, handlers := w.handlers[key := Pooled])
  }

  /** Deduplication, buffering and overflow are one uninterrupted step. */
  function ProcessNext(w: World, key: nat, backfill: bool): World {
    if w.memory.None? || In(w, key) != Some(Pooled) || key !in w.captured then w
    else
      var r := Enqueue(w.memory.value, w.captured[key], backfill);
      w.(memory := Some(r.memory), nextSerial := r.memory.next, dropped := w.dropped + Members(r.dropped),
         processed := w.processed + KeysOfPosts(w.captured[key]),
         buffered := w.buffered + Members(r.memory.buffer) + Members(r.dropped),
         handlers := w.handlers[key := Processed])
  }

  function ClearNext(w: World, key: nat): World {
    if In(w, key) == Some(Saved) || (In(w, key) == Some(Waiting) && key in w.captured && w.captured[key] == []) then
      w.(staged := w.staged - {key}, handlers := w.handlers - {key})
    else w
  }

  function Waiters(w: World): set<nat> { set key | key in w.handlers && w.handlers[key].Processed? }

  /** One save at a time; a handler counts on a save that began after it processed. */
  function BeginSaveNext(w: World): World {
    if w.memory.None? || w.saving.Some? then w
    else
      w.(saving := Some(Saving(Snapshot(LastOf(w.memory.value.seen, MAX_SEEN_IDS), w.memory.value.buffer, w.processed),
                               Waiters(w), false)))
  }

  function SaveReturnsNext(w: World): World {
    if w.saving.None? || !w.saving.value.stored then w
    else
      w.(saving := None,
         handlers := map key | key in w.handlers ::
                       if key in w.saving.value.waiters && w.handlers[key].Processed? then Saved else w.handlers[key])
  }

  function RequestNext(w: World): World {
    if w.memory.None? || !w.flush.Sending? then w
    else if w.memory.value.buffer == [] then w.(flush := Idle)
    else w.(flush := Posting(Front(w.memory.value.buffer, w.flush.pace.cap), w.flush.pace))
  }

  function RespondNext(w: World, answer: Answer): World {
    if w.memory.None? || !w.flush.Posting? then w
    else
      var batch, pace := w.flush.batch, NextPace(w.flush.pace, w.flush.batch, answer);
      if answer.Refused? then w.(flush := Idle)
      else if answer.TooLarge? && |batch| > 1 then w.(flush := Sending(pace))
      else
        var left := w.memory.value.(buffer := RemoveDelivered(w.memory.value.buffer, batch));
        if answer.Accepted?
        then w.(memory := Some(left), acknowledged := w.acknowledged + Members(batch), flush := Resting(pace))
        else w.(memory := Some(left), refused := w.refused + Members(batch), flush := Resting(pace))
  }

  function Next(w: World, e: Event): World {
    match e
    case Crash => w.(memory := None, handlers := map[], saving := None, flush := Idle)
    case Start => StartNext(w)
    case Capture(key, posts) => CaptureNext(w, key, posts)
    case Recover(key) => RecoverNext(w, key)
    case PoolTakes(key) => PoolNext(w, key)
    case Process(key, backfill) => ProcessNext(w, key, backfill)
    case Clear(key) => ClearNext(w, key)
    case Leave(key) => w.(handlers := w.handlers - {key})
    case BeginSave => BeginSaveNext(w)
    case Store =>
      if w.saving.None? || w.saving.value.stored then w
      else w.(disk := w.saving.value.snapshot, saving := Some(w.saving.value.(stored := true)))
    case SaveFails => if w.saving.None? || w.saving.value.stored then w else w.(saving := None)
    case SaveReturns => SaveReturnsNext(w)
    case BeginFlush =>
      if w.memory.Some? && w.memory.value.buffer != [] && w.flush.Idle? then w.(flush := Sending(FULL)) else w
    case Request => RequestNext(w)
    case Respond(answer) => RespondNext(w, answer)
    case Resume => if w.flush.Resting? then w.(flush := Sending(w.flush.pace)) else w
  }

  function Run(w: World, events: seq<Event>): World
    decreases |events|
  {
    if events == [] then w else Run(Next(w, events[0]), events[1..])
  }

  // The invariant -------------------------------------------------------------------------------------------

  ghost predicate SnapshotCovers(s: Snapshot, gone: set<Item>, next: nat) {
    Covered(s.seen, s.buffer, s.processed, gone) && Ordered(s.buffer, next)
  }

  ghost predicate MemoryCovers(w: World) {
    match w.memory
    case None => w.saving.None? && w.handlers == map[] && w.flush.Idle?
    case Some(m) =>
      Covered(m.seen, m.buffer, w.processed, Gone(w)) && Ordered(m.buffer, m.next) && m.next == w.nextSerial &&
      w.disk.processed <= w.processed && w.buffered <= Members(m.buffer) + Gone(w)
  }

  ghost predicate SavingCovers(w: World) {
    w.saving.Some? ==>
      var s := w.saving.value;
      SnapshotCovers(s.snapshot, Gone(w), w.nextSerial) && w.disk.processed <= s.snapshot.processed <= w.processed &&
      (s.stored ==> w.disk == s.snapshot) &&
      forall key | key in s.waiters ::
        key in w.captured && KeysOfPosts(w.captured[key]) <= s.snapshot.processed && key in w.admitted
  }

  ghost predicate PhaseHolds(w: World, key: nat, phase: Phase) {
    key in w.captured &&
    (!phase.Waiting? ==> key in w.admitted && forall post | post in w.captured[key] :: post.id != "") &&
    (phase.Processed? ==> KeysOfPosts(w.captured[key]) <= w.processed) &&
    (phase.Saved? ==> KeysOfPosts(w.captured[key]) <= w.disk.processed)
  }

  ghost predicate HandlersHold(w: World) {
    forall key | key in w.handlers :: PhaseHolds(w, key, w.handlers[key])
  }

  /** A response no longer staged was admitted, and its posts are covered by what was saved. */
  ghost predicate Logged(w: World, key: nat)
    requires key in w.captured
  {
    (key in w.staged && w.staged[key] == w.captured[key]) ||
    ((w.captured[key] == [] || key in w.admitted) && KeysOfPosts(w.captured[key]) <= w.disk.processed)
  }

  ghost predicate AllLogged(w: World) { forall key | key in w.captured :: Logged(w, key) }

  ghost predicate Inv(w: World) {
    SnapshotCovers(w.disk, Gone(w), w.nextSerial) && MemoryCovers(w) && SavingCovers(w) && HandlersHold(w) &&
    AllLogged(w)
  }

  lemma InstalledHolds()
    ensures Inv(INSTALLED)
  {
  }

  /** Histories only grow, and storage is as it was. */
  ghost predicate Grows(w: World, v: World) {
    v.disk == w.disk && w.admitted <= v.admitted && w.processed <= v.processed && Gone(w) <= Gone(v) &&
    w.nextSerial <= v.nextSerial &&
    forall key | key in w.captured :: key in v.captured && v.captured[key] == w.captured[key]
  }

  lemma SnapshotLater(s: Snapshot, gone: set<Item>, more: set<Item>, next: nat, later: nat)
    requires SnapshotCovers(s, gone, next) && gone <= more && next <= later
    ensures SnapshotCovers(s, more, later)
  {
  }

  lemma StorageGrows(w: World, v: World)
    requires Grows(w, v) && v.saving == w.saving && SavingCovers(w) && SnapshotCovers(w.disk, Gone(w), w.nextSerial)
    ensures SavingCovers(v) && SnapshotCovers(v.disk, Gone(v), v.nextSerial)
  {
    SnapshotLater(w.disk, Gone(w), Gone(v), w.nextSerial, v.nextSerial);
    if w.saving.Some? {
      SnapshotLater(w.saving.value.snapshot, Gone(w), Gone(v), w.nextSerial, v.nextSerial);
    }
    hide SnapshotCovers, Gone, KeysOfPosts;
  }

  lemma PhaseGrows(w: World, v: World, key: nat, phase: Phase)
    requires Grows(w, v) && PhaseHolds(w, key, phase)
    ensures PhaseHolds(v, key, phase)
  {
    hide Gone, KeysOfPosts;
  }

  /** One handler moves to a phase that holds; the others stay or leave. */
  lemma HandlersGrow(w: World, v: World, key: nat)
    requires Grows(w, v) && HandlersHold(w)
    requires forall k | k in v.handlers && k != key :: k in w.handlers && v.handlers[k] == w.handlers[k]
    requires key in v.handlers ==> PhaseHolds(v, key, v.handlers[key])
    ensures HandlersHold(v)
  {
    hide Grows, PhaseHolds;
    forall k | k in v.handlers ensures PhaseHolds(v, k, v.handlers[k]) {
      if k != key {
        PhaseGrows(w, v, k, w.handlers[k]);
      }
    }
  }

  lemma LogGrows(w: World, v: World)
    requires Grows(w, v) && AllLogged(w)
    requires forall key | key in w.captured && key in w.staged :: key in v.staged && v.staged[key] == w.staged[key]
    ensures forall key | key in w.captured :: Logged(v, key)
  {
    hide Gone, KeysOfPosts;
    forall key | key in w.captured ensures Logged(v, key) {
      assert Logged(w, key);
    }
  }

  lemma GrowsSelf(w: World, v: World)
    requires v == w.(staged := v.staged, memory := v.memory, handlers := v.handlers, saving := v.saving,
                       flush := v.flush, buffered := v.buffered)
    ensures Grows(w, v)
  {
  }

  lemma HandlersStay(w: World, v: World)
    requires Grows(w, v) && HandlersHold(w)
    requires forall k | k in v.handlers :: k in w.handlers && v.handlers[k] == w.handlers[k]
    ensures HandlersHold(v)
  {
    hide Grows, PhaseHolds;
    forall k | k in v.handlers ensures PhaseHolds(v, k, v.handlers[k]) {
      PhaseGrows(w, v, k, w.handlers[k]);
    }
  }

  // Each step -----------------------------------------------------------------------------------------------

  lemma FlushKeeps(w: World, v: World)
    requires v == w.(flush := v.flush) && Inv(w) && (w.memory.None? ==> v.flush.Idle?)
    ensures Inv(v)
  {
    GrowsSelf(w, v);
    StorageGrows(w, v);
    HandlersStay(w, v);
    LogGrows(w, v);
    hide Grows, Covered, Ordered, Logged, SavingCovers, SnapshotCovers, HandlersHold, Members;
  }

  lemma CrashKeeps(w: World)
    requires Inv(w)
    ensures Inv(Next(w, Crash))
  {
    var v := Next(w, Crash);
    GrowsSelf(w, v);
    LogGrows(w, v);
    hide Grows, Logged, Covered, Ordered;
    assert Gone(v) == Gone(w);
  }

  lemma StartKeeps(w: World)
    requires Inv(w)
    ensures Inv(StartNext(w))
  {
    var v := StartNext(w);
    if v != w {
      hide Covered, Ordered;
      assert Gone(v) == Gone(w);
      assert forall key | key in w.captured :: Logged(v, key) == Logged(w, key);
    }
  }

  lemma LeaveKeeps(w: World, key: nat)
    requires Inv(w)
    ensures Inv(Next(w, Leave(key)))
  {
    var v := Next(w, Leave(key));
    GrowsSelf(w, v);
    StorageGrows(w, v);
    HandlersStay(w, v);
    LogGrows(w, v);
    hide Grows, Covered, Ordered, Logged, SavingCovers, SnapshotCovers, HandlersHold, Members;
    assert w.memory.None? ==> v.handlers == map[];
  }

  lemma CaptureKeeps(w: World, key: nat, posts: seq<Post>)
    requires Inv(w)
    ensures Inv(CaptureNext(w, key, posts))
  {
    var v := CaptureNext(w, key, posts);
    if v != w {
      assert Grows(w, v) by { hide Inv; }
      StorageGrows(w, v);
      HandlersGrow(w, v, key);
      assert AllLogged(v) by {
        hide SnapshotCovers, MemoryCovers, SavingCovers, HandlersHold, KeysOfPosts;
        LogGrows(w, v);
      }
      hide Grows, Covered, Ordered, SavingCovers, SnapshotCovers, HandlersHold, AllLogged, Members;
    }
  }

  lemma RecoverKeeps(w: World, key: nat)
    requires Inv(w)
    ensures Inv(RecoverNext(w, key))
  {
    var v := RecoverNext(w, key);
    if v != w {
      GrowsSelf(w, v);
      StorageGrows(w, v);
      HandlersGrow(w, v, key);
      LogGrows(w, v);
      hide Grows, Covered, Ordered, Logged, SavingCovers, SnapshotCovers, HandlersHold, Members;
    }
  }

  lemma PoolKeeps(w: World, key: nat)
    requires Inv(w)
    ensures Inv(PoolNext(w, key))
  {
    var v := PoolNext(w, key);
    if v != w {
      assert Grows(w, v) by { hide Inv; }
      StorageGrows(w, v);
      HandlersGrow(w, v, key);
      LogGrows(w, v);
      hide Grows, Covered, Ordered, Logged, SavingCovers, SnapshotCovers, HandlersHold, Members;
      assert Gone(v) == Gone(w);
    }
  }

  lemma ProcessCovers(w: World, key: nat, backfill: bool)
    requires Inv(w) && ProcessNext(w, key, backfill) != w
    ensures MemoryCovers(ProcessNext(w, key, backfill)) && Grows(w, ProcessNext(w, key, backfill))
    ensures PhaseHolds(ProcessNext(w, key, backfill), key, Processed)
  {
    var v := ProcessNext(w, key, backfill);
    assert PhaseHolds(w, key, Pooled);
    EnqueueCovers(w.memory.value, w.captured[key], backfill, w.processed, Gone(w));
    hide Covered, Ordered, Enqueue, SavingCovers, SnapshotCovers, AllLogged;
    assert Gone(v) == Gone(w) + Members(Enqueue(w.memory.value, w.captured[key], backfill).dropped);
  }

  lemma ProcessKeeps(w: World, key: nat, backfill: bool)
    requires Inv(w)
    ensures Inv(ProcessNext(w, key, backfill))
  {
    var v := ProcessNext(w, key, backfill);
    if v != w {
      ProcessCovers(w, key, backfill);
      hide Grows, MemoryCovers, SnapshotCovers, PhaseHolds, Enqueue;
      StorageGrows(w, v);
      HandlersGrow(w, v, key);
      LogGrows(w, v);
      hide HandlersHold, SavingCovers, Logged;
    }
  }

  lemma ClearKeeps(w: World, key: nat)
    requires Inv(w)
    ensures Inv(ClearNext(w, key))
  {
    var v := ClearNext(w, key);
    if v != w {
      assert PhaseHolds(w, key, w.handlers[key]);
      GrowsSelf(w, v);
      StorageGrows(w, v);
      HandlersStay(w, v);
      forall k | k in v.captured ensures Logged(v, k) {
        assert Logged(w, k);
      }
      hide Grows, Covered, Ordered, Logged, SavingCovers, SnapshotCovers, HandlersHold, Members, PhaseHolds;
    }
  }

  lemma BeginSaveKeeps(w: World)
    requires Inv(w)
    ensures Inv(BeginSaveNext(w))
  {
    var v := BeginSaveNext(w);
    if v != w {
      GrowsSelf(w, v);
      HandlersStay(w, v);
      LogGrows(w, v);
      forall key | key in Waiters(w)
        ensures key in w.captured && KeysOfPosts(w.captured[key]) <= w.processed && key in w.admitted
      {
        assert PhaseHolds(w, key, w.handlers[key]);
      }
      assert Covered(v.saving.value.snapshot.seen, v.saving.value.snapshot.buffer, w.processed, Gone(w));
      hide Grows, Covered, Ordered, Logged, HandlersHold, KeysOfPosts, Waiters;
    }
  }

  lemma StoreKeeps(w: World)
    requires Inv(w)
    ensures Inv(Next(w, Store))
  {
    var v := Next(w, Store);
    if v != w {
      assert w.disk.processed <= v.disk.processed <= v.processed;
      hide SnapshotCovers, Covered, Ordered, KeysOfPosts;
      forall key | key in v.handlers ensures PhaseHolds(v, key, v.handlers[key]) {
        assert PhaseHolds(w, key, w.handlers[key]);
      }
      forall key | key in v.captured ensures Logged(v, key) {
        assert Logged(w, key);
      }
      assert Gone(v) == Gone(w);
    }
  }

  lemma SaveFailsKeeps(w: World)
    requires Inv(w)
    ensures Inv(Next(w, SaveFails))
  {
    var v := Next(w, SaveFails);
    GrowsSelf(w, v);
    HandlersStay(w, v);
    LogGrows(w, v);
    hide Grows, Covered, Ordered, Logged, HandlersHold, Members;
    assert Gone(v) == Gone(w);
  }

  lemma SaveReturnsKeeps(w: World)
    requires Inv(w)
    ensures Inv(SaveReturnsNext(w))
  {
    var v := SaveReturnsNext(w);
    if v != w {
      GrowsSelf(w, v);
      LogGrows(w, v);
      hide Grows, Covered, Ordered, Logged, KeysOfPosts, SnapshotCovers, Members;
      forall key | key in v.handlers ensures PhaseHolds(v, key, v.handlers[key]) {
        assert PhaseHolds(w, key, w.handlers[key]);
      }
      assert Gone(v) == Gone(w);
    }
  }

  lemma RespondCovers(w: World, answer: Answer)
    requires Inv(w)
    ensures MemoryCovers(RespondNext(w, answer)) && Grows(w, RespondNext(w, answer))
  {
    var v := RespondNext(w, answer);
    hide Covered, Ordered, SavingCovers, SnapshotCovers, AllLogged, HandlersHold, RemoveDelivered;
    if v.acknowledged == w.acknowledged && v.refused == w.refused && v.memory == w.memory {
      assert Gone(v) == Gone(w);
    } else {
      var m := w.memory.value;
      DeliveryCovers(m.seen, m.buffer, m.next, w.processed, Gone(w), w.flush.batch);
      assert Gone(v) == Gone(w) + Members(w.flush.batch);
    }
  }

  lemma RespondKeeps(w: World, answer: Answer)
    requires Inv(w)
    ensures Inv(RespondNext(w, answer))
  {
    var v := RespondNext(w, answer);
    RespondCovers(w, answer);
    hide Grows, MemoryCovers, SnapshotCovers, PhaseHolds;
    StorageGrows(w, v);
    HandlersStay(w, v);
    LogGrows(w, v);
    hide HandlersHold, SavingCovers, Logged;
  }

  lemma StepKeeps(w: World, e: Event)
    requires Inv(w)
    ensures Inv(Next(w, e))
  {
    match e
    case Crash => CrashKeeps(w);
    case Start => StartKeeps(w);
    case Capture(key, posts) => CaptureKeeps(w, key, posts);
    case Recover(key) => RecoverKeeps(w, key);
    case PoolTakes(key) => PoolKeeps(w, key);
    case Process(key, backfill) => ProcessKeeps(w, key, backfill);
    case Clear(key) => ClearKeeps(w, key);
    case Leave(key) => LeaveKeeps(w, key);
    case BeginSave => BeginSaveKeeps(w);
    case Store => StoreKeeps(w);
    case SaveFails => SaveFailsKeeps(w);
    case SaveReturns => SaveReturnsKeeps(w);
    case BeginFlush => FlushKeeps(w, Next(w, e));
    case Request => FlushKeeps(w, Next(w, e));
    case Respond(answer) => RespondKeeps(w, answer);
    case Resume => FlushKeeps(w, Next(w, e));
  }

  /** Every interleaving of handlers, saves, flush requests and crashes keeps the invariant. */
  lemma {:induction false} RunKeeps(w: World, events: seq<Event>)
    requires Inv(w)
    ensures Inv(Run(w, events))
    decreases |events|
  {
    hide Inv, Next;
    if events != [] {
      StepKeeps(w, events[0]);
      RunKeeps(Next(w, events[0]), events[1..]);
    }
  }
}
