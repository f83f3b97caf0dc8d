/** When nothing fails, a captured response is processed, saved and cleared, also after a restart,
    and a flush whose requests are accepted empties the buffer. */
module CaptureProgress {
  import opened Sequences
  import opened CaptureBuffer
  import opened CaptureCover
  import opened CaptureLog

  lemma RunOne(w: World, e: Event, rest: seq<Event>)
    ensures Run(w, [e] + rest) == Run(Next(w, e), rest)
  {
    hide Next;
    assert ([e] + rest)[1..] == rest;
  }

  lemma {:induction false} RunBoth(w: World, a: seq<Event>, b: seq<Event>)
    ensures Run(w, a + b) == Run(Run(w, a), b)
    decreases |a|
  {
    hide Next;
    if a == [] {
      assert a + b == b;
    } else {
      assert (a + b)[1..] == a[1..] + b;
      RunBoth(Next(w, a[0]), a[1..], b);
    }
  }

  // Handling one response -------------------------------------------------------------------------------------

  /** The steps of one handler and of the save it waits for. */
  function Handling(key: nat, backfill: bool): seq<Event> {
    [PoolTakes(key), Process(key, backfill), BeginSave, Store, SaveReturns, Clear(key)]
  }

  function Processing(w: World, key: nat, backfill: bool): World {
    Next(Next(w, PoolTakes(key)), Process(key, backfill))
  }

  lemma HandlingIs(w: World, key: nat, backfill: bool)
    ensures Run(w, Handling(key, backfill)) ==
            Next(Next(Next(Next(Processing(w, key, backfill), BeginSave), Store), SaveReturns), Clear(key))
  {
    hide Next;
    var a := Next(w, PoolTakes(key));
    var b := Next(a, Process(key, backfill));
    var c := Next(b, BeginSave);
    var d := Next(c, Store);
    var e := Next(d, SaveReturns);
    var saving := [BeginSave] + ([Store] + ([SaveReturns] + ([Clear(key)] + [])));
    assert Handling(key, backfill) == [PoolTakes(key)] + ([Process(key, backfill)] + saving);
    RunOne(w, PoolTakes(key), [Process(key, backfill)] + saving);
    RunOne(a, Process(key, backfill), saving);
    RunOne(b, BeginSave, [Store] + ([SaveReturns] + ([Clear(key)] + [])));
    RunOne(c, Store, [SaveReturns] + ([Clear(key)] + []));
    RunOne(d, SaveReturns, [Clear(key)] + []);
    RunOne(e, Clear(key), []);
  }

  lemma ProcessingIs(w: World, key: nat, backfill: bool)
    requires w.memory.Some? && w.saving.None? && In(w, key) == Some(Waiting)
    requires key in w.captured && w.captured[key] != [] && forall post | post in w.captured[key] :: post.id != ""
    ensures var v := Processing(w, key, backfill);
            v.memory == Some(Enqueue(w.memory.value, w.captured[key], backfill).memory) && v.saving.None? &&
            In(v, key) == Some(Processed) && key in v.admitted &&
            v.processed == w.processed + KeysOfPosts(w.captured[key])
  {
    hide Enqueue, KeysOfPosts, Members;
  }

  lemma SavingIs(w: World, key: nat)
    requires w.memory.Some? && w.saving.None? && In(w, key) == Some(Processed)
    ensures var v := Next(Next(Next(Next(w, BeginSave), Store), SaveReturns), Clear(key));
            v.memory == w.memory && v.saving.None? && key !in v.staged && key !in v.handlers &&
            v.admitted == w.admitted && v.disk.processed == w.processed &&
            v.disk.buffer == w.memory.value.buffer && v.disk.seen == LastOf(w.memory.value.seen, 50_000)
  {
    hide LastOf;
  }

  /** A waiting response whose posts all have identifiers is admitted, processed, saved and cleared. */
  lemma ResponseIsHandled(w: World, key: nat, backfill: bool)
    requires w.memory.Some? && w.saving.None? && In(w, key) == Some(Waiting)
    requires key in w.captured && w.captured[key] != [] && forall post | post in w.captured[key] :: post.id != ""
    ensures var v := Run(w, Handling(key, backfill));
            key !in v.staged && key !in v.handlers && key in v.admitted && v.saving.None? && v.memory.Some? &&
            KeysOfPosts(w.captured[key]) <= v.disk.processed && v.disk.buffer == v.memory.value.buffer &&
            v.memory.value == Enqueue(w.memory.value, w.captured[key], backfill).memory &&
            v.disk.seen == LastOf(v.memory.value.seen, 50_000)
  {
    hide Run, Next, Enqueue, KeysOfPosts, LastOf, Processing;
    HandlingIs(w, key, backfill);
    ProcessingIs(w, key, backfill);
    SavingIs(Processing(w, key, backfill), key);
  }

  /** An empty response is cleared at once. */
  lemma EmptyResponseIsCleared(w: World, key: nat)
    requires w.memory.Some? && In(w, key) == Some(Waiting) && key in w.captured && w.captured[key] == []
    ensures key !in Next(w, Clear(key)).staged && key !in Next(w, Clear(key)).handlers
  {
  }

  /** A response is handled from its capture on. */
  lemma CaptureWaits(w: World, key: nat, posts: seq<Post>)
    requires w.memory.Some? && key !in w.captured
    ensures var v := Next(w, Capture(key, posts));
            key in v.staged && v.staged[key] == posts && key in v.captured && v.captured[key] == posts &&
            In(v, key) == Some(Waiting) && v.memory == w.memory && v.saving == w.saving && v.disk == w.disk
  {
  }

  /** After a crash at any point, starting again restores what was saved, and recovery has the
      staged response wait again. */
  lemma RestartRecovers(w: World, key: nat)
    requires key in w.staged && key in w.captured
    ensures var v := Next(Next(Next(w, Crash), Start), Recover(key));
            v.memory == Some(Memory(w.disk.seen, [], w.disk.buffer, w.nextSerial)) && v.saving.None? && v.flush.Idle? &&
            v.disk == w.disk && v.staged == w.staged && v.captured == w.captured && In(v, key) == Some(Waiting)
  {
    hide Members;
  }

  // Flushing ----------------------------------------------------------------------------------------------------

  /** `n` requests, each accepted. */
  function Requests(n: nat): seq<Event> {
    if n == 0 then [] else [Request, Respond(Accepted), Resume] + Requests(n - 1)
  }

  /** The state after one accepted request. */
  function Sent(w: World): World { Next(Next(Next(w, Request), Respond(Accepted)), Resume) }

  lemma ThreeSteps(w: World, n: nat)
    requires n > 0
    ensures Run(w, Requests(n)) == Run(Sent(w), Requests(n - 1))
  {
    hide Next;
    var rest := Requests(n - 1);
    assert Requests(n) == [Request] + ([Respond(Accepted)] + ([Resume] + rest));
    RunOne(w, Request, [Respond(Accepted)] + ([Resume] + rest));
    RunOne(Next(w, Request), Respond(Accepted), [Resume] + rest);
    RunOne(Next(Next(w, Request), Respond(Accepted)), Resume, rest);
  }

  /** How many posts one request at the full pace carries. */
  function RequestLength(buffer: seq<Item>): nat { if |buffer| <= 200 then |buffer| else 200 }

  lemma RequestSteps(w: World)
    requires w.memory.Some? && w.flush == Sending(FULL) && w.memory.value.buffer != []
    ensures var batch := Front(w.memory.value.buffer, 200);
            Sent(w) == w.(flush := Sending(FULL), acknowledged := w.acknowledged + Members(batch),
                          memory := Some(w.memory.value.(
                                           buffer := RemoveDelivered(w.memory.value.buffer, batch))))
  {
    hide RemoveDelivered, Members, Front;
    var posting := Next(w, Request);
    assert posting == w.(flush := Posting(Front(w.memory.value.buffer, 200), FULL));
  }

  /** One accepted request takes up to two hundred posts off the front of the buffer. */
  lemma RequestDelivers(w: World)
    requires w.memory.Some? && w.flush == Sending(FULL) && w.memory.value.buffer != [] &&
             Distinct(w.memory.value.buffer)
    ensures var buffer := w.memory.value.buffer;
            var n := RequestLength(buffer);
            Sent(w).flush == Sending(FULL) && Sent(w).memory == Some(w.memory.value.(buffer := buffer[n..])) &&
            Sent(w).acknowledged == w.acknowledged + Members(buffer[..n])
  {
    hide RemoveDelivered, Distinct, Members, Sent;
    var buffer := w.memory.value.buffer;
    assert Front(buffer, 200) == buffer[..RequestLength(buffer)];
    RemoveFront(buffer, RequestLength(buffer));
    RequestSteps(w);
  }

  lemma DistinctTail(buffer: seq<Item>, n: nat)
    requires Distinct(buffer) && n <= |buffer|
    ensures Distinct(buffer[n..])
  {
  }

  lemma MembersSplit(buffer: seq<Item>, n: nat)
    requires n <= |buffer|
    ensures Members(buffer) == Members(buffer[..n]) + Members(buffer[n..])
  {
    assert buffer == buffer[..n] + buffer[n..];
  }

  /** The flush may go on, the buffer is empty, and everything it held is acknowledged. */
  ghost predicate Delivered(w: World, v: World)
    requires w.memory.Some?
  {
    v.flush == Sending(FULL) && v.memory == Some(w.memory.value.(buffer := [])) &&
    v.acknowledged == w.acknowledged + Members(w.memory.value.buffer)
  }

  lemma NothingToDeliver(w: World)
    requires w.memory.Some? && w.flush == Sending(FULL) && w.memory.value.buffer == []
    ensures Delivered(w, Run(w, Requests(0)))
  {
    assert w.memory.value.(buffer := []) == w.memory.value;
  }

  lemma DeliveredTogether(w: World, middle: World, v: World, n: nat)
    requires w.memory.Some? && n <= |w.memory.value.buffer|
    requires middle.memory == Some(w.memory.value.(buffer := w.memory.value.buffer[n..]))
    requires middle.acknowledged == w.acknowledged + Members(w.memory.value.buffer[..n]) && Delivered(middle, v)
    ensures Delivered(w, v)
  {
    MembersSplit(w.memory.value.buffer, n);
    hide Members;
  }

  lemma {:induction false} RequestsDeliver(w: World, n: nat)
    requires w.memory.Some? && w.flush == Sending(FULL) && Distinct(w.memory.value.buffer)
    requires 200 * n - 200 < |w.memory.value.buffer| <= 200 * n
    ensures Delivered(w, Run(w, Requests(n)))
    decreases n
  {
    hide Next, Distinct, Sent, Members, Run, Requests, Delivered;
    if n == 0 {
      NothingToDeliver(w);
    } else {
      var buffer := w.memory.value.buffer;
      var m := RequestLength(buffer);
      RequestDelivers(w);
      ThreeSteps(w, n);
      DistinctTail(buffer, m);
      RequestsDeliver(Sent(w), n - 1);
      DeliveredTogether(w, Sent(w), Run(w, Requests(n)), m);
    }
  }

  /** In any state that can be reached, a flush whose requests are all accepted ends idle with an
      empty buffer, and every object that was in it is acknowledged. */
  lemma FlushEmptiesBuffer(w: World)
    requires Inv(w) && w.memory.Some? && w.flush.Idle? && w.memory.value.buffer != []
    ensures var n := (|w.memory.value.buffer| + 199) / 200;
            var v := Run(w, [BeginFlush] + (Requests(n) + [Request]));
            v.flush.Idle? && v.memory == Some(w.memory.value.(buffer := [])) &&
            v.acknowledged == w.acknowledged + Members(w.memory.value.buffer)
  {
    hide Members, Distinct, Covered, Ordered;
    OrderedIsDistinct(w.memory.value.buffer, w.memory.value.next);
    hide Inv;
    var n := (|w.memory.value.buffer| + 199) / 200;
    var started := Next(w, BeginFlush);
    RunOne(w, BeginFlush, Requests(n) + [Request]);
    RunBoth(started, Requests(n), [Request]);
    RequestsDeliver(started, n);
    var sent := Run(started, Requests(n));
    RunOne(sent, Request, []);
    assert [Request] + [] == [Request];
  }
}
