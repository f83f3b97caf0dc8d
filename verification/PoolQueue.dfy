/** The persistent pool queue: admission, sealing and committing of batches. */
module PoolQueue {
  import opened Sequences
  import opened JsonText
  import opened CanonicalJson
  import opened HandoffSize
  import opened Observations
  import opened Numbers

  const MAX_QUEUE := 5000
  const MAX_BATCH := 500
  /** The latest time a JavaScript date can hold. */
  const MAX_DATE_MS := 8_640_000_000_000_000

  /** The name and size of the batch that is being handed over. */
  datatype Sealed = Sealed(stamp: nat, tag: Text, count: nat)

  datatype Stats = Stats(synced: nat, observations: nat, sampled: nat, dropped: nat)

  datatype Pool = Pool(queue: seq<Tweet>, samples: Samples, sealed: Option<Sealed>, lastSealMs: nat, stats: Stats)

  const EMPTY_POOL := Pool([], [], None, 0, Stats(0, 0, 0, 0))

  function Bytes(tweet: Tweet): nat { LineBytes(tweet.json) }

  predicate Fits(tweet: Tweet) { Bytes(tweet) <= MAX_HANDOFF_BYTES }

  function Json(tweet: Tweet): Value { tweet.json }

  function TotalBytes(tweets: seq<Tweet>): nat {
    if tweets == [] then 0 else Bytes(tweets[0]) + TotalBytes(tweets[1..])
  }

  lemma {:induction false} TotalIsBatchBytes(tweets: seq<Tweet>)
    ensures TotalBytes(tweets) == BatchBytes(Map(Json, tweets))
  {
    hide LineBytes;
    if tweets != [] {
      TotalIsBatchBytes(tweets[1..]);
      assert Map(Json, tweets)[1..] == Map(Json, tweets[1..]);
    }
  }

  // Admission -----------------------------------------------------------------------------------------------

  datatype Admission =
    | Nothing
    | Unreadable
    | QueueFull
    | Admitted(next: Pool, accepted: seq<Tweet>, sampled: seq<Tweet>)

  function Admit(pool: Pool, tweets: seq<Tweet>): Admission {
    if tweets == [] then Nothing
    else
      match Prepare(tweets, pool.samples)
      case None => Unreadable
      case Some(prepared) =>
        if |pool.queue| + |prepared.accepted| > MAX_QUEUE then QueueFull
        else
          Admitted(pool.(queue := pool.queue + prepared.accepted, samples := prepared.samples,
                         stats := pool.stats.(observations := pool.stats.observations + |prepared.accepted|,
                                              sampled := pool.stats.sampled + |prepared.sampled|)),
                   prepared.accepted, prepared.sampled)
  }

  // Sealing ---------------------------------------------------------------------------------------------------

  /** How many leading observations can never fit a batch. */
  function Oversized(queue: seq<Tweet>): (n: nat)
    ensures n <= |queue|
  {
    if queue == [] || Fits(queue[0]) then 0 else 1 + Oversized(queue[1..])
  }

  /** How many more observations a batch of `count` with `bytes` takes. */
  function Fitting(queue: seq<Tweet>, count: nat, bytes: nat): (n: nat)
    ensures n <= |queue|
    decreases |queue|
  {
    if queue == [] || count >= MAX_BATCH || bytes + Bytes(queue[0]) > MAX_HANDOFF_BYTES then 0
    else 1 + Fitting(queue[1..], count + 1, bytes + Bytes(queue[0]))
  }

  function NextStamp(now: nat, lastSealMs: nat): nat {
    if now <= lastSealMs then lastSealMs + 1 else now
  }

  /** Drop what can never fit, then seal as much of the front as one batch takes. */
  function Seal(pool: Pool, now: nat, tag: Text): Pool {
    if pool.sealed.Some? || pool.queue == [] then pool
    else
      var dropped := Oversized(pool.queue);
      var queue := pool.queue[dropped..];
      var count := Fitting(queue, 0, 0);
      var stamp := NextStamp(now, pool.lastSealMs);
      pool.(queue := queue,
            sealed := if count > 0 then Some(Sealed(stamp, tag, count)) else None,
            lastSealMs := if count > 0 then stamp else pool.lastSealMs,
            stats := pool.stats.(dropped := pool.stats.dropped + dropped))
  }

  function Commit(pool: Pool): Pool
    requires pool.sealed.Some? && pool.sealed.value.count <= |pool.queue|
  {
    var count := pool.sealed.value.count;
    pool.(queue := pool.queue[count..], sealed := None,
          stats := pool.stats.(synced := pool.stats.synced + count))
  }

  predicate ValidSealed(sealed: Option<Sealed>, queueLength: nat) {
    sealed.Some? && 0 < sealed.value.count <= queueLength
  }

  /** What a restart makes of the stored pool. */
  function Load(disk: Pool): Pool {
    disk.(sealed := if ValidSealed(disk.sealed, |disk.queue|) then disk.sealed else None,
          lastSealMs := if disk.lastSealMs <= MAX_SAFE_INTEGER then disk.lastSealMs else 0)
  }

  lemma {:induction false} OversizedAreDropped(queue: seq<Tweet>)
    ensures forall i | 0 <= i < Oversized(queue) :: !Fits(queue[i])
    ensures Oversized(queue) < |queue| ==> Fits(queue[Oversized(queue)])
  {
    hide LineBytes;
    if queue != [] && !Fits(queue[0]) {
      OversizedAreDropped(queue[1..]);
    }
  }

  lemma OneMore(tweet: Tweet, rest: seq<Tweet>)
    requires Fits(tweet)
    ensures TotalBytes([tweet] + rest) == Bytes(tweet) + TotalBytes(rest)
  {
    hide LineBytes;
    assert ([tweet] + rest)[1..] == rest;
  }

  lemma FittingTakes(queue: seq<Tweet>, count: nat, bytes: nat)
    ensures 0 < Fitting(queue, count, bytes) <==>
              queue != [] && count < MAX_BATCH && bytes + Bytes(queue[0]) <= MAX_HANDOFF_BYTES
    ensures 0 < Fitting(queue, count, bytes) ==>
              Fits(queue[0]) &&
              Fitting(queue, count, bytes) == 1 + Fitting(queue[1..], count + 1, bytes + Bytes(queue[0]))
  {
    hide LineBytes;
  }

  lemma {:induction false} FittingFits(queue: seq<Tweet>, count: nat, bytes: nat)
    requires count <= MAX_BATCH
    ensures var n := Fitting(queue, count, bytes);
            count + n <= MAX_BATCH && forall i | 0 <= i < n :: Fits(queue[i])
    decreases |queue|
  {
    FittingTakes(queue, count, bytes);
    hide Fitting, Fits, Bytes;
    if Fitting(queue, count, bytes) > 0 {
      FittingFits(queue[1..], count + 1, bytes + Bytes(queue[0]));
    }
  }

  lemma {:induction false} FittingBounded(queue: seq<Tweet>, count: nat, bytes: nat)
    requires bytes <= MAX_HANDOFF_BYTES
    ensures bytes + TotalBytes(queue[..Fitting(queue, count, bytes)]) <= MAX_HANDOFF_BYTES
    decreases |queue|
  {
    hide *;
    FittingTakes(queue, count, bytes);
    var n := Fitting(queue, count, bytes);
    if n == 0 {
      assert queue[..n] == [];
      NothingWeighs();
    } else {
      var rest := queue[1..];
      FittingBounded(rest, count + 1, bytes + Bytes(queue[0]));
      OneMore(queue[0], rest[..n - 1]);
      assert queue[..n] == [queue[0]] + rest[..n - 1];
    }
  }

  /** A batch stops only at its count, at its bytes, or at the end of the queue. */
  lemma {:induction false} FittingIsMaximal(queue: seq<Tweet>, count: nat, bytes: nat)
    ensures var n := Fitting(queue, count, bytes);
            n == |queue| || count + n >= MAX_BATCH || bytes + TotalBytes(queue[..n + 1]) > MAX_HANDOFF_BYTES
    decreases |queue|
  {
    hide *;
    FittingTakes(queue, count, bytes);
    var n := Fitting(queue, count, bytes);
    if n == 0 {
      if queue != [] {
        OneWeighs(queue[0]);
        assert queue[..1] == [queue[0]];
      }
    } else {
      var rest := queue[1..];
      FittingIsMaximal(rest, count + 1, bytes + Bytes(queue[0]));
      if n < |queue| {
        OneMore(queue[0], rest[..n]);
        assert queue[..n + 1] == [queue[0]] + rest[..n];
      }
    }
  }

  lemma OneWeighs(tweet: Tweet)
    ensures TotalBytes([tweet]) == Bytes(tweet)
  {
    hide LineBytes;
    assert [tweet][1..] == [];
  }

  lemma NothingWeighs()
    ensures TotalBytes([]) == 0
  {
  }

  /** What sealing does: it drops only what can never fit, and what it seals fits and is not
      empty unless the queue is; the stamp is later than every earlier one. */
  lemma SealFacts(pool: Pool, now: nat, tag: Text)
    requires pool.sealed.None? && pool.queue != []
    ensures var next := Seal(pool, now, tag);
            var dropped := next.stats.dropped - pool.stats.dropped;
            0 <= dropped <= |pool.queue| && next.queue == pool.queue[dropped..] &&
            (forall i | 0 <= i < dropped :: !Fits(pool.queue[i])) &&
            (next.sealed.None? ==> next.queue == [] && next.lastSealMs == pool.lastSealMs) &&
            (next.sealed.Some? ==>
               var batch := next.sealed.value;
               pool.lastSealMs < batch.stamp == next.lastSealMs && now <= batch.stamp && batch.tag == tag &&
               (batch.stamp == now || batch.stamp == pool.lastSealMs + 1) &&
               0 < batch.count <= |next.queue| && batch.count <= MAX_BATCH &&
               TotalBytes(next.queue[..batch.count]) <= MAX_HANDOFF_BYTES &&
               (batch.count == |next.queue| || batch.count == 500 ||
                TotalBytes(next.queue[..batch.count + 1]) > MAX_HANDOFF_BYTES) &&
               forall i | 0 <= i < batch.count :: Fits(next.queue[i]))
    ensures var next := Seal(pool, now, tag);
            next.samples == pool.samples && next.stats == pool.stats.(dropped := next.stats.dropped)
  {
    OversizedAreDropped(pool.queue);
    FittingFits(pool.queue[Oversized(pool.queue)..], 0, 0);
    FittingBounded(pool.queue[Oversized(pool.queue)..], 0, 0);
    FittingIsMaximal(pool.queue[Oversized(pool.queue)..], 0, 0);
    FittingTakes(pool.queue[Oversized(pool.queue)..], 0, 0);
    hide TotalBytes, LineBytes, Fitting, Oversized;
  }

  /** The two loops that measure the front of the queue. */
  method PlanSeal(queue: seq<Tweet>) returns (dropped: nat, count: nat)
    ensures dropped == Oversized(queue) && count == Fitting(queue[dropped..], 0, 0)
  {
    hide LineBytes;
    dropped := 0;
    while dropped < |queue| && Bytes(queue[dropped]) > MAX_HANDOFF_BYTES
      invariant dropped <= |queue| && Oversized(queue) == dropped + Oversized(queue[dropped..])
    {
      assert queue[dropped..][1..] == queue[dropped + 1..];
      dropped := dropped + 1;
    }
    count := 0;
    var bytes: nat := 0;
    while dropped + count < |queue| && count < MAX_BATCH
      invariant dropped + count <= |queue|
      invariant Fitting(queue[dropped..], 0, 0) == count + Fitting(queue[dropped + count..], count, bytes)
    {
      var size := Bytes(queue[dropped + count]);
      if bytes + size > MAX_HANDOFF_BYTES {
        break;
      }
      assert queue[dropped + count..][1..] == queue[dropped + count + 1..];
      bytes := bytes + size;
      count := count + 1;
    }
  }

  /** The module variables, and the storage they are saved to. A queue write changes memory
      only after storage took it. */
  class PoolSync {
    var memory: Pool
    var disk: Pool

    constructor (saved: Pool)
      ensures disk == saved && memory == Load(saved)
    {
      disk := saved;
      memory := Load(saved);
    }

    method Store(next: Pool, stored: bool)
      modifies this
      ensures if stored then disk == memory == next else disk == old(disk) && memory == old(memory)
    {
      if stored {
        disk := next;
        memory := next;
      }
    }

    method Enqueue(tweets: seq<Tweet>, stored: bool) returns (ok: bool)
      modifies this
      ensures match Admit(old(memory), tweets)
              case Admitted(next, _, _) =>
                ok == stored && if stored then disk == memory == next else disk == old(disk) && memory == old(memory)
              case Nothing => ok && disk == old(disk) && memory == old(memory)
              case _ => !ok && disk == old(disk) && memory == old(memory)
    {
      if tweets == [] {
        return true;
      }
      var accepted, samples, sampled, readable := PrepareObservations(tweets, memory.samples);
      if !readable || |memory.queue| + |accepted| > MAX_QUEUE {
        return false;
      }
      Store(memory.(queue := memory.queue + accepted, samples := samples,
                    stats := memory.stats.(observations := memory.stats.observations + |accepted|,
                                           sampled := memory.stats.sampled + sampled)),
            stored);
      return stored;
    }

    method SealNext(now: nat, tag: Text, stored: bool)
      modifies this
      ensures if stored && old(memory.sealed.None? && memory.queue != []) then
                disk == memory == Seal(old(memory), now, tag)
              else disk == old(disk) && memory == old(memory)
    {
      if memory.sealed.Some? || memory.queue == [] {
        return;
      }
      var dropped, count := PlanSeal(memory.queue);
      var stamp := NextStamp(now, memory.lastSealMs);
      Store(memory.(queue := memory.queue[dropped..],
                    sealed := if count > 0 then Some(Sealed(stamp, tag, count)) else None,
                    lastSealMs := if count > 0 then stamp else memory.lastSealMs,
                    stats := memory.stats.(dropped := memory.stats.dropped + dropped)),
            stored);
    }

    method CommitSealed(stored: bool)
      requires ValidSealed(memory.sealed, |memory.queue|)
      modifies this
      ensures if stored then disk == memory == Commit(old(memory)) else disk == old(disk) && memory == old(memory)
    {
      Store(Commit(memory), stored);
    }
  }
}
