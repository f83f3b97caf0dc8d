/** What a stored pool queue says about every observation admitted so far. */
module PoolLedger {
  import opened Sequences
  import opened JsonText
  import opened HandoffSize
  import opened Observations
  import opened ObservationSamples
  import opened PoolQueue
  import opened PoolNames

  datatype Batch = Batch(name: Name, tweets: seq<Tweet>)

  /** Everything admitted and sampled out so far, how many admitted observations left the
      queue, and the batches that were committed, oldest first. */
  datatype History = History(admitted: seq<Tweet>, sampled: seq<Tweet>, taken: nat, committed: seq<Batch>)

  const NOTHING_YET := History([], [], 0, [])

  function Contents(batches: seq<Batch>): seq<Tweet> {
    if batches == [] then [] else batches[0].tweets + Contents(batches[1..])
  }

  lemma {:induction false} ContentsAppend(batches: seq<Batch>, batch: Batch)
    ensures Contents(batches + [batch]) == Contents(batches) + batch.tweets
  {
    if batches == [] {
      assert [batch][1..] == [];
      assert batches + [batch] == [batch];
    } else {
      assert (batches + [batch])[1..] == batches[1..] + [batch];
      ContentsAppend(batches[1..], batch);
    }
  }

  /** The batch a pool has sealed. */
  function SealedBatch(pool: Pool): Batch
    requires ValidSealed(pool.sealed, |pool.queue|)
  {
    var batch := pool.sealed.value;
    Batch(Name(batch.stamp, batch.tag), pool.queue[..batch.count])
  }

  /** The batches that may have been handed over: the committed ones, then the sealed one. */
  function HandedOver(pool: Pool, h: History): seq<Batch> {
    h.committed + if ValidSealed(pool.sealed, |pool.queue|) then [SealedBatch(pool)] else []
  }

  ghost predicate Increasing(batches: seq<Batch>) {
    forall i, j | 0 <= i < j < |batches| :: batches[i].name.stamp < batches[j].name.stamp
  }

  predicate WellSealed(batch: Batch) {
    Uuid(batch.name.tag) && batch.name.stamp <= MAX_DATE_MS && batch.tweets != [] &&
    TotalBytes(batch.tweets) <= MAX_HANDOFF_BYTES
  }

  ghost predicate StampsBelow(pool: Pool, h: History) {
    (pool.sealed.Some? ==> ValidSealed(pool.sealed, |pool.queue|) && pool.sealed.value.stamp == pool.lastSealMs) &&
    (forall b | b in h.committed :: b.name.stamp <= pool.lastSealMs) &&
    pool.lastSealMs <= MAX_DATE_MS && (pool.sealed.None? ==> pool.lastSealMs < FOURTEEN_DIGITS)
  }

  ghost predicate Batches(pool: Pool, h: History) {
    Increasing(HandedOver(pool, h)) && forall b | b in HandedOver(pool, h) :: WellSealed(b)
  }

  /** The committed batches in seal order, then the queue, are the admitted observations
      in order, without the oversized ones, which are counted. */
  ghost predicate Conserved(pool: Pool, h: History) {
    h.taken <= |h.admitted| && pool.queue == h.admitted[h.taken..] && |pool.queue| <= MAX_QUEUE &&
    Contents(h.committed) == Filter(h.admitted[..h.taken], Fits) &&
    (pool.sealed.Some? && pool.sealed.value.count <= |pool.queue| ==>
       forall i | 0 <= i < pool.sealed.value.count :: Fits(pool.queue[i])) &&
    pool.stats == Stats(|Contents(h.committed)|, |h.admitted|, |h.sampled|, h.taken - |Contents(h.committed)|)
  }

  ghost predicate Sampling(pool: Pool, h: History) {
    Grounded(pool.samples, h.admitted) && AllRepeat(h.sampled, h.admitted) && |pool.samples| <= MAX_SAMPLES
  }

  ghost predicate Sound(pool: Pool, h: History) {
    StampsBelow(pool, h) && Batches(pool, h) && Conserved(pool, h) && Sampling(pool, h)
  }

  lemma EmptyIsSound()
    ensures Sound(EMPTY_POOL, NOTHING_YET)
  {
  }

  /** A restart loses nothing. */
  lemma LoadIsExact(pool: Pool, h: History)
    requires Sound(pool, h)
    ensures Load(pool) == pool
  {
    hide Batches, Conserved, Sampling;
  }

  /** Any stored state is restored but for a sealed batch that is empty or longer than the queue and
      a last stamp that is no safe integer. */
  lemma LoadRepairs(disk: Pool)
    ensures var pool := Load(disk);
            pool == disk.(sealed := pool.sealed, lastSealMs := pool.lastSealMs) &&
            (pool.sealed.Some? <==>
               disk.sealed.Some? && disk.sealed.value.count > 0 && disk.sealed.value.count <= |disk.queue|) &&
            (pool.sealed.Some? ==> pool.sealed == disk.sealed) &&
            (if disk.lastSealMs < 0x20_0000_0000_0000 then pool.lastSealMs == disk.lastSealMs
             else pool.lastSealMs == 0)
  {
  }

  // Admission, outcome by outcome ---------------------------------------------------------------------------

  /** An empty batch does nothing, one unreadable observation or more than 5000 queued ones refuse
      it whole, and otherwise what the preparation accepts joins the end of the queue. */
  lemma AdmissionExactly(pool: Pool, tweets: seq<Tweet>)
    ensures Admit(pool, tweets).Nothing? <==> tweets == []
    ensures Admit(pool, tweets).Unreadable? <==> exists t :: t in tweets && (t.id == "" || t.time.None?)
    ensures tweets != [] && (forall t | t in tweets :: t.id != "" && t.time.Some?) ==>
              Prepare(tweets, pool.samples).Some? &&
              var prepared := Prepare(tweets, pool.samples).value;
              if |pool.queue| + |prepared.accepted| > 5000 then Admit(pool, tweets).QueueFull?
              else
                Admit(pool, tweets).Admitted? && Admit(pool, tweets).accepted == prepared.accepted &&
                Admit(pool, tweets).sampled == prepared.sampled &&
                var next := Admit(pool, tweets).next;
                next.queue == pool.queue + prepared.accepted && next.samples == prepared.samples &&
                next.sealed == pool.sealed && next.lastSealMs == pool.lastSealMs &&
                next.stats.observations == pool.stats.observations + |prepared.accepted| &&
                next.stats.sampled == pool.stats.sampled + |prepared.sampled| &&
                next.stats.synced == pool.stats.synced && next.stats.dropped == pool.stats.dropped
  {
    PreparesReadable(Prepared([], pool.samples, []), tweets);
    hide PrepareAll, Retain;
  }

  function AfterAdmission(h: History, accepted: seq<Tweet>, sampled: seq<Tweet>): History {
    h.(admitted := h.admitted + accepted, sampled := h.sampled + sampled)
  }

  lemma AdmissionKeepsBatches(pool: Pool, h: History, tweets: seq<Tweet>)
    requires Sound(pool, h) && Admit(pool, tweets).Admitted?
    ensures var a := Admit(pool, tweets);
            var after := AfterAdmission(h, a.accepted, a.sampled);
            HandedOver(a.next, after) == HandedOver(pool, h) && StampsBelow(a.next, after) && Batches(a.next, after)
    ensures pool.sealed.Some? ==> SealedBatch(Admit(pool, tweets).next) == SealedBatch(pool)
  {
    hide Prepare, Conserved, Sampling, Increasing, WellSealed;
    var a := Admit(pool, tweets);
    if pool.sealed.Some? {
      assert a.next.queue[..pool.sealed.value.count] == pool.queue[..pool.sealed.value.count];
    }
  }

  lemma AdmissionConserves(pool: Pool, h: History, tweets: seq<Tweet>)
    requires Sound(pool, h) && Admit(pool, tweets).Admitted?
    ensures var a := Admit(pool, tweets); Conserved(a.next, AfterAdmission(h, a.accepted, a.sampled))
  {
    hide Prepare, Sampling, Batches, Filter, Fits;
    var a := Admit(pool, tweets);
    var after := AfterAdmission(h, a.accepted, a.sampled);
    assert after.admitted[..h.taken] == h.admitted[..h.taken];
    assert after.admitted[h.taken..] == h.admitted[h.taken..] + a.accepted;
  }

  lemma AllRepeatAppend(a: seq<Tweet>, b: seq<Tweet>, admitted: seq<Tweet>)
    requires AllRepeat(a, admitted) && AllRepeat(b, admitted)
    ensures AllRepeat(a + b, admitted)
  {
    hide Witness;
  }

  lemma AdmissionSamples(pool: Pool, h: History, tweets: seq<Tweet>)
    requires Sound(pool, h) && Admit(pool, tweets).Admitted?
    ensures var a := Admit(pool, tweets); Sampling(a.next, AfterAdmission(h, a.accepted, a.sampled))
  {
    hide PrepareAll, StampsBelow, Batches, Conserved, Grounded, AllRepeat, NewestFirst;
    var a := Admit(pool, tweets);
    PrepareGrounded(h.admitted, pool.samples, tweets);
    Grow(pool.samples, h.sampled, h.admitted, h.admitted + a.accepted);
    AllRepeatAppend(h.sampled, a.sampled, h.admitted + a.accepted);
  }

  lemma AdmissionIsSound(pool: Pool, h: History, tweets: seq<Tweet>)
    requires Sound(pool, h) && Admit(pool, tweets).Admitted?
    ensures var a := Admit(pool, tweets); Sound(a.next, AfterAdmission(h, a.accepted, a.sampled))
  {
    AdmissionKeepsBatches(pool, h, tweets);
    AdmissionConserves(pool, h, tweets);
    AdmissionSamples(pool, h, tweets);
    hide Prepare, StampsBelow, Batches, Conserved, Sampling;
  }

  // Sealing ---------------------------------------------------------------------------------------------------

  function AfterSeal(h: History, dropped: nat): History { h.(taken := h.taken + dropped) }

  /** Taking `n` more from the front of what is left. */
  lemma TakingMore(admitted: seq<Tweet>, taken: nat, n: nat)
    requires taken + n <= |admitted|
    ensures admitted[taken + n..] == admitted[taken..][n..]
    ensures Filter(admitted[..taken + n], Fits) ==
            Filter(admitted[..taken], Fits) + Filter(admitted[taken..][..n], Fits)
  {
    hide Filter, Fits;
    FilterAppend(admitted[..taken], admitted[taken..][..n], Fits);
    assert admitted[..taken + n] == admitted[..taken] + admitted[taken..][..n];
  }

  lemma NoneFit(queue: seq<Tweet>, n: nat)
    requires n <= |queue| && forall i | 0 <= i < n :: !Fits(queue[i])
    ensures Filter(queue[..n], Fits) == []
  {
    hide Fits;
    FilterNone(queue[..n], Fits);
  }

  lemma AllFit(queue: seq<Tweet>, n: nat)
    requires n <= |queue| && forall i | 0 <= i < n :: Fits(queue[i])
    ensures Filter(queue[..n], Fits) == queue[..n]
  {
    hide Fits;
    FilterAll(queue[..n], Fits);
  }

  lemma DroppingConserves(pool: Pool, next: Pool, h: History, dropped: nat)
    requires Conserved(pool, h) && dropped <= |pool.queue| && forall i | 0 <= i < dropped :: !Fits(pool.queue[i])
    requires next.queue == pool.queue[dropped..] && next.stats == pool.stats.(dropped := pool.stats.dropped + dropped)
    requires next.sealed.Some? && next.sealed.value.count <= |next.queue| ==>
               forall i | 0 <= i < next.sealed.value.count :: Fits(next.queue[i])
    ensures Conserved(next, AfterSeal(h, dropped))
  {
    hide Filter, Fits, Contents;
    TakingMore(h.admitted, h.taken, dropped);
    NoneFit(pool.queue, dropped);
  }

  lemma SealConserves(pool: Pool, h: History, now: nat, tag: Text)
    requires Sound(pool, h) && pool.sealed.None? && pool.queue != []
    ensures var next := Seal(pool, now, tag);
            next.stats.dropped >= pool.stats.dropped &&
            Conserved(next, AfterSeal(h, next.stats.dropped - pool.stats.dropped))
  {
    SealFacts(pool, now, tag);
    hide Seal, StampsBelow, Batches, Sampling, Conserved, Fits, TotalBytes;
    var next := Seal(pool, now, tag);
    DroppingConserves(pool, next, h, next.stats.dropped - pool.stats.dropped);
  }

  lemma SealStamps(pool: Pool, h: History, now: nat, tag: Text)
    requires Sound(pool, h) && pool.sealed.None? && pool.queue != [] && now <= MAX_DATE_MS && Uuid(tag)
    ensures var next := Seal(pool, now, tag);
            next.stats.dropped >= pool.stats.dropped &&
            var after := AfterSeal(h, next.stats.dropped - pool.stats.dropped);
            StampsBelow(next, after) && Batches(next, after) && h.committed <= HandedOver(next, after)
  {
    SealFacts(pool, now, tag);
    assert HandedOver(pool, h) == h.committed;
    hide Seal, Conserved, Sampling, Uuid, TotalBytes, Fits, HandedOver;
    var next := Seal(pool, now, tag);
    OneMoreBatch(pool, next, h, next.stats.dropped - pool.stats.dropped);
  }

  /** Sealing hands over one batch more, or none, under a later stamp. */
  lemma OneMoreBatch(pool: Pool, next: Pool, h: History, dropped: nat)
    requires StampsBelow(pool, h) && Batches(pool, h) && HandedOver(pool, h) == h.committed
    requires next.sealed.None? ==> next.queue == [] && next.lastSealMs == pool.lastSealMs && pool.sealed.None?
    requires next.sealed.Some? ==>
               ValidSealed(next.sealed, |next.queue|) &&
               pool.lastSealMs < next.sealed.value.stamp == next.lastSealMs <= MAX_DATE_MS &&
               WellSealed(SealedBatch(next))
    ensures var after := AfterSeal(h, dropped);
            StampsBelow(next, after) && Batches(next, after) && h.committed <= HandedOver(next, after)
  {
    hide WellSealed;
  }

  lemma SealIsSound(pool: Pool, h: History, now: nat, tag: Text)
    requires Sound(pool, h) && pool.sealed.None? && pool.queue != [] && now <= MAX_DATE_MS && Uuid(tag)
    ensures var next := Seal(pool, now, tag);
            next.stats.dropped >= pool.stats.dropped &&
            Sound(next, AfterSeal(h, next.stats.dropped - pool.stats.dropped))
  {
    SealStamps(pool, h, now, tag);
    SealConserves(pool, h, now, tag);
    SealFacts(pool, now, tag);
    hide Seal, StampsBelow, Batches, Conserved, Grounded, AllRepeat, TotalBytes;
  }

  // Committing ------------------------------------------------------------------------------------------------

  function AfterCommit(h: History, batch: Batch): History {
    h.(taken := h.taken + |batch.tweets|, committed := h.committed + [batch])
  }

  lemma CommitConserves(pool: Pool, h: History)
    requires Sound(pool, h) && pool.sealed.Some?
    ensures ValidSealed(pool.sealed, |pool.queue|) && Conserved(Commit(pool), AfterCommit(h, SealedBatch(pool)))
  {
    hide Batches, Sampling, Filter, Fits, Contents;
    var count := pool.sealed.value.count;
    ContentsAppend(h.committed, SealedBatch(pool));
    TakingMore(h.admitted, h.taken, count);
    AllFit(pool.queue, count);
  }

  /** Committing is sound when the daemon took the batch, because it takes only stamps of
      thirteen digits. */
  lemma CommitIsSound(pool: Pool, h: History)
    requires Sound(pool, h) && pool.sealed.Some? && pool.sealed.value.stamp < FOURTEEN_DIGITS
    ensures ValidSealed(pool.sealed, |pool.queue|) && Sound(Commit(pool), AfterCommit(h, SealedBatch(pool)))
    ensures HandedOver(Commit(pool), AfterCommit(h, SealedBatch(pool))) == HandedOver(pool, h)
  {
    CommitConserves(pool, h);
    hide Conserved, Grounded, AllRepeat, Increasing, WellSealed;
    var after := AfterCommit(h, SealedBatch(pool));
    assert HandedOver(Commit(pool), after) == h.committed + [SealedBatch(pool)];
  }

  // What soundness gives ------------------------------------------------------------------------------------

  /** No two batches that may have been handed over share a file name. */
  lemma NameIdentifiesBatch(pool: Pool, h: History, a: Batch, b: Batch)
    requires Sound(pool, h) && a in HandedOver(pool, h) && b in HandedOver(pool, h)
    requires NameText(a.name) == NameText(b.name)
    ensures a == b
  {
    NameTextIdentifies(a.name, b.name);
    hide Conserved, Sampling, HandedOver, NameText;
    var all := HandedOver(pool, h);
    var i :| 0 <= i < |all| && all[i] == a;
    var j :| 0 <= j < |all| && all[j] == b;
    assert i == j;
  }
}
