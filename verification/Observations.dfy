/** Sampling of repeated observations before they enter the pool queue. */
module Observations {
  import opened Sequences
  import opened Sorting
  import opened CanonicalJson

  const SAMPLE_INTERVAL_MS := 300_000
  const MAX_SAMPLES := 50_000

  /** A captured post: its identifier, its capture time if that is a readable date, the digest
      of its content without transport fields, and the JSON that is delivered. */
  datatype Tweet = Tweet(id: string, time: Option<int>, content: string, json: Value)

  /** The last admitted sample of a post. */
  datatype Sample = Sample(id: string, time: int, content: string)

  /** Samples in the order the JavaScript map lists them, one per post. */
  type Samples = seq<Sample>

  datatype Prepared = Prepared(accepted: seq<Tweet>, samples: Samples, sampled: seq<Tweet>)

  function Interval(time: int): int { time / SAMPLE_INTERVAL_MS }

  predicate Readable(tweet: Tweet) { tweet.id != "" && tweet.time.Some? }

  function Find(samples: Samples, id: string): (r: Option<Sample>)
    ensures r.Some? ==> r.value in samples && r.value.id == id
    ensures r.None? ==> forall s | s in samples :: s.id != id
  {
    if samples == [] then None
    else if samples[0].id == id then Some(samples[0])
    else Find(samples[1..], id)
  }

  /** Setting a key keeps its place, or adds it at the end. */
  function Set(samples: Samples, sample: Sample): (r: Samples)
    ensures forall s | s in r :: s == sample || s in samples
  {
    if samples == [] then [sample]
    else if samples[0].id == sample.id then [sample] + samples[1..]
    else [samples[0]] + Set(samples[1..], sample)
  }

  /** The same post with the same content in the same interval. */
  predicate Repeats(tweet: Tweet, time: int, content: string)
    requires tweet.time.Some?
  {
    tweet.content == content && Interval(tweet.time.value) == Interval(time)
  }

  function PrepareOne(done: Prepared, tweet: Tweet): Prepared
    requires Readable(tweet)
  {
    var before := Find(done.samples, tweet.id);
    var time := tweet.time.value;
    if before.Some? && Repeats(tweet, before.value.time, before.value.content) then
      done.(sampled := done.sampled + [tweet])
    else
      Prepared(done.accepted + [tweet],
               if before.None? || time >= before.value.time
               then Set(done.samples, Sample(tweet.id, time, tweet.content)) else done.samples,
               done.sampled)
  }

  function PrepareAll(done: Prepared, tweets: seq<Tweet>): Option<Prepared>
    decreases |tweets|
  {
    if tweets == [] then Some(done)
    else if !Readable(tweets[0]) then None
    else PrepareAll(PrepareOne(done, tweets[0]), tweets[1..])
  }

  function Newer(): (Sample, Sample) -> bool { (a: Sample, b: Sample) => a.time > b.time }

  /** The stable sort, newest first. */
  function NewestFirst(s: Samples): (r: Samples)
    ensures multiset(r) == multiset(s)
  {
    SortBy(Newer(), s)
  }

  function Retain(samples: Samples): Samples {
    var sorted := NewestFirst(samples);
    if |sorted| <= MAX_SAMPLES then sorted else sorted[..MAX_SAMPLES]
  }

  /** Nothing at all if one observation is unreadable. */
  function Prepare(tweets: seq<Tweet>, previous: Samples): Option<Prepared> {
    var all := PrepareAll(Prepared([], previous, []), tweets);
    if all.None? then None else Some(all.value.(samples := Retain(all.value.samples)))
  }

  /** The preparation loop. It counts what it samples out. */
  method PrepareObservations(tweets: seq<Tweet>, previous: Samples)
    returns (accepted: seq<Tweet>, kept: Samples, sampled: nat, ok: bool)
    ensures match Prepare(tweets, previous)
            case None => !ok
            case Some(prepared) =>
              ok && accepted == prepared.accepted && kept == prepared.samples && sampled == |prepared.sampled|
  {
    var samples := previous;
    accepted, sampled := [], 0;
    ghost var out: seq<Tweet> := [];
    for i := 0 to |tweets|
      invariant sampled == |out|
      invariant PrepareAll(Prepared([], previous, []), tweets) ==
                PrepareAll(Prepared(accepted, samples, out), tweets[i..])
    {
      var tweet := tweets[i];
      if !Readable(tweet) {
        return [], [], 0, false;
      }
      var time := tweet.time.value;
      var before := Find(samples, tweet.id);
      if before.Some? && Repeats(tweet, before.value.time, before.value.content) {
        sampled := sampled + 1;
        out := out + [tweet];
      } else {
        accepted := accepted + [tweet];
        if before.None? || time >= before.value.time {
          samples := Set(samples, Sample(tweet.id, time, tweet.content));
        }
      }
      assert tweets[i..][1..] == tweets[i + 1..];
    }
    return accepted, Retain(samples), sampled, true;
  }

  // What sampling out rests on ----------------------------------------------------------------------------

  /** An admitted observation that `tweet` repeats. */
  ghost predicate Witness(admitted: seq<Tweet>, id: string, time: int, content: string) {
    exists a :: a in admitted && a.time.Some? && a.id == id && Repeats(a, time, content)
  }

  ghost predicate Grounded(samples: Samples, admitted: seq<Tweet>) {
    forall s | s in samples :: Witness(admitted, s.id, s.time, s.content)
  }

  ghost predicate AllRepeat(sampled: seq<Tweet>, admitted: seq<Tweet>) {
    forall t | t in sampled :: t.time.Some? && Witness(admitted, t.id, t.time.value, t.content)
  }

  lemma WitnessGrows(a: seq<Tweet>, b: seq<Tweet>, id: string, time: int, content: string)
    requires Witness(a, id, time, content) && a <= b
    ensures Witness(b, id, time, content)
  {
    var w :| w in a && w.time.Some? && w.id == id && Repeats(w, time, content);
    assert w in b;
  }

  lemma Grow(samples: Samples, sampled: seq<Tweet>, a: seq<Tweet>, b: seq<Tweet>)
    requires Grounded(samples, a) && AllRepeat(sampled, a) && a <= b
    ensures Grounded(samples, b) && AllRepeat(sampled, b)
  {
    forall s | s in samples ensures Witness(b, s.id, s.time, s.content) {
      WitnessGrows(a, b, s.id, s.time, s.content);
    }
    forall t | t in sampled ensures Witness(b, t.id, t.time.value, t.content) {
      WitnessGrows(a, b, t.id, t.time.value, t.content);
    }
  }

  lemma PrepareOneGrounded(admitted: seq<Tweet>, done: Prepared, tweet: Tweet)
    requires Readable(tweet)
    requires Grounded(done.samples, admitted + done.accepted) && AllRepeat(done.sampled, admitted + done.accepted)
    ensures var next := PrepareOne(done, tweet);
            Grounded(next.samples, admitted + next.accepted) && AllRepeat(next.sampled, admitted + next.accepted)
  {
    var next := PrepareOne(done, tweet);
    var before := Find(done.samples, tweet.id);
    var all, more := admitted + done.accepted, admitted + next.accepted;
    assert all <= more;
    Grow(done.samples, done.sampled, all, more);
    if next.accepted == done.accepted {
      assert Witness(more, tweet.id, before.value.time, before.value.content);
    } else {
      assert more == all + [tweet] && tweet in more;
      assert Repeats(tweet, tweet.time.value, tweet.content);
      assert Witness(more, tweet.id, tweet.time.value, tweet.content);
    }
  }

  lemma {:induction false} PrepareAllGrounded(admitted: seq<Tweet>, done: Prepared, tweets: seq<Tweet>)
    requires PrepareAll(done, tweets).Some?
    requires Grounded(done.samples, admitted + done.accepted) && AllRepeat(done.sampled, admitted + done.accepted)
    ensures var all := PrepareAll(done, tweets).value;
            Grounded(all.samples, admitted + all.accepted) && AllRepeat(all.sampled, admitted + all.accepted)
    decreases |tweets|
  {
    hide Grounded, AllRepeat;
    if tweets != [] {
      PrepareOneGrounded(admitted, done, tweets[0]);
      PrepareAllGrounded(admitted, PrepareOne(done, tweets[0]), tweets[1..]);
    }
  }

  /** If every kept sample comes from an admitted observation, then each observation a
      preparation samples out repeats one that is admitted, before or with it. */
  lemma PrepareGrounded(admitted: seq<Tweet>, previous: Samples, tweets: seq<Tweet>)
    requires Grounded(previous, admitted) && Prepare(tweets, previous).Some?
    ensures var prepared := Prepare(tweets, previous).value;
            Grounded(prepared.samples, admitted + prepared.accepted) &&
            AllRepeat(prepared.sampled, admitted + prepared.accepted)
  {
    assert admitted + [] == admitted;
    PrepareAllGrounded(admitted, Prepared([], previous, []), tweets);
    var all := PrepareAll(Prepared([], previous, []), tweets).value;
    forall s | s in Retain(all.samples) ensures s in all.samples {
      assert s in NewestFirst(all.samples);
      assert s in multiset(all.samples);
    }
  }

  // What is kept ---------------------------------------------------------------------------------------------

  ghost predicate NewestOrder(s: Samples) {
    forall i, j | 0 <= i < j < |s| :: s[i].time >= s[j].time
  }

  lemma SortedNewestFirst(s: Samples)
    ensures NewestOrder(NewestFirst(s))
  {
    SortRanks(Newer(), s);
  }

  /** At most 50,000 samples are kept; none dropped is newer than one kept. */
  lemma KeepsTheNewest(samples: Samples)
    ensures |Retain(samples)| <= MAX_SAMPLES
    ensures |samples| <= MAX_SAMPLES ==> multiset(Retain(samples)) == multiset(samples)
    ensures exists dropped: Samples ::
              multiset(Retain(samples)) + multiset(dropped) == multiset(samples) &&
              forall k, d | k in Retain(samples) && d in dropped :: k.time >= d.time
  {
    SortedNewestFirst(samples);
    var sorted := NewestFirst(samples);
    var kept := Retain(samples);
    var dropped := sorted[|kept|..];
    assert |multiset(sorted)| == |sorted| && |multiset(samples)| == |samples|;
    hide NewestFirst, NewestOrder;
    assert sorted == kept + dropped;
    FrontIsNewer(sorted, |kept|);
    assert kept == sorted[..|kept|];
  }

  lemma FrontIsNewer(s: Samples, n: nat)
    requires NewestOrder(s) && n <= |s|
    ensures forall k, d | k in s[..n] && d in s[n..] :: k.time >= d.time
  {
    forall k, d | k in s[..n] && d in s[n..] ensures k.time >= d.time {
      var i :| 0 <= i < n && s[i] == k;
      var j :| 0 <= j < |s[n..]| && s[n..][j] == d;
      assert s[i].time >= s[n + j].time;
    }
  }
}
