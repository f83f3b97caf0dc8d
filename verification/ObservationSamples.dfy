/** Which observations of a post a preparation admits and samples out, and which sample it keeps. */
module ObservationSamples {
  import opened Sequences
  import opened Observations

  function Of(id: string): Tweet -> bool { (t: Tweet) => t.id == id }

  function SampleOf(t: Tweet): Sample
    requires t.time.Some?
  {
    Sample(t.id, t.time.value, t.content)
  }

  lemma {:induction false} SetThenFind(samples: Samples, sample: Sample, id: string)
    ensures Find(Set(samples, sample), id) == if id == sample.id then Some(sample) else Find(samples, id)
  {
    if samples != [] {
      SetThenFind(samples[1..], sample, id);
    }
  }

  /** Same content in the same five minutes as the kept sample. */
  ghost predicate RepeatsSample(before: Option<Sample>, t: Tweet)
    requires t.time.Some?
  {
    before.Some? && t.content == before.value.content && t.time.value / 300_000 == before.value.time / 300_000
  }

  /** What one observation does to a post: nothing, if it is of another one. */
  lemma OneOfPost(done: Prepared, t: Tweet, id: string)
    requires Readable(t)
    ensures var next := PrepareOne(done, t);
            var before := Find(done.samples, id);
            var accepted, sampled := Filter(done.accepted, Of(id)), Filter(done.sampled, Of(id));
            if t.id != id then
              Find(next.samples, id) == before && Filter(next.accepted, Of(id)) == accepted &&
              Filter(next.sampled, Of(id)) == sampled
            else if RepeatsSample(before, t) then
              Find(next.samples, id) == before && Filter(next.accepted, Of(id)) == accepted &&
              Filter(next.sampled, Of(id)) == sampled + [t]
            else
              Find(next.samples, id) ==
                (if before.None? || before.value.time <= t.time.value then Some(SampleOf(t)) else before) &&
              Filter(next.accepted, Of(id)) == accepted + [t] && Filter(next.sampled, Of(id)) == sampled
  {
    hide Filter, Set, Find;
    FilterSnoc(done.accepted, t, Of(id));
    FilterSnoc(done.sampled, t, Of(id));
    SetThenFind(done.samples, SampleOf(t), id);
  }

  lemma SplitFirst(tweets: seq<Tweet>, id: string)
    requires tweets != []
    ensures Filter(tweets, Of(id)) == (if tweets[0].id == id then [tweets[0]] else []) + Filter(tweets[1..], Of(id))
  {
  }

  /** A batch is prepared unless one observation has no identifier or no readable time. */
  lemma {:induction false} PreparesReadable(done: Prepared, tweets: seq<Tweet>)
    ensures PrepareAll(done, tweets).Some? <==> forall t | t in tweets :: t.id != "" && t.time.Some?
    decreases |tweets|
  {
    hide PrepareOne;
    if tweets != [] && Readable(tweets[0]) {
      PreparesReadable(PrepareOne(done, tweets[0]), tweets[1..]);
      assert tweets == [tweets[0]] + tweets[1..];
    } else if tweets != [] {
      assert tweets[0] in tweets;
    }
  }

  // The kept sample -----------------------------------------------------------------------------------------

  /** The kept sample is the latest of the earlier one and the admitted observations: of the
      greatest time, and among those of that time the last. */
  ghost predicate KeepsLatest(before: Option<Sample>, admitted: seq<Tweet>, kept: Option<Sample>)
    requires forall t | t in admitted :: t.time.Some?
  {
    match kept
    case None => before.None? && admitted == []
    case Some(s) =>
      || (before == kept && forall t | t in admitted :: t.time.value < s.time)
      || exists i :: 0 <= i < |admitted| && LatestAt(before, admitted, s, i)
  }

  ghost predicate LatestAt(before: Option<Sample>, admitted: seq<Tweet>, s: Sample, i: nat)
    requires i < |admitted| && forall t | t in admitted :: t.time.Some?
  {
    && s.time == admitted[i].time.value && s.content == admitted[i].content
    && (before.Some? ==> before.value.time <= s.time)
    && (forall j | 0 <= j < i :: admitted[j].time.value <= s.time)
    && (forall j | i < j < |admitted| :: admitted[j].time.value < s.time)
  }

  /** One more observation at the front. */
  lemma KeepsOneMore(before: Option<Sample>, t: Tweet, admitted: seq<Tweet>, kept: Option<Sample>)
    requires t.time.Some? && forall x | x in admitted :: x.time.Some?
    requires var mid := if before.None? || before.value.time <= t.time.value then Some(SampleOf(t)) else before;
             KeepsLatest(mid, admitted, kept)
    ensures KeepsLatest(before, [t] + admitted, kept)
  {
    var all := [t] + admitted;
    var mid := if before.None? || before.value.time <= t.time.value then Some(SampleOf(t)) else before;
    var s := kept.value;
    assert forall j | 0 < j < |all| :: all[j] == admitted[j - 1];
    if mid == kept && forall x | x in admitted :: x.time.value < s.time {
      if mid == Some(SampleOf(t)) {
        assert LatestAt(before, all, s, 0);
      }
    } else {
      var i :| 0 <= i < |admitted| && LatestAt(mid, admitted, s, i);
      assert LatestAt(before, all, s, i + 1);
    }
  }

  lemma {:induction false} AcceptedGrows(done: Prepared, tweets: seq<Tweet>)
    requires PrepareAll(done, tweets).Some?
    ensures done.accepted <= PrepareAll(done, tweets).value.accepted
    ensures forall t | t in PrepareAll(done, tweets).value.accepted[|done.accepted|..] :: t in tweets && Readable(t)
    decreases |tweets|
  {
    if tweets != [] {
      var next := PrepareOne(done, tweets[0]);
      AcceptedGrows(next, tweets[1..]);
      var all := PrepareAll(done, tweets).value.accepted;
      assert all[|done.accepted|..] == next.accepted[|done.accepted|..] + all[|next.accepted|..];
    }
  }

  /** After any readable batch each post's sample is the latest of its earlier sample and the
      observations admitted for it. */
  lemma {:induction false} KeptIsLatest(done: Prepared, tweets: seq<Tweet>, id: string)
    requires PrepareAll(done, tweets).Some?
    ensures var all := PrepareAll(done, tweets).value;
            done.accepted <= all.accepted &&
            var admitted := Filter(all.accepted[|done.accepted|..], Of(id));
            (forall t | t in admitted :: t.time.Some?) &&
            KeepsLatest(Find(done.samples, id), admitted, Find(all.samples, id))
    decreases |tweets|
  {
    hide Filter, Find, KeepsLatest, PrepareOne;
    AcceptedGrows(done, tweets);
    if tweets == [] {
      NothingAdmitted(done, id);
    } else {
      var t, next := tweets[0], PrepareOne(done, tweets[0]);
      FirstStep(done, tweets);
      hide PrepareAll;
      var all := PrepareAll(done, tweets).value;
      AcceptedGrows(next, tweets[1..]);
      KeptIsLatest(next, tweets[1..], id);
      var rest := all.accepted[|next.accepted|..];
      OneAccepted(done, t, id);
      if next.accepted == done.accepted {
        assert all.accepted[|done.accepted|..] == rest;
      } else {
        assert all.accepted[|done.accepted|..] == [t] + rest;
        FilterCons(t, rest, Of(id));
        if t.id == id {
          KeepsOneMore(Find(done.samples, id), t, Filter(rest, Of(id)), Find(all.samples, id));
        }
      }
    }
  }

  lemma NothingAdmitted(done: Prepared, id: string)
    ensures Filter(done.accepted[|done.accepted|..], Of(id)) == []
    ensures KeepsLatest(Find(done.samples, id), [], Find(done.samples, id))
  {
  }

  lemma OneAccepted(done: Prepared, t: Tweet, id: string)
    requires Readable(t)
    ensures var next, before := PrepareOne(done, t), Find(done.samples, id);
            (next.accepted == done.accepted && Find(next.samples, id) == before) ||
            (next.accepted == done.accepted + [t] && t.id != id && Find(next.samples, id) == before) ||
            (next.accepted == done.accepted + [t] && t.id == id &&
             Find(next.samples, id) ==
               if before.None? || before.value.time <= t.time.value then Some(SampleOf(t)) else before)
  {
    SetThenFind(done.samples, SampleOf(t), id);
    hide Find, Set;
  }

  // Steady content ------------------------------------------------------------------------------------------

  /** Of one post among others, every observation has this content and lies in this interval. */
  ghost predicate Steady(tweets: seq<Tweet>, id: string, content: string, interval: int) {
    forall t | t in tweets :: Readable(t) && (t.id == id ==> t.content == content && t.time.value / 300_000 == interval)
  }

  lemma SteadyTail(tweets: seq<Tweet>, id: string, content: string, interval: int)
    requires tweets != [] && Steady(tweets, id, content, interval)
    ensures Steady([tweets[0]], id, content, interval) && Steady(tweets[1..], id, content, interval)
    ensures Steady(Filter(tweets, Of(id)), id, content, interval)
    ensures Readable(tweets[0])
    ensures tweets[0].id == id ==> tweets[0].content == content && tweets[0].time.value / 300_000 == interval
  {
    assert tweets[0] in tweets;
  }

  /** How many of the observations of a steady post are admitted: none if the kept sample has
      their content and interval, else all up to the first that is not older than the sample. */
  ghost predicate AdmitsFirst(before: Option<Sample>, part: seq<Tweet>, content: string, interval: int, n: nat)
    requires forall t | t in part :: t.time.Some?
  {
    && n <= |part|
    && if before.Some? && before.value.content == content && before.value.time / 300_000 == interval then n == 0
       else
         && (part != [] ==> 0 < n)
         && (forall i | 0 <= i < n - 1 :: before.Some? && part[i].time.value < before.value.time)
         && (0 < n < |part| ==> before.None? || before.value.time <= part[n - 1].time.value)
  }

  /** A preparation admits the first `n` of a post's observations and samples out the rest. */
  ghost predicate Splits(done: Prepared, tweets: seq<Tweet>, id: string, n: nat) {
    var part, all := Filter(tweets, Of(id)), PrepareAll(done, tweets);
    && n <= |part| && all.Some?
    && Filter(all.value.accepted, Of(id)) == Filter(done.accepted, Of(id)) + part[..n]
    && Filter(all.value.sampled, Of(id)) == Filter(done.sampled, Of(id)) + part[n..]
  }

  lemma FirstStep(done: Prepared, tweets: seq<Tweet>)
    requires tweets != [] && Readable(tweets[0])
    ensures PrepareAll(done, tweets) == PrepareAll(PrepareOne(done, tweets[0]), tweets[1..])
  {
    hide PrepareOne;
  }

  lemma SplitOther(done: Prepared, tweets: seq<Tweet>, id: string, n: nat)
    requires tweets != [] && Readable(tweets[0]) && tweets[0].id != id
    requires Splits(PrepareOne(done, tweets[0]), tweets[1..], id, n)
    ensures Splits(done, tweets, id, n)
  {
    hide Filter, PrepareOne, PrepareAll, Find, Readable;
    FirstStep(done, tweets);
    OneOfPost(done, tweets[0], id);
    SplitFirst(tweets, id);
    assert [] + Filter(tweets[1..], Of(id)) == Filter(tweets[1..], Of(id));
  }

  lemma SplitSampledOut(done: Prepared, tweets: seq<Tweet>, id: string)
    requires tweets != [] && Readable(tweets[0]) && tweets[0].id == id &&
             RepeatsSample(Find(done.samples, id), tweets[0])
    requires Splits(PrepareOne(done, tweets[0]), tweets[1..], id, 0)
    ensures Splits(done, tweets, id, 0)
  {
    hide Filter, PrepareOne, PrepareAll, Find, Readable, RepeatsSample;
    FirstStep(done, tweets);
    OneOfPost(done, tweets[0], id);
    SplitFirst(tweets, id);
    JoinSampledOut(Filter(done.sampled, Of(id)), tweets[0], Filter(tweets[1..], Of(id)));
  }

  lemma JoinSampledOut(sampled: seq<Tweet>, t: Tweet, rest: seq<Tweet>)
    ensures sampled + [t] + rest[0..] == sampled + ([t] + rest)[0..]
    ensures rest[..0] == ([t] + rest)[..0]
  {
  }

  lemma SplitAdmitted(done: Prepared, tweets: seq<Tweet>, id: string, n: nat)
    requires tweets != [] && Readable(tweets[0]) && tweets[0].id == id &&
             !RepeatsSample(Find(done.samples, id), tweets[0])
    requires Splits(PrepareOne(done, tweets[0]), tweets[1..], id, n)
    ensures Splits(done, tweets, id, n + 1)
  {
    hide Filter, PrepareOne, PrepareAll, Find, Readable, RepeatsSample;
    FirstStep(done, tweets);
    OneOfPost(done, tweets[0], id);
    SplitFirst(tweets, id);
    JoinAdmitted(Filter(done.accepted, Of(id)), tweets[0], Filter(tweets[1..], Of(id)), n);
  }

  lemma JoinAdmitted(accepted: seq<Tweet>, t: Tweet, rest: seq<Tweet>, n: nat)
    requires n <= |rest|
    ensures accepted + [t] + rest[..n] == accepted + ([t] + rest)[..n + 1]
    ensures rest[n..] == ([t] + rest)[n + 1..]
  {
    assert ([t] + rest)[..n + 1] == [t] + rest[..n];
  }

  lemma SteadyPart(tweets: seq<Tweet>, id: string, content: string, interval: int)
    requires Steady(tweets, id, content, interval)
    ensures forall t | t in Filter(tweets, Of(id)) ::
              t.time.Some? && t.content == content && t.time.value / 300_000 == interval
  {
  }

  lemma NoneSplit(done: Prepared, id: string)
    ensures Splits(done, [], id, 0)
  {
  }

  /** Of a post with unchanged content in one interval, whatever other posts come between, exactly
      the observations up to the first that is not older than the kept sample are admitted, and
      none if the sample already has that content and interval. */
  lemma {:induction false} SteadyPostIsSplit(
      done: Prepared, tweets: seq<Tweet>, id: string, content: string, interval: int) returns (n: nat)
    requires Steady(tweets, id, content, interval)
    ensures Splits(done, tweets, id, n)
    ensures forall t | t in Filter(tweets, Of(id)) :: t.time.Some?
    ensures AdmitsFirst(Find(done.samples, id), Filter(tweets, Of(id)), content, interval, n)
    decreases |tweets|
  {
    hide Splits, Steady, Filter, PrepareOne, Find, AdmitsFirst, RepeatsSample, Readable, Of;
    SteadyPart(tweets, id, content, interval);
    if tweets == [] {
      NoneSplit(done, id);
      NoneAdmitted(Find(done.samples, id), id, content, interval);
      return 0;
    }
    SteadyTail(tweets, id, content, interval);
    var before, t, next := Find(done.samples, id), tweets[0], PrepareOne(done, tweets[0]);
    OneOfPost(done, t, id);
    SplitFirst(tweets, id);
    ReadableTime(t);
    var m := SteadyPostIsSplit(next, tweets[1..], id, content, interval);
    var part, rest := Filter(tweets, Of(id)), Filter(tweets[1..], Of(id));
    if t.id != id {
      SplitOther(done, tweets, id, m);
      assert part == rest;
      return m;
    }
    if RepeatsSample(before, t) {
      RepeatedAdmitsNone(before, t, part, rest, content, interval, m);
      SplitSampledOut(done, tweets, id);
      return 0;
    }
    SplitAdmitted(done, tweets, id, m);
    AdmitsOneMore(before, t, part, rest, content, interval, m);
    return m + 1;
  }

  lemma ReadableTime(t: Tweet)
    requires Readable(t)
    ensures t.time.Some?
  {
  }

  lemma NoneAdmitted(before: Option<Sample>, id: string, content: string, interval: int)
    ensures AdmitsFirst(before, Filter([], Of(id)), content, interval, 0)
  {
  }

  lemma RepeatedAdmitsNone(
      before: Option<Sample>, t: Tweet, part: seq<Tweet>, rest: seq<Tweet>, content: string, interval: int, m: nat)
    requires (forall x | x in part :: x.time.Some?) && forall x | x in rest :: x.time.Some?
    requires t.time.Some? && t.content == content && t.time.value / 300_000 == interval && RepeatsSample(before, t)
    requires AdmitsFirst(before, rest, content, interval, m)
    ensures m == 0 && AdmitsFirst(before, part, content, interval, 0)
  {
  }

  lemma AdmitsOneMore(
      before: Option<Sample>, t: Tweet, part: seq<Tweet>, rest: seq<Tweet>, content: string, interval: int, m: nat)
    requires t.time.Some? && t.content == content && t.time.value / 300_000 == interval && !RepeatsSample(before, t)
    requires part == [t] + rest && (forall x | x in part :: x.time.Some?) && forall x | x in rest :: x.time.Some?
    requires var mid := if before.None? || before.value.time <= t.time.value then Some(SampleOf(t)) else before;
             AdmitsFirst(mid, rest, content, interval, m)
    ensures AdmitsFirst(before, part, content, interval, m + 1)
  {
    assert forall i | 0 < i < |part| :: part[i] == rest[i - 1];
  }

  /** In an interval later than that of the kept sample, or without one, the first observation of a
      steady post is admitted and the rest are sampled out. */
  lemma SteadyPostIsSampledOnce(done: Prepared, tweets: seq<Tweet>, id: string, content: string, interval: int)
    requires Steady(tweets, id, content, interval) && Filter(tweets, Of(id)) != []
    requires Find(done.samples, id).None? || Find(done.samples, id).value.time / 300_000 < interval
    ensures Splits(done, tweets, id, 1)
  {
    var n := SteadyPostIsSplit(done, tweets, id, content, interval);
    SteadyPart(tweets, id, content, interval);
    var before, part := Find(done.samples, id), Filter(tweets, Of(id));
    hide Splits, Steady, Filter, Find;
    assert part[0] in part;
    if before.Some? {
      LaterInterval(before.value.time, part[0].time.value);
    }
  }

  lemma LaterInterval(a: int, b: int)
    requires a / 300_000 < b / 300_000
    ensures a < b
  {
  }

  /** In an interval before that of the kept sample every observation of a steady post is admitted:
      the sample stays, so nothing repeats it. */
  lemma LatePostIsNotSampled(done: Prepared, tweets: seq<Tweet>, id: string, content: string, interval: int)
    requires Steady(tweets, id, content, interval) && Find(done.samples, id).Some?
    requires interval < Find(done.samples, id).value.time / 300_000
    ensures Splits(done, tweets, id, |Filter(tweets, Of(id))|)
  {
    var n := SteadyPostIsSplit(done, tweets, id, content, interval);
    SteadyPart(tweets, id, content, interval);
    var before, part := Find(done.samples, id), Filter(tweets, Of(id));
    hide Splits, Steady, Filter, Find;
    forall t | t in part ensures t.time.value < before.value.time {
      LaterInterval(t.time.value, before.value.time);
    }
    forall i | 0 <= i < |part| ensures part[i].time.value < before.value.time {
      assert part[i] in part;
    }
  }
}
