/** What every reachable scrape receipt store satisfies, for any order of calls and any clock
    values, and what later calls can never change. */
module ScrapeRuns {
  import opened Sequences
  import opened ScrapeReceipts
  import opened Numbers

  // The invariant -------------------------------------------------------------------------------------

  ghost predicate ReceiptsNumbered(s: Store) {
    && (forall id | id in s.receipts :: 0 < s.receipts[id].sequence <= s.sequence)
    && (forall a, b | a in s.receipts && b in s.receipts && a != b :: s.receipts[a].sequence != s.receipts[b].sequence)
    && (forall pair | pair in s.listReceipts :: 0 < s.listReceipts[pair].sequence <= s.sequence)
  }

  /** The pairs of a list that were numbered up to a baseline. */
  function KnownAt(s: Store, listId: string, baseline: nat): set<(string, string)> {
    set pair | pair in s.listReceipts && pair.0 == listId && s.listReceipts[pair].sequence <= baseline
  }

  ghost predicate RunsSound(s: Store) {
    forall id | id in s.runs ::
      && s.runs[id].runId == id
      && s.runs[id].baselineSequence <= s.sequence
      && s.runs[id].knownListCount == |KnownAt(s, s.runs[id].listId, s.runs[id].baselineSequence)|
      && (s.runs[id].state.Running? ==> s.runs[id].finishedAtMs.None? && s.runs[id].stopReason.None?)
      && IsListId(s.runs[id].listId)
  }

  ghost predicate RunningBounded(s: Store) {
    && |Active(s.runs)| <= MAX_ACTIVE_RUNS
    && (forall a, b | a in Active(s.runs) && b in Active(s.runs) && a != b ::
          s.runs[a].sourceTabId != s.runs[b].sourceTabId)
    && (s.cutover ==> Active(s.runs) == {})
  }

  /** Observation keys are exactly (run, 1) to (run, lastCursor), and each observation says
      when its pair was first captured and whether that was before the run. */
  ghost predicate ObservationsSound(s: Store) {
    && (forall key :: key in s.observations <==> key.0 in s.runs && 0 < key.1 <= s.runs[key.0].lastCursor)
    && (forall key | key in s.observations :: ObservationSound(s, key, s.observations[key]))
  }

  ghost predicate ObservationSound(s: Store, key: (string, nat), o: Observation) {
    key.0 in s.runs &&
    var run := s.runs[key.0];
    && o.runId == key.0 && o.cursor == key.1
    && (run.listId, o.tweetId) in s.listReceipts
    && o.captureSequence == s.listReceipts[(run.listId, o.tweetId)].sequence
    && (o.knownBeforeRun <==> o.captureSequence <= run.baselineSequence)
  }

  ghost predicate Valid(s: Store) {
    ReceiptsNumbered(s) && RunsSound(s) && RunningBounded(s) && ObservationsSound(s)
  }

  // What never changes ----------------------------------------------------------------------------------

  ghost predicate Terminal(run: Run) { !run.state.Running? && run.stopReason.None? }

  /** A later store keeps every receipt, gives new pairs later numbers, keeps what a run was
      created with, and never moves a run that stopped for good. */
  ghost predicate Extends(s: Store, t: Store) {
    && s.sequence <= t.sequence
    && (forall id | id in s.receipts :: id in t.receipts && t.receipts[id] == s.receipts[id])
    && (forall pair | pair in s.listReceipts :: pair in t.listReceipts && t.listReceipts[pair] == s.listReceipts[pair])
    && (forall pair | pair in t.listReceipts && pair !in s.listReceipts :: s.sequence < t.listReceipts[pair].sequence)
    && (forall key | key in s.observations :: key in t.observations && t.observations[key] == s.observations[key])
    && (forall id | id in s.runs :: id in t.runs && RunExtends(s.runs[id], t.runs[id]))
  }

  ghost predicate RunExtends(run: Run, later: Run) {
    && later.listId == run.listId && later.startedAtMs == run.startedAtMs
    && later.baselineSequence == run.baselineSequence && later.knownListCount == run.knownListCount
    && run.lastCursor <= later.lastCursor
    && (Terminal(run) ==> Terminal(later) && later.state == run.state && later.sourceTabId == run.sourceTabId)
  }

  lemma ExtendsItself(s: Store)
    ensures Extends(s, s)
  {
  }

  lemma ExtendsTransitive(s: Store, t: Store, u: Store)
    requires Extends(s, t) && Extends(t, u)
    ensures Extends(s, u)
  {
  }

  // Changes to runs only ------------------------------------------------------------------------------------

  /** Replacing runs one for one without touching what they were created with. */
  ghost predicate SameRuns(s: Store, t: Store) {
    && t == s.(runs := t.runs, cutover := t.cutover) && t.runs.Keys == s.runs.Keys
    && forall id | id in s.runs ::
         && RunExtends(s.runs[id], t.runs[id]) && t.runs[id].runId == s.runs[id].runId
         && t.runs[id].lastCursor == s.runs[id].lastCursor
         && (t.runs[id].state.Running? ==> t.runs[id].finishedAtMs.None? && t.runs[id].stopReason.None?)
  }

  lemma SameRunsKeep(s: Store, t: Store)
    requires Valid(s) && SameRuns(s, t) && RunningBounded(t)
    ensures Valid(t) && Extends(s, t)
  {
    forall id | id in t.runs
      ensures t.runs[id].knownListCount == |KnownAt(t, t.runs[id].listId, t.runs[id].baselineSequence)|
    {
      assert KnownAt(t, t.runs[id].listId, t.runs[id].baselineSequence) ==
        KnownAt(s, s.runs[id].listId, s.runs[id].baselineSequence);
    }
    forall key ensures key in t.observations <==> key.0 in t.runs && 0 < key.1 <= t.runs[key.0].lastCursor {
      assert key in s.observations <==> key.0 in s.runs && 0 < key.1 <= s.runs[key.0].lastCursor;
    }
    forall key | key in t.observations ensures ObservationSound(t, key, t.observations[key]) {
      assert ObservationSound(s, key, s.observations[key]);
    }
  }

  /** Fewer running runs on the same tabs stay within the bounds. */
  lemma FewerRunning(s: Store, t: Store)
    requires RunningBounded(s) && Active(t.runs) <= Active(s.runs)
    requires forall id | id in Active(t.runs) :: t.runs[id].sourceTabId == s.runs[id].sourceTabId
    requires t.cutover ==> Active(t.runs) == {}
    ensures RunningBounded(t)
  {
    SubsetCount(Active(t.runs), Active(s.runs));
  }

  /** Storing one run again, renewed or stopped. */
  lemma PutRunKeeps(s: Store, id: string, run: Run)
    requires Valid(s) && id in s.runs
    requires RunExtends(s.runs[id], run) && run.runId == id && run.lastCursor == s.runs[id].lastCursor
    requires run.state.Running? ==> run.finishedAtMs.None? && run.stopReason.None?
    requires run.state.Running? ==> s.runs[id].state.Running? && run.sourceTabId == s.runs[id].sourceTabId
    ensures var t := s.(runs := s.runs[id := run]); Valid(t) && Extends(s, t)
  {
    var t := s.(runs := s.runs[id := run]);
    FewerRunning(s, t);
    SameRunsKeep(s, t) by {
      hide ReceiptsNumbered, ObservationsSound, KnownAt, RunningBounded;
      assert t.runs.Keys == s.runs.Keys;
    }
  }

  lemma RenewKeeps(s: Store, runId: string, tab: int, at: Time)
    requires Valid(s)
    ensures var t := RenewRun(s, runId, tab, at).0; Valid(t) && Extends(s, t)
  {
    hide ReceiptsNumbered, ObservationsSound, KnownAt, RunningBounded, Extends;
    ExtendsItself(s);
    var result := RenewRun(s, runId, tab, at).1;
    if result.Ok? {
      PutRunKeeps(s, runId, result.value);
    }
  }

  lemma FinishKeeps(s: Store, runId: string, state: RunState, at: Time)
    requires Valid(s)
    ensures var t := FinishRun(s, runId, state, at).0; Valid(t) && Extends(s, t)
  {
    hide ReceiptsNumbered, ObservationsSound, KnownAt, RunningBounded, Extends;
    ExtendsItself(s);
    var result := FinishRun(s, runId, state, at).1;
    if result.Ok? {
      PutRunKeeps(s, runId, result.value);
    }
  }

  /** Every run again, with no more of them running. */
  lemma RunsReplaced(s: Store, t: Store)
    requires Valid(s) && SameRuns(s, t)
    requires Active(t.runs) <= Active(s.runs) && (t.cutover ==> Active(t.runs) == {})
    requires forall id | id in Active(t.runs) :: t.runs[id].sourceTabId == s.runs[id].sourceTabId
    ensures Valid(t) && Extends(s, t)
  {
    FewerRunning(s, t);
    hide SameRuns, RunningBounded, Active, ReceiptsNumbered, ObservationsSound, KnownAt, Extends;
    SameRunsKeep(s, t);
  }

  lemma FinishTabKeeps(s: Store, tab: int, at: Time)
    requires Valid(s)
    ensures var t := FinishRunsForSourceTab(s, tab, at).0; Valid(t) && Extends(s, t)
  {
    hide ReceiptsNumbered, ObservationsSound, KnownAt, Extends;
    RunsReplaced(s, FinishRunsForSourceTab(s, tab, at).0);
  }

  lemma CutoverKeeps(s: Store, at: Time)
    requires Valid(s)
    ensures var t := BeginCutover(s, at).0; Valid(t) && Extends(s, t)
    ensures Valid(FinishCutover(s)) && Extends(s, FinishCutover(s))
  {
    hide ReceiptsNumbered, ObservationsSound, KnownAt, Extends;
    RunsReplaced(s, BeginCutover(s, at).0);
    RunsReplaced(s, FinishCutover(s));
  }

  // Beginning a run -----------------------------------------------------------------------------------------

  lemma ExpireStaleKeeps(s: Store, at: real)
    requires Valid(s)
    ensures var t := s.(runs := ExpireStale(s.runs, at)); Valid(t) && Extends(s, t)
  {
    hide ReceiptsNumbered, ObservationsSound, KnownAt, Extends;
    RunsReplaced(s, s.(runs := ExpireStale(s.runs, at)));
  }

  /** One more running run on a free tab. */
  lemma OneMoreRunning(s: Store, id: string, run: Run)
    requires RunningBounded(s) && !s.cutover && run.state.Running?
    requires id in s.runs ==> !s.runs[id].state.Running?
    requires |Active(s.runs)| < MAX_ACTIVE_RUNS
    requires OnTab(s.runs, run.sourceTabId) == {}
    ensures RunningBounded(s.(runs := s.runs[id := run]))
  {
    var t := s.(runs := s.runs[id := run]);
    assert Active(t.runs) == Active(s.runs) + {id};
    forall a | a in Active(s.runs) && a != id ensures t.runs[a].sourceTabId != run.sourceTabId {
      assert a !in OnTab(s.runs, run.sourceTabId);
    }
  }

  /** A new run starts with what its list knows and with no observation. */
  lemma NewRunKeeps(s: Store, request: RunRequest, at: real)
    requires Valid(s) && !s.cutover && request.startedAtMs.At? && IsListId(request.listId)
    requires request.runId !in s.runs
    requires OnTab(s.runs, request.sourceTabId) == {} && |Active(s.runs)| < MAX_ACTIVE_RUNS
    ensures var t := s.(runs := s.runs[request.runId := NewRun(s, request, at)]); Valid(t) && Extends(s, t)
  {
    OneMoreRunning(s, request.runId, NewRun(s, request, at));
    hide Active, OnTab, RunningBounded;
    NewRunSound(s, request, at);
    NewRunUnobserved(s, request, at);
    hide RunsSound, ObservationsSound, KnownOnList;
  }

  lemma NewRunSound(s: Store, request: RunRequest, at: real)
    requires ReceiptsNumbered(s) && RunsSound(s) && request.startedAtMs.At? && IsListId(request.listId)
    ensures RunsSound(s.(runs := s.runs[request.runId := NewRun(s, request, at)]))
  {
    var run := NewRun(s, request, at);
    var t := s.(runs := s.runs[request.runId := run]);
    assert KnownOnList(s.listReceipts, request.listId) == KnownAt(t, run.listId, run.baselineSequence);
    SameKnown(s, t);
    hide KnownAt;
  }

  lemma NewRunUnobserved(s: Store, request: RunRequest, at: real)
    requires ObservationsSound(s) && request.startedAtMs.At? && request.runId !in s.runs
    ensures ObservationsSound(s.(runs := s.runs[request.runId := NewRun(s, request, at)]))
  {
    var t := s.(runs := s.runs[request.runId := NewRun(s, request, at)]);
    forall key ensures key in t.observations <==> key.0 in t.runs && 0 < key.1 <= t.runs[key.0].lastCursor {
      assert key in s.observations <==> key.0 in s.runs && 0 < key.1 <= s.runs[key.0].lastCursor;
    }
    forall key | key in t.observations ensures ObservationSound(t, key, t.observations[key]) {
      assert ObservationSound(s, key, s.observations[key]);
    }
  }

  lemma SameKnown(s: Store, t: Store)
    requires s.listReceipts == t.listReceipts
    ensures forall listId, baseline :: KnownAt(s, listId, baseline) == KnownAt(t, listId, baseline)
  {
  }

  lemma RecoveredKeeps(s: Store, id: string, tab: int, at: real)
    requires Valid(s) && !s.cutover && id in s.runs
    requires !s.runs[id].state.Running? && s.runs[id].stopReason.Some?
    requires OnTab(s.runs, tab) == {} && |Active(s.runs)| < MAX_ACTIVE_RUNS
    ensures var t := s.(runs := s.runs[id := Recovered(s.runs[id], tab, at)]); Valid(t) && Extends(s, t)
  {
    hide ReceiptsNumbered, ObservationsSound, KnownAt, RunningBounded, Extends, Active, OnTab;
    var t := s.(runs := s.runs[id := Recovered(s.runs[id], tab, at)]);
    OneMoreRunning(s, id, Recovered(s.runs[id], tab, at));
    assert t.runs.Keys == s.runs.Keys;
    SameRunsKeep(s, t);
  }

  lemma BeginKeeps(s: Store, request: RunRequest, openedAt: Time)
    requires Valid(s)
    ensures var t := BeginRun(s, request, openedAt).0; Valid(t) && Extends(s, t)
  {
    hide ReceiptsNumbered, ObservationsSound, KnownAt, KnownOnList, RunningBounded, Extends, OnTab, Active, ExpireStale;
    ExtendsItself(s);
    if BeginRun(s, request, openedAt).1.Ok? {
      var id, at := request.runId, openedAt.ms;
      var u := s.(runs := ExpireStale(s.runs, at));
      ExpireStaleKeeps(s, at);
      if id !in u.runs {
        assert NewRun(u, request, at) == NewRun(s, request, at);
        NewRunKeeps(u, request, at);
      } else if u.runs[id].state.Running? {
        PutRunKeeps(u, id, Renew(u.runs[id], at));
      } else {
        RecoveredKeeps(u, id, request.sourceTabId, at);
      }
      ExtendsTransitive(s, u, BeginRun(s, request, openedAt).0);
    }
  }

  // Recording a timeline ----------------------------------------------------------------------------------

  lemma NumberKeeps(s: Store, capture: Capture, tweet: Tweet)
    requires Valid(s) && IsTweet(tweet)
    ensures var t := NumberPair(s, capture, tweet);
            Valid(t) && Extends(s, t) && (capture.listId, tweet.id) in t.listReceipts
  {
    NumberExtends(s, capture, tweet);
    hide NumberPair, RunsSound, ObservationsSound, Extends, ReceiptsNumbered;
    ReceiptsOnly(s, NumberPair(s, capture, tweet));
  }

  /** New receipts are numbered above every baseline, so they leave the runs as they are. */
  lemma ReceiptsOnly(s: Store, t: Store)
    requires RunsSound(s) && ObservationsSound(s) && Extends(s, t)
    requires t.runs == s.runs && t.observations == s.observations
    ensures RunsSound(t) && ObservationsSound(t)
  {
    assert RunsSound(t) by {
      hide ObservationsSound;
      forall id | id in s.runs
        ensures t.runs[id].knownListCount == |KnownAt(t, t.runs[id].listId, t.runs[id].baselineSequence)|
      {
        assert KnownAt(t, t.runs[id].listId, t.runs[id].baselineSequence) ==
          KnownAt(s, s.runs[id].listId, s.runs[id].baselineSequence);
      }
    }
    hide RunsSound, KnownAt;
    forall key | key in t.observations ensures ObservationSound(t, key, t.observations[key]) {
      assert ObservationSound(s, key, s.observations[key]);
    }
  }

  lemma NumberExtends(s: Store, capture: Capture, tweet: Tweet)
    requires ReceiptsNumbered(s) && IsTweet(tweet)
    ensures var t := NumberPair(s, capture, tweet);
            ReceiptsNumbered(t) && Extends(s, t) && (capture.listId, tweet.id) in t.listReceipts &&
            t.runs == s.runs && t.observations == s.observations && t.cutover == s.cutover
  {
  }

  /** The store as it stands once the run in hand is written back. */
  ghost function WrittenBack(rec: Recording): Store {
    if rec.run.None? then rec.store else rec.store.(runs := rec.store.runs[rec.run.value.runId := rec.run.value])
  }

  lemma ObserveKeeps(s: Store, id: string, capture: Capture, tweet: Tweet)
    requires Valid(s) && IsTweet(tweet) && id in s.runs && s.runs[id].state.Running?
    requires capture.listId == s.runs[id].listId && (capture.listId, tweet.id) in s.listReceipts
    ensures var o := Observe(s, s.runs[id], capture, tweet);
            var t := s.(runs := s.runs[id := s.runs[id].(lastCursor := o.cursor)],
                        observations := s.observations[(id, o.cursor) := o]);
            Valid(t) && Extends(s, t)
  {
    var o := Observe(s, s.runs[id], capture, tweet);
    var t := s.(runs := s.runs[id := s.runs[id].(lastCursor := o.cursor)],
                  observations := s.observations[(id, o.cursor) := o]);
    assert o.runId == id by { hide ObservationsSound, RunningBounded, ReceiptsNumbered; }
    assert (id, o.cursor) !in s.observations by { hide RunsSound, RunningBounded, ReceiptsNumbered; }
    ObserveSound(s, id, capture, tweet);
    hide ObservationsSound, ObservationSound;
    CursorMoves(s, t, id);
    hide RunsSound, RunningBounded, KnownAt, Active;
    ObserveExtends(s, t, id, o);
  }

  lemma ObserveExtends(s: Store, t: Store, id: string, o: Observation)
    requires id in s.runs && (id, o.cursor) !in s.observations && s.runs[id].lastCursor <= o.cursor
    requires s.runs[id].state.Running?
    requires t == s.(runs := s.runs[id := s.runs[id].(lastCursor := o.cursor)],
                     observations := s.observations[(id, o.cursor) := o])
    ensures Extends(s, t)
  {
  }

  /** Only the cursor of one run moves. */
  lemma CursorMoves(s: Store, t: Store, id: string)
    requires RunsSound(s) && RunningBounded(s) && id in s.runs
    requires id in t.runs && t.runs == s.runs[id := s.runs[id].(lastCursor := t.runs[id].lastCursor)]
    requires t == s.(runs := t.runs, observations := t.observations)
    ensures RunsSound(t) && RunningBounded(t)
  {
    FewerRunning(s, t);
    hide RunningBounded;
    SameKnown(s, t);
    hide KnownAt;
  }

  lemma ObserveSound(s: Store, id: string, capture: Capture, tweet: Tweet)
    requires ObservationsSound(s) && RunsSound(s) && IsTweet(tweet) && id in s.runs
    requires capture.listId == s.runs[id].listId && (capture.listId, tweet.id) in s.listReceipts
    ensures var o := Observe(s, s.runs[id], capture, tweet);
            ObservationsSound(s.(runs := s.runs[id := s.runs[id].(lastCursor := o.cursor)],
                                 observations := s.observations[(id, o.cursor) := o]))
  {
    var o := Observe(s, s.runs[id], capture, tweet);
    var t := s.(runs := s.runs[id := s.runs[id].(lastCursor := o.cursor)],
                  observations := s.observations[(id, o.cursor) := o]);
    assert s.runs[id].runId == id;
    hide RunsSound;
    forall key ensures key in t.observations <==> key.0 in t.runs && 0 < key.1 <= t.runs[key.0].lastCursor {
      assert key in s.observations <==> key.0 in s.runs && 0 < key.1 <= s.runs[key.0].lastCursor;
      assert key.0 == id ==> (key == (id, o.cursor) <==> key.1 == o.cursor);
    }
    forall key | key in t.observations ensures ObservationSound(t, key, t.observations[key]) {
      assert key != (id, o.cursor) ==> ObservationSound(s, key, s.observations[key]);
    }
  }

  ghost predicate Feeds(rec: Recording, capture: Capture) {
    rec.run.Some? ==>
      var run := rec.run.value;
      && run.runId in rec.store.runs && run.state.Running? && capture.listId == run.listId
      && run == rec.store.runs[run.runId].(lastCursor := rec.store.runs[run.runId].lastCursor + |rec.emitted|)
  }

  lemma TweetKeeps(rec: Recording, capture: Capture, tweet: Tweet)
    requires Feeds(rec, capture) && Valid(WrittenBack(rec))
    ensures var next := RecordTweet(rec, capture, tweet);
            Feeds(next, capture) && Valid(WrittenBack(next)) && Extends(WrittenBack(rec), WrittenBack(next)) &&
            next.store.runs == rec.store.runs
  {
    hide Extends, ReceiptsNumbered, RunsSound, RunningBounded, ObservationsSound;
    ExtendsItself(WrittenBack(rec));
    if IsTweet(tweet) && tweet.id !in rec.batchIds {
      var s := WrittenBack(rec);
      NumberKeeps(s, capture, tweet);
      if rec.run.Some? {
        var id := rec.run.value.runId;
        var numbered := NumberPair(s, capture, tweet);
        ObserveKeeps(numbered, id, capture, tweet);
        var next := RecordTweet(rec, capture, tweet);
        assert WrittenBack(next) ==
               numbered.(runs := numbered.runs[id := next.run.value],
                         observations :=
                           numbered.observations[(id, next.run.value.lastCursor) := next.emitted[|rec.emitted|]]);
        ExtendsTransitive(s, numbered, WrittenBack(next));
      }
    }
  }

  lemma {:induction false} TweetsKeep(rec: Recording, capture: Capture, tweets: seq<Tweet>)
    requires Feeds(rec, capture) && Valid(WrittenBack(rec))
    ensures var last := RecordTweets(rec, capture, tweets);
            Feeds(last, capture) && Valid(WrittenBack(last)) && Extends(WrittenBack(rec), WrittenBack(last)) &&
            last.store.runs == rec.store.runs
    decreases |tweets|
  {
    hide Extends, Valid, Feeds, RecordTweet;
    ExtendsItself(WrittenBack(rec));
    if tweets != [] {
      var next := RecordTweet(rec, capture, tweets[0]);
      TweetKeeps(rec, capture, tweets[0]);
      TweetsKeep(next, capture, tweets[1..]);
      ExtendsTransitive(WrittenBack(rec), WrittenBack(next), WrittenBack(RecordTweets(rec, capture, tweets)));
    }
  }

  lemma TabRunKeeps(s: Store, tab: int, at: real)
    requires Valid(s)
    ensures var (t, run) := TabRun(s, tab, at);
            Valid(t) && Extends(s, t) &&
            (run.Some? ==>
              run.value.runId in t.runs && t.runs[run.value.runId] == run.value && run.value.state.Running?)
  {
    hide ReceiptsNumbered, ObservationsSound, KnownAt, RunningBounded, Extends;
    ExtendsItself(s);
    var ids := OnTab(s.runs, tab);
    if ids != {} && !HasLiveLease(s.runs[TheRun(ids)], at) {
      PutRunKeeps(s, TheRun(ids), Expire(s.runs[TheRun(ids)], at));
    }
  }

  lemma TimelineKeeps(s: Store, timeline: Timeline)
    requires Valid(s)
    ensures var t := RecordTimeline(s, timeline).0; Valid(t) && Extends(s, t)
  {
    hide ReceiptsNumbered, RunsSound, RunningBounded, ObservationsSound, Extends, TabRun, RecordTweets;
    ExtendsItself(s);
    if !Ignored(timeline) {
      var at := timeline.observedAtMs.ms;
      var (current, run) := TabRun(s, timeline.sourceTabId, at);
      TabRunKeeps(s, timeline.sourceTabId, at);
      var listId := if run.Some? then Some(run.value.listId) else timeline.requestList;
      if listId.Some? && IsListId(listId.value) {
        var start := Recording(current, run, {}, []);
        var capture := Capture(timeline.endpoint, listId.value, at);
        assert run.Some? ==> current.runs[run.value.runId := run.value] == current.runs;
        assert WrittenBack(start) == current;
        TweetsKeep(start, capture, timeline.tweets);
        var last := RecordTweets(start, capture, timeline.tweets);
        var written := WrittenBack(last);
        ExtendsTransitive(s, current, written);
        FinishedKeeps(last, capture, at);
        ExtendsTransitive(s, written, Finished(last, at));
      }
    }
  }

  lemma FinishedKeeps(rec: Recording, capture: Capture, at: real)
    requires Feeds(rec, capture) && Valid(WrittenBack(rec))
    ensures Valid(Finished(rec, at)) && Extends(WrittenBack(rec), Finished(rec, at))
  {
    var s := WrittenBack(rec);
    hide ReceiptsNumbered, ObservationsSound, RunningBounded, Extends;
    ExtendsItself(s);
    if rec.run.Some? {
      var id := rec.run.value.runId;
      if rec.emitted == [] {
        assert rec.store.runs[id := rec.run.value] == rec.store.runs;
      } else {
        var run := rec.run.value.(updatedAtMs := at);
        assert s.runs[id := run] == rec.store.runs[id := run];
        PutRunKeeps(s, id, run);
      }
    }
  }

  // Executions ---------------------------------------------------------------------------------------------

  /** One call keeps the invariant and everything an earlier store settled. */
  lemma StepKeeps(s: Store, call: Call)
    requires Valid(s)
    ensures Valid(Step(s, call)) && Extends(s, Step(s, call))
  {
    hide Valid, Extends, BeginRun, RecordTimeline, RenewRun, FinishRun, FinishRunsForSourceTab, BeginCutover,
      FinishCutover;
    match call
    case CallBeginRun(request, openedAt) => BeginKeeps(s, request, openedAt);
    case CallRecordTimeline(timeline) => TimelineKeeps(s, timeline);
    case CallRenewRun(runId, tab, at) => RenewKeeps(s, runId, tab, at);
    case CallFinishRun(runId, state, at) => FinishKeeps(s, runId, state, at);
    case CallFinishTab(tab, at) => FinishTabKeeps(s, tab, at);
    case CallBeginCutover(at) => CutoverKeeps(s, at);
    case CallFinishCutover => CutoverKeeps(s, NotFinite);
  }

  /** Any sequence of calls keeps the invariant, and the later store extends the earlier one. */
  lemma {:induction false} ExecutionKeeps(s: Store, calls: seq<Call>)
    requires Valid(s)
    ensures Valid(Execute(s, calls)) && Extends(s, Execute(s, calls))
    decreases |calls|
  {
    hide Valid, Extends, Step;
    ExtendsItself(s);
    if calls != [] {
      StepKeeps(s, calls[0]);
      ExecutionKeeps(Step(s, calls[0]), calls[1..]);
      ExtendsTransitive(s, Step(s, calls[0]), Execute(s, calls));
    }
  }

  /** Every store reached from the empty one is valid: receipt numbers are unique, each run's
      cursors are exactly 1 to its last, at most four runs run, on different tabs, none of
      them carries a finish time or stop reason, and none runs during a cutover. */
  lemma ReachableIsValid(calls: seq<Call>)
    ensures Valid(Execute(EMPTY_STORE, calls))
  {
    ExecutionKeeps(EMPTY_STORE, calls);
  }

  lemma CreatedRun(s: Store, request: RunRequest, openedAt: Time)
    requires request.runId !in s.runs && request.runId in BeginRun(s, request, openedAt).0.runs
    ensures var t := BeginRun(s, request, openedAt).0;
            openedAt.At? && request.startedAtMs.At? && t.runs[request.runId] == NewRun(s, request, openedAt.ms) &&
            t.listReceipts == s.listReceipts && t.sequence == s.sequence
  {
  }

  /** Take any run, created by the call after `before`. In every later store an observation of
      the run is known exactly if its pair was stored when the run was created, whatever
      expiry, recovery or other runs came between. */
  lemma KnownMeansStoredBefore(before: seq<Call>, request: RunRequest, openedAt: Time, later: seq<Call>, cursor: nat)
    requires var s := Execute(EMPTY_STORE, before);
             var id := request.runId;
             id !in s.runs && id in BeginRun(s, request, openedAt).0.runs &&
             (id, cursor) in Execute(BeginRun(s, request, openedAt).0, later).observations
    ensures var s := Execute(EMPTY_STORE, before);
            var o := Execute(BeginRun(s, request, openedAt).0, later).observations[(request.runId, cursor)];
            o.knownBeforeRun <==> (request.listId, o.tweetId) in s.listReceipts
  {
    hide Execute, RunningBounded, BeginRun, RunsSound;
    var s := Execute(EMPTY_STORE, before);
    ReachableIsValid(before);
    var t := BeginRun(s, request, openedAt).0;
    BeginKeeps(s, request, openedAt);
    var u := Execute(t, later);
    ExecutionKeeps(t, later);
    var o := u.observations[(request.runId, cursor)];
    CreatedRun(s, request, openedAt);
    assert ObservationSound(u, (request.runId, cursor), o);
    var pair := (request.listId, o.tweetId);
    assert pair in u.listReceipts && u.listReceipts[pair].sequence == o.captureSequence;
    assert pair in s.listReceipts ==> s.listReceipts[pair].sequence <= s.sequence;
  }

  /** A run that stopped without a recoverable reason keeps its state through any later calls. */
  lemma TerminalForever(before: seq<Call>, later: seq<Call>, id: string)
    requires id in Execute(EMPTY_STORE, before).runs && Terminal(Execute(EMPTY_STORE, before).runs[id])
    ensures var s := Execute(EMPTY_STORE, before);
            var t := Execute(s, later);
            id in t.runs && t.runs[id].state == s.runs[id].state && Terminal(t.runs[id])
  {
    hide Execute, Valid;
    ReachableIsValid(before);
    ExecutionKeeps(Execute(EMPTY_STORE, before), later);
  }
}
