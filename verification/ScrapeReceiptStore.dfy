/** The store as the extension runs it: fields updated in place, one method a transaction. */
module ScrapeReceiptStores {
  import opened Sequences
  import opened Sorting
  import opened ScrapeReceipts
  import opened ScrapeRuns
  import opened Numbers

  lemma TabRunUnique(s: Store, tab: int, id: string)
    requires RunningBounded(s) && id in OnTab(s.runs, tab)
    ensures OnTab(s.runs, tab) == {id}
  {
    assert OnTab(s.runs, tab) <= Active(s.runs);
  }

  function ByCursor(): (Observation, Observation) -> bool { (a: Observation, b: Observation) => a.cursor < b.cursor }

  ghost predicate InCursorOrder(values: seq<Observation>) { SortedBy(ByCursor(), values) }

  /** Place one observation by its cursor. */
  function InsertByCursor(o: Observation, values: seq<Observation>): (r: seq<Observation>)
    requires InCursorOrder(values) && forall v | v in values :: v.cursor != o.cursor
    ensures InCursorOrder(r) && forall v :: v in r <==> v == o || v in values
  {
    InsertedInOrder(o, values);
    InsertBy(ByCursor(), o, values)
  }

  lemma InsertedInOrder(o: Observation, values: seq<Observation>)
    requires InCursorOrder(values) && forall v | v in values :: v.cursor != o.cursor
    ensures InCursorOrder(InsertBy(ByCursor(), o, values))
  {
    CursorsOrder(o, values);
    InsertSorts(ByCursor(), o, values);
  }

  lemma CursorsOrder(o: Observation, values: seq<Observation>)
    requires InCursorOrder(values) && forall v | v in values :: v.cursor != o.cursor
    ensures OrderOn(ByCursor(), [o] + values)
  {
    forall a, b | a in [o] + values && b in [o] + values && a != b ensures a.cursor < b.cursor || b.cursor < a.cursor {
      if a in values && b in values {
        var i :| 0 <= i < |values| && values[i] == a;
        var j :| 0 <= j < |values| && values[j] == b;
        assert if i < j then ByCursor()(values[i], values[j]) else ByCursor()(values[j], values[i]);
      }
    }
  }

  function NoObservations(): (r: seq<Observation>)
    ensures r == [] && InCursorOrder(r)
  {
    []
  }

  ghost predicate HasCursor(values: seq<Observation>, cursor: nat) {
    exists v :: v in values && v.cursor == cursor
  }

  /** Increasing cursors that are exactly an interval run through it without a gap. */
  lemma {:induction false} IntervalListing(values: seq<Observation>, low: nat, high: nat)
    requires InCursorOrder(values) && low <= high
    requires forall v | v in values :: low < v.cursor <= high
    requires forall c: nat | low < c <= high :: HasCursor(values, c)
    ensures |values| == high - low && forall i | 0 <= i < |values| :: values[i].cursor == low + 1 + i
    decreases high - low
  {
    NonemptyHasMember(values);
    if low < high {
      assert HasCursor(values, low + 1);
      var v :| v in values && v.cursor == low + 1;
      assert values[0] in values;
      assert values[0].cursor <= v.cursor;
      var rest := values[1..];
      forall u | u in rest ensures low + 1 < u.cursor <= high {
        var k :| 0 <= k < |rest| && rest[k] == u;
        assert values[0].cursor < values[k + 1].cursor && values[k + 1] in values;
      }
      forall c: nat | low + 1 < c <= high ensures HasCursor(rest, c) {
        assert HasCursor(values, c);
        var u :| u in values && u.cursor == c;
        assert u != values[0] && values == [values[0]] + rest;
      }
      IntervalListing(rest, low + 1, high);
      assert forall i | 0 < i < |values| :: values[i] == rest[i - 1];
    }
  }

  lemma CursorsAreKeys(s: Store)
    requires Valid(s)
    ensures forall key | key in s.observations :: s.observations[key].cursor == key.1
  {
    hide ReceiptsNumbered, RunsSound, RunningBounded;
    assert forall key | key in s.observations :: ObservationSound(s, key, s.observations[key]);
  }

  class ScrapeReceiptStore {
    var receipts: map<string, Receipt>
    var listReceipts: map<(string, string), ListReceipt>
    var runs: map<string, Run>
    var observations: map<(string, nat), Observation>
    var cutover: bool
    var sequence: nat

    function Contents(): Store
      reads this
    {
      Store(receipts, listReceipts, runs, observations, cutover, sequence)
    }

    constructor ()
      ensures Contents() == EMPTY_STORE && Valid(Contents())
    {
      receipts, listReceipts, runs, observations, cutover, sequence := map[], map[], map[], map[], false, 0;
    }

    /** All runs with stale leases expired, and the ones still active. */
    method ExpireAndScan(at: real) returns (allRuns: map<string, Run>, active: set<string>)
      ensures allRuns == ExpireStale(runs, at) && active == Active(allRuns)
    {
      allRuns, active := runs, {};
      var pending := runs.Keys;
      while pending != {}
        invariant pending <= runs.Keys && allRuns.Keys == runs.Keys
        invariant forall id | id in runs :: allRuns[id] == if id in pending then runs[id] else ExpireStale(runs, at)[id]
        invariant active == set id | id in runs && id !in pending && allRuns[id].state.Running?
        decreases |pending|
      {
        var id :| id in pending;
        pending := pending - {id};
        var run := allRuns[id];
        if run.state.Running? {
          if !HasLiveLease(run, at) {
            allRuns := allRuns[id := Expire(run, at)];
          } else {
            active := active + {id};
          }
        }
      }
      assert active == Active(allRuns);
    }

    predicate HoldsTab(allRuns: map<string, Run>, active: set<string>, tab: int)
      requires active == Active(allRuns)
      ensures HoldsTab(allRuns, active, tab) <==> OnTab(allRuns, tab) != {}
    {
      assert forall id :: id in OnTab(allRuns, tab) <==> id in active && allRuns[id].sourceTabId == tab;
      exists id | id in active :: allRuns[id].sourceTabId == tab
    }

    method BeginRun(request: RunRequest, openedAt: Time) returns (begun: Result<Run>)
      requires Valid(Contents())
      modifies this`runs
      ensures (Contents(), begun) == ScrapeReceipts.BeginRun(old(Contents()), request, openedAt)
      ensures Valid(Contents())
    {
      hide Valid, Extends, ExpireStale, Active, OnTab, KnownOnList;
      BeginKeeps(Contents(), request, openedAt);
      if !ValidRequest(request, openedAt) {
        return Err(InvalidInput);
      }
      if cutover {
        return Err(CutoverActive);
      }
      var at, tab := openedAt.ms, request.sourceTabId;
      var allRuns, active := ExpireAndScan(at);
      if request.runId in allRuns {
        var existing := allRuns[request.runId];
        if existing.listId != request.listId || existing.startedAtMs != request.startedAtMs.ms {
          return Err(RunConflict);
        }
        if existing.state.Running? {
          if existing.sourceTabId != tab {
            return Err(RunConflict);
          }
          existing := Renew(existing, at);
          runs := allRuns[request.runId := existing];
          return Ok(existing);
        }
        if existing.stopReason.Some? {
          if HoldsTab(allRuns, active, tab) {
            return Err(SourceTabActive);
          }
          if |active| >= MAX_ACTIVE_RUNS {
            return Err(CapacityFull);
          }
          existing := Recovered(existing, tab, at);
          runs := allRuns[request.runId := existing];
          return Ok(existing);
        }
        return Err(RunTerminal);
      }
      if HoldsTab(allRuns, active, tab) {
        return Err(SourceTabActive);
      }
      if |active| >= MAX_ACTIVE_RUNS {
        return Err(CapacityFull);
      }
      var run := NewRun(Contents(), request, at);
      runs := allRuns[request.runId := run];
      return Ok(run);
    }

    method RecordTimeline(timeline: Timeline) returns (emitted: seq<Observation>)
      requires Valid(Contents())
      modifies this
      ensures (Contents(), emitted) == ScrapeReceipts.RecordTimeline(old(Contents()), timeline)
      ensures Valid(Contents())
    {
      hide Extends, ReceiptsNumbered, RunsSound, RunningBounded, ObservationsSound, OnTab, RecordTweet;
      TimelineKeeps(Contents(), timeline);
      if Ignored(timeline) {
        return [];
      }
      var at := timeline.observedAtMs.ms;
      var run := LiveRunOnTab(timeline.sourceTabId, at);
      var listId := if run.Some? then Some(run.value.listId) else timeline.requestList;
      if listId.None? || !IsListId(listId.value) {
        return [];
      }
      var capture := Capture(timeline.endpoint, listId.value, at);
      ghost var start := Recording(Contents(), run, {}, []);
      var batchIds: set<string> := {};
      emitted := [];
      for i := 0 to |timeline.tweets|
        invariant RecordTweets(start, capture, timeline.tweets) ==
                  RecordTweets(Recording(Contents(), run, batchIds, emitted), capture, timeline.tweets[i..])
      {
        run, batchIds, emitted := CaptureTweet(timeline.tweets[i], capture, run, batchIds, emitted);
        assert timeline.tweets[i..][1..] == timeline.tweets[i + 1..];
      }
      if run.Some? && emitted != [] {
        runs := runs[run.value.runId := run.value.(updatedAtMs := at)];
      }
    }

    /** The tab's run if its lease is live; a stale one is expired. */
    method LiveRunOnTab(tab: int, at: real) returns (run: Option<Run>)
      requires Valid(Contents())
      modifies this`runs
      ensures (Contents(), run) == TabRun(old(Contents()), tab, at)
    {
      run := FindRunOnTab(tab);
      hide Valid, OnTab;
      if run.Some? && !HasLiveLease(run.value, at) {
        runs := runs[run.value.runId := Expire(run.value, at)];
        run := None;
      }
    }

    /** Record one captured post, and feed it to the run if there is one. */
    method CaptureTweet(
        tweet: Tweet, capture: Capture, run: Option<Run>, batchIds: set<string>, emitted: seq<Observation>)
      returns (run': Option<Run>, batchIds': set<string>, emitted': seq<Observation>)
      modifies this`receipts, this`listReceipts, this`observations, this`sequence
      ensures Recording(Contents(), run', batchIds', emitted') ==
              RecordTweet(old(Recording(Contents(), run, batchIds, emitted)), capture, tweet)
    {
      run', batchIds', emitted' := run, batchIds, emitted;
      if !IsTweet(tweet) || tweet.id in batchIds {
        return;
      }
      batchIds' := batchIds + {tweet.id};
      var pair := (capture.listId, tweet.id);
      if tweet.id !in receipts || pair !in listReceipts {
        sequence := sequence + 1;
      }
      if tweet.id !in receipts {
        receipts := receipts[tweet.id := Receipt(capture.endpoint, capture.listId, tweet.createdAt.value, sequence)];
      }
      if pair !in listReceipts {
        listReceipts := listReceipts[pair := ListReceipt(tweet.createdAt.value, sequence)];
      }
      if run.Some? {
        var cursor := run.value.lastCursor + 1;
        run' := Some(run.value.(lastCursor := cursor));
        var known := listReceipts[pair].sequence;
        var observation := Observation(run.value.runId, cursor, tweet.id, known, known <= run.value.baselineSequence,
                                       capture.observedAtMs, tweet.createdAt.value, capture.endpoint);
        observations := observations[(run.value.runId, cursor) := observation];
        emitted' := emitted + [observation];
      }
    }

    method FindRunOnTab(tab: int) returns (run: Option<Run>)
      requires Valid(Contents())
      ensures run.None? ==> OnTab(runs, tab) == {}
      ensures run.Some? ==> run.value.runId in runs && run.value == runs[run.value.runId] &&
                            OnTab(runs, tab) == {run.value.runId}
    {
      var pending := runs.Keys;
      while pending != {}
        invariant pending <= runs.Keys
        invariant forall id | id in OnTab(runs, tab) :: id in pending
        decreases |pending|
      {
        var id :| id in pending;
        if runs[id].state.Running? && runs[id].sourceTabId == tab {
          TabRunUnique(Contents(), tab, id);
          return Some(runs[id]);
        }
        pending := pending - {id};
      }
      return None;
    }

    /** Stop the given running runs one by one. */
    method StopRuns(ids: set<string>, state: RunState, reason: Option<StopReason>, at: real)
      requires ids <= runs.Keys
      modifies this`runs
      ensures runs == map id | id in old(runs) ::
                if id in ids then StopFor(old(runs)[id], state, reason, at) else old(runs)[id]
    {
      hide StopFor;
      var pending := ids;
      while pending != {}
        invariant pending <= ids <= runs.Keys == old(runs.Keys)
        invariant forall id | id in runs ::
                    runs[id] == if id in ids - pending then StopFor(old(runs)[id], state, reason, at) else old(runs)[id]
        decreases |pending|
      {
        var id :| id in pending;
        pending := pending - {id};
        runs := runs[id := StopFor(runs[id], state, reason, at)];
      }
    }

    method FinishRunsForSourceTab(tab: int, finishedAt: Time) returns (count: Result<nat>)
      requires Valid(Contents())
      modifies this`runs
      ensures (Contents(), count) == ScrapeReceipts.FinishRunsForSourceTab(old(Contents()), tab, finishedAt)
      ensures Valid(Contents())
    {
      hide Valid, Extends;
      FinishTabKeeps(Contents(), tab, finishedAt);
      if !IsSourceTabId(tab) || finishedAt.NotFinite? {
        return Err(InvalidInput);
      }
      var activeRuns := OnTab(runs, tab);
      StopRuns(activeRuns, Aborted, Some(SourceTabClosed), finishedAt.ms);
      return Ok(|activeRuns|);
    }

    method BeginCutover(finishedAt: Time) returns (count: Result<nat>)
      requires Valid(Contents())
      modifies this`runs, this`cutover
      ensures (Contents(), count) == ScrapeReceipts.BeginCutover(old(Contents()), finishedAt)
      ensures Valid(Contents())
    {
      hide Valid, Extends;
      CutoverKeeps(Contents(), finishedAt);
      if finishedAt.NotFinite? {
        return Err(InvalidInput);
      }
      cutover := true;
      var activeRuns := Active(runs);
      StopRuns(activeRuns, Failed, None, finishedAt.ms);
      return Ok(|activeRuns|);
    }

    method FinishCutover()
      requires Valid(Contents())
      modifies this`cutover
      ensures Contents() == ScrapeReceipts.FinishCutover(old(Contents())) && Valid(Contents())
    {
      CutoverKeeps(Contents(), NotFinite);
      cutover := false;
    }

    method RenewRun(runId: string, tab: int, renewedAt: Time) returns (renewed: Result<Run>)
      requires Valid(Contents())
      modifies this`runs
      ensures (Contents(), renewed) == ScrapeReceipts.RenewRun(old(Contents()), runId, tab, renewedAt)
      ensures Valid(Contents())
    {
      hide Valid, Extends;
      RenewKeeps(Contents(), runId, tab, renewedAt);
      if !IsRunId(runId) || !IsSourceTabId(tab) || renewedAt.NotFinite? {
        return Err(InvalidInput);
      }
      if runId !in runs {
        return Err(UnknownRun);
      }
      var run := runs[runId];
      if !run.state.Running? {
        return Err(RunTerminal);
      }
      if run.sourceTabId != tab {
        return Err(RunConflict);
      }
      run := Renew(run, renewedAt.ms);
      runs := runs[runId := run];
      return Ok(run);
    }

    method FinishRun(runId: string, state: RunState, finishedAt: Time) returns (finished: Result<Run>)
      requires Valid(Contents())
      modifies this`runs
      ensures (Contents(), finished) == ScrapeReceipts.FinishRun(old(Contents()), runId, state, finishedAt)
      ensures Valid(Contents())
    {
      hide Valid, Extends;
      FinishKeeps(Contents(), runId, state, finishedAt);
      if !IsRunId(runId) || state.Running? || finishedAt.NotFinite? {
        return Err(InvalidInput);
      }
      if runId !in runs {
        return Err(UnknownRun);
      }
      var run := runs[runId];
      if !run.state.Running? && run.state != state {
        return Err(RunTerminal);
      }
      run := Stop(run, state, finishedAt.ms);
      runs := runs[runId := run];
      return Ok(run);
    }

    /** The run's observations above a cursor, placed in cursor order. */
    method CollectAbove(runId: string, afterCursor: int) returns (values: seq<Observation>)
      requires Valid(Contents())
      ensures InCursorOrder(values)
      ensures forall v | v in values ::
                afterCursor < v.cursor && (runId, v.cursor) in observations && v == observations[(runId, v.cursor)]
      ensures forall key | key in observations && key.0 == runId && afterCursor < key.1 ::
                observations[key] in values && observations[key].cursor == key.1
    {
      hide Valid, InCursorOrder, InsertByCursor;
      CursorsAreKeys(Contents());
      values := NoObservations();
      var all := set key | key in observations && key.0 == runId;
      var pending := all;
      while pending != {}
        invariant pending <= all && InCursorOrder(values)
        invariant forall v | v in values ::
                    afterCursor < v.cursor && (runId, v.cursor) in all - pending && v == observations[(runId, v.cursor)]
        invariant forall key | key in all - pending && afterCursor < key.1 :: observations[key] in values
        decreases |pending|
      {
        var key :| key in pending;
        pending := pending - {key};
        if observations[key].cursor > afterCursor {
          values := InsertByCursor(observations[key], values);
        }
      }
    }

    /** A page of a run's observations: every one above the cursor, in cursor order, no gaps. */
    method ReadObservations(runId: string, afterCursor: int) returns (page: Result<seq<Observation>>)
      requires Valid(Contents())
      ensures !IsRunId(runId) || !(0 <= afterCursor <= MAX_SAFE_INTEGER) ==> page == Err(InvalidInput)
      ensures IsRunId(runId) && 0 <= afterCursor <= MAX_SAFE_INTEGER ==>
                page.Ok? &&
                var last := if runId in runs then runs[runId].lastCursor else 0;
                |page.value| == (if last <= afterCursor then 0 else last - afterCursor) &&
                forall i | 0 <= i < |page.value| ::
                  (runId, afterCursor + 1 + i) in observations &&
                  page.value[i] == observations[(runId, afterCursor + 1 + i)]
    {
      if !IsRunId(runId) || !(0 <= afterCursor <= MAX_SAFE_INTEGER) {
        return Err(InvalidInput);
      }
      var values := CollectAbove(runId, afterCursor);
      hide Valid, InCursorOrder;
      ghost var last: nat := if runId in runs then runs[runId].lastCursor else 0;
      var low: nat := afterCursor;
      forall c: nat | low < c <= last ensures HasCursor(values, c) {
        assert (runId, c) in observations && observations[(runId, c)].cursor == c;
      }
      IntervalListing(values, low, if last < low then low else last);
      forall i | 0 <= i < |values|
        ensures (runId, afterCursor + 1 + i) in observations && values[i] == observations[(runId, afterCursor + 1 + i)]
      {
        assert values[i] in values;
      }
      return Ok(values);
    }
  }
}
