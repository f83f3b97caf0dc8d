/** Leases and stops: which runs a call stops, and how long a run is fed. */
module ScrapeLeases {
  import opened Sequences
  import opened ScrapeReceipts
  import opened ScrapeRuns

  /** The run runs, and its lease is not over. */
  ghost predicate LiveAt(s: Store, id: string, at: real) {
    id in s.runs && s.runs[id].state.Running? && at < s.runs[id].leaseExpiresAtMs
  }

  function StoppedRun(run: Run, state: RunState, reason: Option<StopReason>, at: real): Run {
    run.(state := state, stopReason := reason, finishedAtMs := Some(at), updatedAtMs := at)
  }

  // Beginning -----------------------------------------------------------------------------------------------

  /** A successful begin: the run runs on its tab with ninety seconds of lease; of the other runs
      exactly the running ones whose lease is over stop. */
  lemma BeginLeases(s: Store, request: RunRequest, openedAt: Time)
    requires BeginRun(s, request, openedAt).1.Ok?
    ensures openedAt.At?
    ensures var (t, begun), at := BeginRun(s, request, openedAt), openedAt.ms;
            t == s.(runs := t.runs) && t.runs.Keys == s.runs.Keys + {request.runId} &&
            t.runs[request.runId] == begun.value && begun.value.state.Running? &&
            begun.value.listId == request.listId && begun.value.sourceTabId == request.sourceTabId &&
            begun.value.startedAtMs == request.startedAtMs.ms &&
            begun.value.leaseExpiresAtMs == at + 90_000.0 && begun.value.updatedAtMs == at &&
            begun.value.stopReason ==
            (if LiveAt(s, request.runId, at) then s.runs[request.runId].stopReason else None) &&
            forall id | id in s.runs && id != request.runId ::
              t.runs[id] ==
                if s.runs[id].state.Running? && s.runs[id].leaseExpiresAtMs <= at
                then StoppedRun(s.runs[id], Failed, Some(LeaseExpired), at) else s.runs[id]
  {
    hide Active, OnTab, KnownOnList;
  }

  ghost predicate FreeTab(s: Store, tab: int, at: real) {
    forall id | LiveAt(s, id, at) :: s.runs[id].sourceTabId != tab
  }

  function LiveRuns(s: Store, at: real): set<string> {
    set id | id in s.runs && s.runs[id].state.Running? && at < s.runs[id].leaseExpiresAtMs
  }

  /** A valid request succeeds exactly if no cutover is in progress and the run is live on the
      same tab, or is new or recoverable with a free tab and a free place among the four. */
  lemma BeginSucceeds(s: Store, request: RunRequest, openedAt: Time)
    requires ValidRequest(request, openedAt)
    ensures var id, at, begun := request.runId, openedAt.ms, BeginRun(s, request, openedAt).1;
            begun.Ok? <==>
              !s.cutover &&
              if LiveAt(s, id, at) then
                SameParameters(s, request) && s.runs[id].sourceTabId == request.sourceTabId
              else
                (id in s.runs ==>
                  SameParameters(s, request) && (s.runs[id].state.Running? || s.runs[id].stopReason.Some?)) &&
                FreeTab(s, request.sourceTabId, at) && |LiveRuns(s, at)| < 4
    ensures BeginRun(s, request, openedAt).1.Err? ==> BeginRun(s, request, openedAt).0 == s
  {
    var id, at := request.runId, openedAt.ms;
    var runs := ExpireStale(s.runs, at);
    assert Active(runs) == LiveRuns(s, at);
    assert OnTab(runs, request.sourceTabId) == {} <==> FreeTab(s, request.sourceTabId, at) by {
      forall id | LiveAt(s, id, at) && s.runs[id].sourceTabId == request.sourceTabId
        ensures id in OnTab(runs, request.sourceTabId)
      {
      }
      if x :| x in OnTab(runs, request.sourceTabId) {
        assert LiveAt(s, x, at);
      }
    }
    hide Active, OnTab, LiveRuns, FreeTab, KnownOnList, IsRunId, IsListId;
  }

  ghost predicate SameParameters(s: Store, request: RunRequest) {
    request.runId in s.runs && request.startedAtMs.At? && s.runs[request.runId].listId == request.listId &&
    s.runs[request.runId].startedAtMs == request.startedAtMs.ms
  }

  // Renewing and stopping -----------------------------------------------------------------------------------

  /** Renewing takes a running run of that tab, and changes nothing but its lease. */
  lemma RenewLeases(s: Store, runId: string, tab: int, renewedAt: Time)
    ensures var (t, renewed) := RenewRun(s, runId, tab, renewedAt);
            (renewed.Ok? <==>
               IsRunId(runId) && IsSourceTabId(tab) && renewedAt.At? && runId in s.runs &&
               s.runs[runId].state.Running? && s.runs[runId].sourceTabId == tab) &&
            (renewed.Err? ==> t == s) &&
            (renewed.Ok? ==>
               renewed.value ==
                 s.runs[runId].(leaseExpiresAtMs := renewedAt.ms + 90_000.0, updatedAtMs := renewedAt.ms) &&
               t == s.(runs := s.runs[runId := renewed.value]))
  {
  }

  /** Finishing takes a running run, or one that ended in the same state, and keeps its reason. */
  lemma FinishStops(s: Store, runId: string, state: RunState, finishedAt: Time)
    ensures var (t, finished) := FinishRun(s, runId, state, finishedAt);
            (finished.Ok? <==>
               IsRunId(runId) && !state.Running? && finishedAt.At? && runId in s.runs &&
               (s.runs[runId].state.Running? || s.runs[runId].state == state)) &&
            (finished.Err? ==> t == s) &&
            (finished.Ok? ==>
               finished.value == StoppedRun(s.runs[runId], state, s.runs[runId].stopReason, finishedAt.ms) &&
               t == s.(runs := s.runs[runId := finished.value]))
  {
  }

  /** Closing a tab aborts exactly its running runs, recoverably. */
  lemma TabStops(s: Store, tab: int, finishedAt: Time)
    requires IsSourceTabId(tab) && finishedAt.At?
    ensures var (t, count) := FinishRunsForSourceTab(s, tab, finishedAt);
            t == s.(runs := t.runs) && t.runs.Keys == s.runs.Keys &&
            (forall id | id in s.runs ::
               t.runs[id] ==
                 if s.runs[id].state.Running? && s.runs[id].sourceTabId == tab
                 then StoppedRun(s.runs[id], Aborted, Some(SourceTabClosed), finishedAt.ms) else s.runs[id]) &&
            count == Ok(|set id | id in s.runs && s.runs[id].state.Running? && s.runs[id].sourceTabId == tab|)
  {
    assert OnTab(s.runs, tab) == set id | id in s.runs && s.runs[id].state.Running? && s.runs[id].sourceTabId == tab;
  }

  /** A cutover fails all running runs, with the reason they had, and refuses new ones. */
  lemma CutoverStops(s: Store, finishedAt: Time)
    requires finishedAt.At?
    ensures var (t, count) := BeginCutover(s, finishedAt);
            t == s.(cutover := true, runs := t.runs) && t.runs.Keys == s.runs.Keys &&
            (forall id | id in s.runs ::
               t.runs[id] ==
                 if s.runs[id].state.Running?
                 then StoppedRun(s.runs[id], Failed, s.runs[id].stopReason, finishedAt.ms) else s.runs[id]) &&
            count == Ok(|set id | id in s.runs && s.runs[id].state.Running?|)
  {
    assert Active(s.runs) == set id | id in s.runs && s.runs[id].state.Running?;
  }

  // Feeding -------------------------------------------------------------------------------------------------

  predicate ReadableTweet(tweet: Tweet) { tweet.id != "" && tweet.createdAt.Some? }

  /** The identifiers of the readable posts, each where it comes first. */
  function FirstIds(tweets: seq<Tweet>): (ids: seq<string>)
    ensures forall id :: id in ids <==> exists tweet :: tweet in tweets && ReadableTweet(tweet) && tweet.id == id
    ensures Distinct(ids)
  {
    if tweets == [] then []
    else
      var front, last := FirstIds(tweets[..|tweets| - 1]), tweets[|tweets| - 1];
      assert tweets == tweets[..|tweets| - 1] + [last];
      if ReadableTweet(last) && last.id !in front then front + [last.id] else front
  }

  function IdsOf(emitted: seq<Observation>): seq<string> {
    seq(|emitted|, i requires 0 <= i < |emitted| => emitted[i].tweetId)
  }

  lemma {:induction false} RecordSnoc(rec: Recording, capture: Capture, tweets: seq<Tweet>, last: Tweet)
    ensures RecordTweets(rec, capture, tweets + [last]) ==
            RecordTweet(RecordTweets(rec, capture, tweets), capture, last)
    decreases |tweets|
  {
    hide RecordTweet;
    if tweets == [] {
      assert ([last])[1..] == [];
      assert tweets + [last] == [last];
    } else {
      assert (tweets + [last])[1..] == tweets[1..] + [last];
      RecordSnoc(RecordTweet(rec, capture, tweets[0]), capture, tweets[1..], last);
    }
  }

  /** What recording some posts for a run has come to. */
  ghost predicate Fed(start: Recording, capture: Capture, tweets: seq<Tweet>, rec: Recording) {
    var ids := FirstIds(tweets);
    && (forall id :: id in rec.batchIds <==> id in ids)
    && rec.store.runs == start.store.runs && rec.store.cutover == start.store.cutover
    && (forall id | id in ids :: id in rec.store.receipts && (capture.listId, id) in rec.store.listReceipts)
    && match start.run
       case None => rec.run.None? && rec.emitted == []
       case Some(run) =>
         && rec.run == Some(run.(lastCursor := run.lastCursor + |ids|)) && IdsOf(rec.emitted) == ids
         && forall i | 0 <= i < |ids| ::
              var o := rec.emitted[i];
              o.runId == run.runId && o.cursor == run.lastCursor + 1 + i && o.observedAtMs == capture.observedAtMs &&
              o.sourceEndpoint == capture.endpoint && rec.store.observations.Keys >= {(o.runId, o.cursor)}
  }

  lemma FedOneMore(start: Recording, capture: Capture, tweets: seq<Tweet>, rec: Recording, last: Tweet)
    requires Fed(start, capture, tweets, rec)
    ensures Fed(start, capture, tweets + [last], RecordTweet(rec, capture, last))
  {
    assert (tweets + [last])[..|tweets|] == tweets;
    hide Distinct;
    var ids, next := FirstIds(tweets), RecordTweet(rec, capture, last);
    if ReadableTweet(last) && last.id !in ids {
      assert FirstIds(tweets + [last]) == ids + [last.id];
      if start.run.Some? {
        assert next.emitted[|rec.emitted|].tweetId == last.id;
        assert IdsOf(next.emitted) == IdsOf(rec.emitted) + [last.id];
      }
    } else {
      assert FirstIds(tweets + [last]) == ids;
    }
  }

  lemma NothingFed(start: Recording, capture: Capture)
    requires start.batchIds == {} && start.emitted == []
    ensures Fed(start, capture, [], start)
  {
  }

  lemma {:induction false} RecordingFeeds(start: Recording, capture: Capture, tweets: seq<Tweet>)
    requires start.batchIds == {} && start.emitted == []
    ensures Fed(start, capture, tweets, RecordTweets(start, capture, tweets))
    decreases |tweets|
  {
    hide Fed, RecordTweet, FirstIds;
    if tweets == [] {
      NothingFed(start, capture);
    } else {
      var front, last := tweets[..|tweets| - 1], tweets[|tweets| - 1];
      RecordingFeeds(start, capture, front);
      RecordSnoc(start, capture, front, last);
      assert tweets == front + [last];
      FedOneMore(start, capture, front, RecordTweets(start, capture, front), last);
    }
  }

  ghost predicate Heard(timeline: Timeline) {
    !timeline.endpoint.OtherEndpoint? && timeline.observedAtMs.At? && IsSourceTabId(timeline.sourceTabId) &&
    timeline.tweets != []
  }

  /** The observations a run gets from some posts: one for each distinct readable post, in order,
      under its next cursors. */
  ghost predicate FeedsRun(run: Run, timeline: Timeline, emitted: seq<Observation>) {
    && timeline.observedAtMs.At? && IdsOf(emitted) == FirstIds(timeline.tweets)
    && forall i | 0 <= i < |emitted| ::
         emitted[i].runId == run.runId && emitted[i].cursor == run.lastCursor + 1 + i &&
         emitted[i].observedAtMs == timeline.observedAtMs.ms && emitted[i].sourceEndpoint == timeline.endpoint
  }

  /** Every readable post is numbered, and numbered on the list. */
  ghost predicate Numbered(s: Store, tweets: seq<Tweet>, listId: string) {
    forall id | id in FirstIds(tweets) :: id in s.receipts && (listId, id) in s.listReceipts
  }

  lemma OneRunOnTab(s: Store, id: string)
    requires RunningBounded(s) && id in s.runs && s.runs[id].state.Running?
    ensures OnTab(s.runs, s.runs[id].sourceTabId) == {id}
  {
    var ids := OnTab(s.runs, s.runs[id].sourceTabId);
    assert id in ids && ids <= Active(s.runs);
  }

  /** A timeline on the tab of a running run feeds it while its lease lasts; from then on it
      stops the run and hands out nothing. Other runs stay as they are. */
  lemma TimelineFeeds(s: Store, timeline: Timeline, id: string)
    requires Valid(s) && Heard(timeline)
    requires id in s.runs && s.runs[id].state.Running? && s.runs[id].sourceTabId == timeline.sourceTabId
    ensures var (t, emitted), run, at := RecordTimeline(s, timeline), s.runs[id], timeline.observedAtMs.ms;
            if at < run.leaseExpiresAtMs then
              FeedsRun(run, timeline, emitted) && Numbered(t, timeline.tweets, run.listId) &&
              t.runs == s.runs[id := run.(lastCursor := run.lastCursor + |emitted|,
                                          updatedAtMs := if emitted == [] then run.updatedAtMs else at)]
            else emitted == [] && t.runs == s.runs[id := StoppedRun(run, Failed, Some(LeaseExpired), at)]
  {
    hide ReceiptsNumbered, ObservationsSound, RecordTweets, OnTab, FirstIds, IsListId, NumberPair;
    var at, run := timeline.observedAtMs.ms, s.runs[id];
    OneRunOnTab(s, id);
    assert run.runId == id && IsListId(run.listId);
    var (current, fed) := TabRun(s, timeline.sourceTabId, at);
    var listId := if fed.Some? then Some(fed.value.listId) else timeline.requestList;
    if listId.Some? {
      var start := Recording(current, fed, {}, []);
      RecordingFeeds(start, Capture(timeline.endpoint, listId.value, at), timeline.tweets);
      hide RunsSound, RunningBounded;
    }
  }

  /** A timeline on a tab without a running run hands out nothing and leaves the runs alone. */
  lemma TimelineWithoutRun(s: Store, timeline: Timeline)
    requires Heard(timeline)
    requires forall id | id in s.runs && s.runs[id].state.Running? :: s.runs[id].sourceTabId != timeline.sourceTabId
    ensures var (t, emitted) := RecordTimeline(s, timeline);
            emitted == [] && t.runs == s.runs &&
            if timeline.requestList.Some? && IsListId(timeline.requestList.value)
            then Numbered(t, timeline.tweets, timeline.requestList.value) else t == s
  {
    hide RecordTweets, FirstIds, IsListId, NumberPair;
    assert OnTab(s.runs, timeline.sourceTabId) == {};
    if timeline.requestList.Some? {
      RecordingFeeds(Recording(s, None, {}, []),
                     Capture(timeline.endpoint, timeline.requestList.value, timeline.observedAtMs.ms), timeline.tweets);
    }
  }

  // Over calls and times --------------------------------------------------------------------------------------

  /** The call begins or renews the run. */
  predicate Leases(call: Call, id: string) {
    match call
    case CallBeginRun(request, _) => request.runId == id
    case CallRenewRun(runId, _, _) => runId == id
    case _ => false
  }

  /** A call that neither begins nor renews a run leaves its tab, its list and its lease, and does
      not start it again. */
  ghost predicate SameLease(run: Run, later: Run) {
    && later.sourceTabId == run.sourceTabId && later.listId == run.listId
    && later.leaseExpiresAtMs == run.leaseExpiresAtMs && (later.state.Running? ==> run.state.Running?)
  }

  lemma TimelineKeepsLease(s: Store, timeline: Timeline, id: string)
    requires Valid(s) && id in s.runs
    ensures id in RecordTimeline(s, timeline).0.runs && SameLease(s.runs[id], RecordTimeline(s, timeline).0.runs[id])
  {
    hide Valid, RecordTimeline, LiveAt;
    if Heard(timeline) {
      if x :| x in s.runs && s.runs[x].state.Running? && s.runs[x].sourceTabId == timeline.sourceTabId {
        TimelineFeeds(s, timeline, x);
      } else {
        TimelineWithoutRun(s, timeline);
      }
    } else {
      NotHeard(s, timeline);
    }
  }

  lemma NotHeard(s: Store, timeline: Timeline)
    requires !Heard(timeline)
    ensures RecordTimeline(s, timeline) == (s, [])
  {
  }

  lemma StepKeepsLease(s: Store, call: Call, id: string)
    requires Valid(s) && id in s.runs && !Leases(call, id)
    ensures id in Step(s, call).runs && SameLease(s.runs[id], Step(s, call).runs[id])
  {
    hide Valid, RecordTimeline;
    match call
    case CallBeginRun(request, openedAt) =>
      if BeginRun(s, request, openedAt).1.Ok? {
        BeginLeases(s, request, openedAt);
        hide BeginRun;
      }
    case CallRecordTimeline(timeline) => TimelineKeepsLease(s, timeline, id);
    case _ =>
  }

  lemma {:induction false} LeaseLasts(s: Store, calls: seq<Call>, id: string)
    requires Valid(s) && id in s.runs && forall call | call in calls :: !Leases(call, id)
    ensures id in Execute(s, calls).runs && SameLease(s.runs[id], Execute(s, calls).runs[id])
    decreases |calls|
  {
    hide Valid, Step, Leases;
    if calls != [] {
      assert calls[0] in calls && forall call | call in calls[1..] :: call in calls;
      StepKeepsLease(s, calls[0], id);
      StepKeeps(s, calls[0]) by { hide Extends; }
      LeaseLasts(Step(s, calls[0]), calls[1..], id);
    }
  }

  /** A run that was granted a lease at `at`, by beginning or renewing it, and was neither leased
      again nor stopped since. */
  ghost predicate GrantedAt(s: Store, call: Call, id: string, tab: int, at: real) {
    match call
    case CallBeginRun(request, openedAt) =>
      request.runId == id && request.sourceTabId == tab && openedAt == At(at) && BeginRun(s, request, openedAt).1.Ok?
    case CallRenewRun(runId, renewedTab, renewedAt) =>
      runId == id && renewedTab == tab && renewedAt == At(at) && RenewRun(s, runId, renewedTab, renewedAt).1.Ok?
    case _ => false
  }

  lemma GrantLeases(s: Store, call: Call, id: string, tab: int, at: real)
    requires GrantedAt(s, call, id, tab, at)
    ensures var t := Step(s, call);
            id in t.runs && t.runs[id].state.Running? && t.runs[id].sourceTabId == tab &&
            t.runs[id].leaseExpiresAtMs == at + 90_000.0
  {
    match call
    case CallBeginRun(request, openedAt) =>
      BeginLeases(s, request, openedAt);
      hide BeginRun;
    case CallRenewRun(runId, renewedTab, renewedAt) => RenewLeases(s, runId, renewedTab, renewedAt);
  }

  /** Before `until` the timeline feeds the run; from then on it stops it. */
  ghost predicate FedUntil(s: Store, t: Store, emitted: seq<Observation>, timeline: Timeline, id: string, until: real) {
    && id in s.runs && id in t.runs && timeline.observedAtMs.At?
    && if timeline.observedAtMs.ms < until then
         FeedsRun(s.runs[id], timeline, emitted) && Numbered(t, timeline.tweets, s.runs[id].listId) &&
         t.runs[id].state.Running?
       else
         emitted == [] && t.runs[id] == StoppedRun(s.runs[id], Failed, Some(LeaseExpired), timeline.observedAtMs.ms)
  }

  /** Take any run begun or renewed at `at`, and any later calls that neither lease it again nor
      stop it. A timeline on its tab before ninety seconds are over feeds it one observation for
      each distinct readable post, in order; from then on it stops the run and hands out nothing. */
  lemma FedWhileLeased(
      before: seq<Call>, grant: Call, later: seq<Call>, id: string, tab: int, at: real, timeline: Timeline)
    requires GrantedAt(Execute(EMPTY_STORE, before), grant, id, tab, at)
    requires forall call | call in later :: !Leases(call, id)
    requires Heard(timeline) && timeline.sourceTabId == tab
    requires var s := Execute(Step(Execute(EMPTY_STORE, before), grant), later);
             id in s.runs && s.runs[id].state.Running?
    ensures var s := Execute(Step(Execute(EMPTY_STORE, before), grant), later);
            FedUntil(s, RecordTimeline(s, timeline).0, RecordTimeline(s, timeline).1, timeline, id, at + 90_000.0)
  {
    hide Execute, Valid, Step, RecordTimeline, GrantedAt, Leases, FeedsRun, Numbered, Heard;
    var start := Execute(EMPTY_STORE, before);
    ReachableIsValid(before);
    StepKeeps(start, grant);
    GrantLeases(start, grant, id, tab, at);
    var granted := Step(start, grant);
    ExecutionKeeps(granted, later);
    LeaseLasts(granted, later, id);
    HeardHasTime(timeline);
    TimelineFeeds(Execute(granted, later), timeline, id);
  }

  lemma HeardHasTime(timeline: Timeline)
    requires Heard(timeline)
    ensures timeline.observedAtMs.At?
  {
  }
}
