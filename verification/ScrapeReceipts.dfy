/** The scrape receipt store: runs with leases, receipts numbered in capture order, and each
    run's observations. Every public method is one atomic transaction, since overlapping
    read-write transactions are serialised (section 2.7 of the Indexed Database API); an
    aborted transaction leaves the store as it was. */
module ScrapeReceipts {
  import opened Sequences
  import opened Numbers

  const MAX_ACTIVE_RUNS := 4
  const SCRAPE_RUN_LEASE_MS := 90_000.0

  /** A number a client sends as a time. */
  datatype Time = NotFinite | At(ms: real)

  datatype RunState = Running | Aborted | Completed | Failed

  datatype StopReason = LeaseExpired | SourceTabClosed

  datatype Run = Run(
    runId: string,
    listId: string,
    sourceTabId: int,
    startedAtMs: real,
    state: RunState,
    stopReason: Option<StopReason>,
    finishedAtMs: Option<real>,
    leaseExpiresAtMs: real,
    updatedAtMs: real,
    baselineSequence: nat,
    knownListCount: nat,
    lastCursor: nat
  )

  datatype Endpoint = ListLatestTweetsTimeline | SearchTimeline | OtherEndpoint

  /** `createdAt` is absent when it is not a readable date. */
  datatype Tweet = Tweet(id: string, createdAt: Option<string>)

  datatype Receipt = Receipt(endpoint: Endpoint, listId: string, postAt: string, sequence: nat)

  datatype ListReceipt = ListReceipt(postAt: string, sequence: nat)

  datatype Observation = Observation(
    runId: string,
    cursor: nat,
    tweetId: string,
    captureSequence: nat,
    knownBeforeRun: bool,
    observedAtMs: real,
    postAt: string,
    sourceEndpoint: Endpoint
  )

  datatype Store = Store(
    receipts: map<string, Receipt>,
    listReceipts: map<(string, string), ListReceipt>,
    runs: map<string, Run>,
    observations: map<(string, nat), Observation>,
    cutover: bool,
    sequence: nat
  )

  const EMPTY_STORE := Store(map[], map[], map[], map[], false, 0)

  datatype Error =
    | InvalidInput | CutoverActive | RunConflict | SourceTabActive | CapacityFull | RunTerminal | UnknownRun

  datatype Result<+T> = Ok(value: T) | Err(error: Error)

  // Input checks ------------------------------------------------------------------------------------

  predicate IsDigit(c: char) { '0' <= c <= '9' }

  predicate IsRunId(id: string) {
    16 <= |id| <= 64 &&
    forall i | 0 <= i < |id| :: IsDigit(id[i]) || 'a' <= id[i] <= 'f' || 'A' <= id[i] <= 'F' || id[i] == '-'
  }

  predicate IsListId(id: string) { 4 <= |id| <= 25 && forall i | 0 <= i < |id| :: IsDigit(id[i]) }

  predicate IsSourceTabId(id: int) { 0 <= id <= MAX_SAFE_INTEGER }

  predicate IsTimeline(endpoint: Endpoint) { !endpoint.OtherEndpoint? }

  predicate IsTweet(tweet: Tweet) { tweet.id != "" && tweet.createdAt.Some? }

  // Leases --------------------------------------------------------------------------------------------

  predicate HasLiveLease(run: Run, at: real) { run.leaseExpiresAtMs > at }

  function Renew(run: Run, at: real): Run {
    run.(leaseExpiresAtMs := at + SCRAPE_RUN_LEASE_MS, updatedAtMs := at)
  }

  function Stop(run: Run, state: RunState, at: real): Run {
    run.(state := state, finishedAtMs := Some(at), updatedAtMs := at)
  }

  function StopFor(run: Run, state: RunState, reason: Option<StopReason>, at: real): Run {
    if reason.None? then Stop(run, state, at) else Stop(run, state, at).(stopReason := reason)
  }

  function Expire(run: Run, at: real): Run {
    StopFor(run, Failed, Some(LeaseExpired), at)
  }

  function ExpireStale(runs: map<string, Run>, at: real): map<string, Run> {
    map id | id in runs ::
      if runs[id].state.Running? && !HasLiveLease(runs[id], at) then Expire(runs[id], at) else runs[id]
  }

  function Active(runs: map<string, Run>): set<string> {
    set id | id in runs && runs[id].state.Running?
  }

  function OnTab(runs: map<string, Run>, tab: int): set<string> {
    set id | id in runs && runs[id].state.Running? && runs[id].sourceTabId == tab
  }

  function KnownOnList(listReceipts: map<(string, string), ListReceipt>, listId: string): set<(string, string)> {
    set pair | pair in listReceipts && pair.0 == listId
  }

  // The transactions as functions of the store ----------------------------------------------------------

  datatype RunRequest = RunRequest(runId: string, listId: string, sourceTabId: int, startedAtMs: Time)

  predicate ValidRequest(request: RunRequest, openedAt: Time) {
    && IsRunId(request.runId) && IsListId(request.listId) && IsSourceTabId(request.sourceTabId)
    && request.startedAtMs.At? && openedAt.At?
  }

  function NewRun(store: Store, request: RunRequest, at: real): Run
    requires request.startedAtMs.At?
  {
    Run(request.runId, request.listId, request.sourceTabId, request.startedAtMs.ms, Running, None, None,
        at + SCRAPE_RUN_LEASE_MS, at, store.sequence, |KnownOnList(store.listReceipts, request.listId)|, 0)
  }

  function Recovered(run: Run, tab: int, at: real): Run {
    Renew(run.(finishedAtMs := None, stopReason := None, sourceTabId := tab, state := Running), at)
  }

  /** What beginning a run decides once stale leases are expired: the run to store, or an error
      that aborts the whole transaction. */
  function BegunRun(store: Store, runs: map<string, Run>, request: RunRequest, at: real): Result<Run>
    requires request.startedAtMs.At?
  {
    var tab := request.sourceTabId;
    if request.runId in runs then
      var existing := runs[request.runId];
      if existing.listId != request.listId || existing.startedAtMs != request.startedAtMs.ms then Err(RunConflict)
      else if existing.state.Running? then
        if existing.sourceTabId != tab then Err(RunConflict) else Ok(Renew(existing, at))
      else if existing.stopReason.Some? then
        if OnTab(runs, tab) != {} then Err(SourceTabActive)
        else if |Active(runs)| >= MAX_ACTIVE_RUNS then Err(CapacityFull)
        else Ok(Recovered(existing, tab, at))
      else Err(RunTerminal)
    else if OnTab(runs, tab) != {} then Err(SourceTabActive)
    else if |Active(runs)| >= MAX_ACTIVE_RUNS then Err(CapacityFull)
    else Ok(NewRun(store, request, at))
  }

  function BeginRun(store: Store, request: RunRequest, openedAt: Time): (Store, Result<Run>) {
    if !ValidRequest(request, openedAt) then (store, Err(InvalidInput))
    else if store.cutover then (store, Err(CutoverActive))
    else
      var runs := ExpireStale(store.runs, openedAt.ms);
      var begun := BegunRun(store, runs, request, openedAt.ms);
      if begun.Err? then (store, begun)
      else (store.(runs := runs[request.runId := begun.value]), begun)
  }

  /** The part of the store a timeline transaction works on, with the run it feeds. */
  datatype Recording = Recording(store: Store, run: Option<Run>, batchIds: set<string>, emitted: seq<Observation>)

  datatype Capture = Capture(endpoint: Endpoint, listId: string, observedAtMs: real)

  /** Number the post, and the post on its list, if either is seen for the first time. */
  function NumberPair(store: Store, capture: Capture, tweet: Tweet): Store
    requires IsTweet(tweet)
  {
    var pair := (capture.listId, tweet.id);
    var unseen := tweet.id !in store.receipts || pair !in store.listReceipts;
    var sequence := if unseen then store.sequence + 1 else store.sequence;
    var receipts :=
      if tweet.id in store.receipts then store.receipts
      else store.receipts[tweet.id := Receipt(capture.endpoint, capture.listId, tweet.createdAt.value, sequence)];
    var listReceipts :=
      if pair in store.listReceipts then store.listReceipts
      else store.listReceipts[pair := ListReceipt(tweet.createdAt.value, sequence)];
    store.(receipts := receipts, listReceipts := listReceipts, sequence := sequence)
  }

  /** The run's next observation of a numbered post. */
  function Observe(store: Store, run: Run, capture: Capture, tweet: Tweet): Observation
    requires IsTweet(tweet) && (capture.listId, tweet.id) in store.listReceipts
  {
    var captured := store.listReceipts[(capture.listId, tweet.id)].sequence;
    Observation(run.runId, run.lastCursor + 1, tweet.id, captured, captured <= run.baselineSequence,
                capture.observedAtMs, tweet.createdAt.value, capture.endpoint)
  }

  function RecordTweet(rec: Recording, capture: Capture, tweet: Tweet): Recording {
    if !IsTweet(tweet) || tweet.id in rec.batchIds then rec
    else
      var store := NumberPair(rec.store, capture, tweet);
      var batchIds := rec.batchIds + {tweet.id};
      if rec.run.None? then Recording(store, None, batchIds, rec.emitted)
      else
        var run := rec.run.value;
        var observation := Observe(store, run, capture, tweet);
        Recording(store.(observations := store.observations[(run.runId, observation.cursor) := observation]),
                  Some(run.(lastCursor := observation.cursor)), batchIds, rec.emitted + [observation])
  }

  function RecordTweets(rec: Recording, capture: Capture, tweets: seq<Tweet>): Recording
    decreases |tweets|
  {
    if tweets == [] then rec else RecordTweets(RecordTweet(rec, capture, tweets[0]), capture, tweets[1..])
  }

  datatype Timeline =
    Timeline(endpoint: Endpoint, requestList: Option<string>, observedAtMs: Time, sourceTabId: int, tweets: seq<Tweet>)

  predicate Ignored(timeline: Timeline) {
    !IsTimeline(timeline.endpoint) || timeline.observedAtMs.NotFinite? || !IsSourceTabId(timeline.sourceTabId) ||
    timeline.tweets == []
  }

  /** The run of a tab; a valid store has at most one. */
  ghost function TheRun(ids: set<string>): (id: string)
    requires ids != {}
    ensures id in ids
  {
    var id :| id in ids; id
  }

  /** The live run on the tab; a stale one is expired on the way. */
  ghost function TabRun(store: Store, tab: int, at: real): (Store, Option<Run>) {
    var ids := OnTab(store.runs, tab);
    if ids == {} then (store, None)
    else
      var id := TheRun(ids);
      if HasLiveLease(store.runs[id], at) then (store, Some(store.runs[id]))
      else (store.(runs := store.runs[id := Expire(store.runs[id], at)]), None)
  }

  function Finished(rec: Recording, at: real): Store {
    if rec.run.Some? && rec.emitted != [] then
      rec.store.(runs := rec.store.runs[rec.run.value.runId := rec.run.value.(updatedAtMs := at)])
    else rec.store
  }

  ghost function RecordTimeline(store: Store, timeline: Timeline): (Store, seq<Observation>) {
    if Ignored(timeline) then (store, [])
    else
      var at := timeline.observedAtMs.ms;
      var (current, run) := TabRun(store, timeline.sourceTabId, at);
      var listId := if run.Some? then Some(run.value.listId) else timeline.requestList;
      if listId.None? || !IsListId(listId.value) then (current, [])
      else
        var rec := RecordTweets(
          Recording(current, run, {}, []), Capture(timeline.endpoint, listId.value, at), timeline.tweets);
        (Finished(rec, at), rec.emitted)
  }

  function RenewRun(store: Store, runId: string, tab: int, renewedAt: Time): (Store, Result<Run>) {
    if !IsRunId(runId) || !IsSourceTabId(tab) || renewedAt.NotFinite? then (store, Err(InvalidInput))
    else if runId !in store.runs then (store, Err(UnknownRun))
    else if !store.runs[runId].state.Running? then (store, Err(RunTerminal))
    else if store.runs[runId].sourceTabId != tab then (store, Err(RunConflict))
    else
      var run := Renew(store.runs[runId], renewedAt.ms);
      (store.(runs := store.runs[runId := run]), Ok(run))
  }

  function FinishRun(store: Store, runId: string, state: RunState, finishedAt: Time): (Store, Result<Run>) {
    if !IsRunId(runId) || state.Running? || finishedAt.NotFinite? then (store, Err(InvalidInput))
    else if runId !in store.runs then (store, Err(UnknownRun))
    else if !store.runs[runId].state.Running? && store.runs[runId].state != state then (store, Err(RunTerminal))
    else
      var run := Stop(store.runs[runId], state, finishedAt.ms);
      (store.(runs := store.runs[runId := run]), Ok(run))
  }

  function FinishRunsForSourceTab(store: Store, tab: int, finishedAt: Time): (Store, Result<nat>) {
    if !IsSourceTabId(tab) || finishedAt.NotFinite? then (store, Err(InvalidInput))
    else
      var ids := OnTab(store.runs, tab);
      (store.(runs := map id | id in store.runs ::
                if id in ids then StopFor(store.runs[id], Aborted, Some(SourceTabClosed), finishedAt.ms)
                else store.runs[id]),
       Ok(|ids|))
  }

  function BeginCutover(store: Store, finishedAt: Time): (Store, Result<nat>) {
    if finishedAt.NotFinite? then (store, Err(InvalidInput))
    else
      var ids := Active(store.runs);
      (store.(cutover := true,
              runs := map id | id in store.runs ::
                if id in ids then StopFor(store.runs[id], Failed, None, finishedAt.ms) else store.runs[id]),
       Ok(|ids|))
  }

  function FinishCutover(store: Store): Store { store.(cutover := false) }

  datatype Call =
    | CallBeginRun(request: RunRequest, openedAt: Time)
    | CallRecordTimeline(timeline: Timeline)
    | CallRenewRun(runId: string, sourceTabId: int, renewedAt: Time)
    | CallFinishRun(runId: string, state: RunState, finishedAt: Time)
    | CallFinishTab(sourceTabId: int, finishedAt: Time)
    | CallBeginCutover(finishedAt: Time)
    | CallFinishCutover

  ghost function Step(store: Store, call: Call): Store {
    match call
    case CallBeginRun(request, openedAt) => BeginRun(store, request, openedAt).0
    case CallRecordTimeline(timeline) => RecordTimeline(store, timeline).0
    case CallRenewRun(runId, tab, at) => RenewRun(store, runId, tab, at).0
    case CallFinishRun(runId, state, at) => FinishRun(store, runId, state, at).0
    case CallFinishTab(tab, at) => FinishRunsForSourceTab(store, tab, at).0
    case CallBeginCutover(at) => BeginCutover(store, at).0
    case CallFinishCutover => FinishCutover(store)
  }

  ghost function Execute(store: Store, calls: seq<Call>): Store
    decreases |calls|
  {
    if calls == [] then store else Execute(Step(store, calls[0]), calls[1..])
  }
}
