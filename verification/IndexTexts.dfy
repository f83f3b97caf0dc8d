/** The cached configuration texts, which applying a segment sets at once and no rollback undoes,
    against the last write of the recorded log. */
module IndexTexts {
  import opened Sequences
  import opened Sorting
  import opened Numbers
  import opened BucketLog
  import opened BucketConfig
  import opened DurableIndexes
  import opened IndexRuns
  import opened IndexHistory

  /** Writes go to configuration paths. */
  ghost predicate WritesConfig<P(!new)>(rules: Rules<P>) {
    forall key, op | op in rules.entry(key).operations && op.Write? :: op.path in CONFIG_PATHS
  }

  function EntryAt<P>(rules: Rules<P>): File -> Entry { (f: File) => rules.entry(f.key) }

  function EntriesOf<P>(rules: Rules<P>, rows: seq<File>): seq<Entry> { Map(EntryAt(rules), rows) }

  /** The text of every path is the last write to it. */
  ghost predicate AllLatest(s: seq<Entry>, values: Values) {
    forall path: string :: IsLatest(s, path, Get(values, path))
  }

  /** Every text is the last write of the recorded segments in log order. */
  ghost predicate Current<P(!new)>(rules: Rules<P>, held: Held<P>) {
    AllLatest(EntriesOf(rules, held.db.rows), held.texts)
  }

  // Requests and texts --------------------------------------------------------------------------------------

  /** The index, and the texts beside it. */
  datatype Held<P> = Held(db: Db<P>, texts: Values)

  /** A request; if it throws while a segment is applied, after how many of its operations. */
  datatype Call = Call(request: Request, operations: nat)

  function Nothing<P>(rules: Rules<P>): Held<P> { Held(CreateEmpty(rules), map[]) }

  /** What a request takes into its transaction, if it gets there. */
  function StagedBy<P>(rules: Rules<P>, db: Db<P>, r: Request): Option<seq<Option<File>>> {
    match r
    case ToLatest(listing, _) =>
      if NothingDeleted(db.rows, listing) && NothingChanged(db.rows, listing) then Some(Tail(rules, db.rows, listing))
      else None
    case ToSnapshot(_, files, verifyKnown, loadable, _) =>
      if AllPresent(db.rows, files) && AllAcceptable(db.rows, files, verifyKnown, loadable) then
        Some(Staged(rules, Filter(files, IsPending(db.rows))))
      else None
    case Outputs(keys, store, _) =>
      match Load(db.rows, SortBy(TextBefore(), Once(keys)), store)
      case None => None
      case Some(loaded) => Some(Staged(rules, loaded))
  }

  predicate Committed<P(!new)>(rules: Rules<P>, db: Db<P>, r: Request) {
    match StagedBy(rules, db, r)
    case None => false
    case Some(staged) => Transaction(rules, db, staged, r.broken).Some?
  }

  /** The segments a call applies, and so the texts it sets, committed or not. */
  function WrittenBy<P>(rules: Rules<P>, db: Db<P>, call: Call): seq<Entry> {
    match StagedBy(rules, db, call.request)
    case None => []
    case Some(staged) => Applied(rules, db, staged, call.request.broken, call.operations)
  }

  function Answer<P>(rules: Rules<P>, held: Held<P>, call: Call): Held<P> {
    Held(Serve(rules, held.db, call.request), SetEntries(held.texts, WrittenBy(rules, held.db, call)))
  }

  function RunCalls<P>(rules: Rules<P>, held: Held<P>, calls: seq<Call>): Held<P>
    decreases |calls|
  {
    if calls == [] then held else RunCalls(rules, Answer(rules, held, calls[0]), calls[1..])
  }

  lemma {:induction false} EntriesInValues<P>(rules: Rules<P>, staged: seq<Option<File>>)
    ensures EntriesIn(rules, staged) == EntriesOf(rules, Files(staged))
  {
    if staged != [] {
      var front, last := staged[..|staged| - 1], staged[|staged| - 1];
      EntriesInValues(rules, front);
      if last.Some? {
        MapAppend(EntryAt(rules), Files(front), [last.value]);
        assert Map(EntryAt(rules), [last.value]) == [rules.entry(last.value.key)];
      }
    }
  }

  lemma AllApplied<P(!new)>(rules: Rules<P>, db: Db<P>, staged: seq<Option<File>>, broken: nat, operations: nat)
    requires Replayed(rules, db) && Transaction(rules, db, staged, broken).Some?
    ensures Applied(rules, db, staged, broken, operations) == EntriesOf(rules, Files(staged))
    ensures Transaction(rules, db, staged, broken).value.rows == db.rows + Files(staged)
  {
    assert staged[..|staged|] == staged;
    EntriesInValues(rules, staged);
    InsertAllReplays(rules, db, staged);
    hide InsertAll, EntriesIn, EntriesOf, Files, Replay;
  }

  /** A request that does not commit changes nothing but the texts. */
  lemma RefusedKeepsIndex<P(!new)>(rules: Rules<P>, db: Db<P>, r: Request)
    requires !Committed(rules, db, r)
    ensures Serve(rules, db, r) == db
  {
    hide Transaction, Tail, Staged, NothingDeleted, NothingChanged, AllPresent, AllAcceptable, Load, Filter, SortBy,
      Once;
  }

  lemma CommitRows<P(!new)>(rules: Rules<P>, db: Db<P>, r: Request)
    requires Committed(rules, db, r)
    ensures Serve(rules, db, r).rows == Transaction(rules, db, StagedBy(rules, db, r).value, r.broken).value.rows
  {
    hide Transaction, Tail, Staged, NothingDeleted, NothingChanged, AllPresent, AllAcceptable, Load, Filter, SortBy,
      Once;
  }

  /** A request that commits applies exactly the segments it adds. */
  lemma CommitApplies<P(!new)>(rules: Rules<P>, db: Db<P>, call: Call)
    requires Sound(rules, db) && Committed(rules, db, call.request)
    ensures WrittenBy(rules, db, call) == EntriesOf(rules, Added(rules, db, call.request))
  {
    var staged := StagedBy(rules, db, call.request).value;
    AllApplied(rules, db, staged, call.request.broken, call.operations);
    CommitRows(rules, db, call.request);
    hide Serve, Transaction, Applied, StagedBy, EntriesOf, Replay, Snapshot, Files;
    assert (db.rows + Files(staged))[|db.rows|..] == Files(staged);
  }

  // What writing segments does to the texts -----------------------------------------------------------------

  ghost predicate Writable(t: seq<Entry>) { forall e | e in t :: UniquePaths(e.operations) }

  /** What comes after wins, path by path. */
  lemma {:induction false} SetEntriesGet(values: Values, t: seq<Entry>, path: string)
    requires Writable(t)
    ensures Get(SetEntries(values, t), path) ==
            if Get(Fold(t), path).Some? then Get(Fold(t), path) else Get(values, path)
  {
    hide SetAll, Get, WriteTo;
    if t == [] {
      NothingSet(path);
    } else {
      var front, last := t[..|t| - 1], t[|t| - 1];
      SetEntriesGet(values, front, path);
      assert last in t;
      SetAllSets(SetEntries(values, front), last.operations, path);
      SetAllSets(Fold(front), last.operations, path);
    }
  }

  lemma NothingSet(path: string)
    ensures Get(Fold([]), path) == None
  {
  }

  lemma UniquePart(operations: seq<Operation>, n: nat)
    requires UniquePaths(operations) && n <= |operations|
    ensures UniquePaths(operations[..n])
  {
  }

  lemma EntriesInWritable<P(!new)>(rules: Rules<P>, staged: seq<Option<File>>)
    requires Authentic(rules)
    ensures Writable(EntriesIn(rules, staged))
  {
    EntriesInValues(rules, staged);
    EntriesAreValid(rules, Files(staged));
    hide EntriesIn, EntriesOf, Files;
  }

  lemma WrittenIsWritable<P(!new)>(rules: Rules<P>, db: Db<P>, call: Call)
    requires Authentic(rules)
    ensures Writable(WrittenBy(rules, db, call))
  {
    hide StagedBy, InsertAll, Reached, UniquePaths, EntriesIn;
    var r := call.request;
    if StagedBy(rules, db, r).Some? {
      var staged := StagedBy(rules, db, r).value;
      var n := Reached(rules, db, staged, Least(r.broken, |staged|));
      EntriesInWritable(rules, staged[..n]);
      if n < |staged| && staged[n].Some? {
        var e := rules.entry(staged[n].value.key);
        assert ValidEntry(e);
        UniquePart(e.operations, Least(call.operations, |e.operations|));
      }
    }
  }

  // Requests that commit ------------------------------------------------------------------------------------

  /** The last of some new writes to a path is not the last of all, and says something else
      than the text so far. */
  ghost predicate SetsBack(s: seq<Entry>, values: Values, t: seq<Entry>, path: string) {
    exists e ::
      && LastWriter(t, path, e)
      && (exists y :: y in s && Writes(y, path) && Earlier(e, y))
      && Get(values, path) != WriteTo(e.operations, path)
  }

  lemma LastWriterIsLatest(s: seq<Entry>, path: string, e: Entry)
    requires LastWriter(s, path, e)
    ensures IsLatest(s, path, WriteTo(e.operations, path))
  {
  }

  lemma HasLastWriter(s: seq<Entry>, path: string, v: Option<string>) returns (e: Entry)
    requires v.Some? && IsLatest(s, path, v)
    ensures LastWriter(s, path, e) && WriteTo(e.operations, path) == v
  {
    hide WriteTo, Earlier;
    e :| e in s && WriteTo(e.operations, path) == v && forall x | x in s && Writes(x, path) :: x == e || Earlier(x, e);
  }

  lemma OneLastWriter(s: seq<Entry>, path: string, a: Entry, b: Entry)
    requires ValidSnapshot(s) && LastWriter(s, path, a) && LastWriter(s, path, b)
    ensures a == b
  {
    hide Earlier, Writes, ValidEntry;
    if a != b {
      DifferentKeys(s, a, b);
      EarlierIsTotal(a, b);
    }
  }

  /** Applying more segments keeps a text current exactly when their write is not set back. */
  lemma TextStaysCurrent(s: seq<Entry>, values: Values, t: seq<Entry>, path: string, v: Option<string>)
    requires ValidSnapshot(s + t) && IsLatest(s, path, Get(values, path)) && IsLatest(t, path, v)
    ensures IsLatest(s + t, path, if v.Some? then v else Get(values, path)) <==> !SetsBack(s, values, t, path)
  {
    hide Earlier, ValidEntry, WriteTo, Get;
    ValidParts(s, t);
    if v.None? {
      NoWriteInTail(s, t, path, Get(values, path));
    } else {
      var e := HasLastWriter(t, path, v);
      OnlySetBackBy(s, values, t, path, e);
      if Get(values, path).Some? {
        var m := HasLastWriter(s, path, Get(values, path));
        LaterOfParts(s + t, s, t, path, m, e);
        LastWriterIsLatest(s + t, path, if Earlier(e, m) then m else e);
        if IsLatest(s + t, path, v) && Earlier(e, m) {
          LatestIsUnique(s + t, path, v, Get(values, path));
        }
      } else {
        NoWriteInFront(s, t, path, e);
        LastWriterIsLatest(s + t, path, e);
      }
    }
  }

  lemma ValidParts(s: seq<Entry>, t: seq<Entry>)
    requires ValidSnapshot(s + t)
    ensures ValidSnapshot(s) && ValidSnapshot(t)
  {
    hide ValidEntry;
    assert forall i | 0 <= i < |s| :: (s + t)[i] == s[i];
    assert forall i | 0 <= i < |t| :: (s + t)[|s| + i] == t[i];
  }

  lemma NoWriteInTail(s: seq<Entry>, t: seq<Entry>, path: string, v: Option<string>)
    requires IsLatest(s, path, v) && forall x | x in t :: !Writes(x, path)
    ensures IsLatest(s + t, path, v)
  {
    hide Earlier, WriteTo;
    if v.Some? {
      var e := HasLastWriter(s, path, v);
      assert e in s + t;
    }
  }

  lemma NoWriteInFront(s: seq<Entry>, t: seq<Entry>, path: string, e: Entry)
    requires (forall x | x in s :: !Writes(x, path)) && LastWriter(t, path, e)
    ensures LastWriter(s + t, path, e)
  {
    hide Earlier, Writes;
  }

  lemma OnlySetBackBy(s: seq<Entry>, values: Values, t: seq<Entry>, path: string, e: Entry)
    requires ValidSnapshot(t) && LastWriter(t, path, e)
    ensures SetsBack(s, values, t, path) <==>
              (exists y :: y in s && Writes(y, path) && Earlier(e, y)) &&
              Get(values, path) != WriteTo(e.operations, path)
  {
    hide Earlier, WriteTo, ValidEntry, Get;
    if SetsBack(s, values, t, path) {
      var d :| LastWriter(t, path, d) && (exists y :: y in s && Writes(y, path) && Earlier(d, y)) &&
        Get(values, path) != WriteTo(d.operations, path);
      OneLastWriter(t, path, d, e);
    }
  }

  lemma EntryOfRow<P(!new)>(rules: Rules<P>, rows: seq<File>, e: Entry)
    requires e in EntriesOf(rules, rows)
    ensures exists key :: e == rules.entry(key)
  {
    var i :| 0 <= i < |rows| && EntriesOf(rules, rows)[i] == e;
    assert e == rules.entry(rows[i].key);
  }

  lemma RowsAreSnapshot<P(!new)>(rules: Rules<P>, rows: seq<File>)
    requires Authentic(rules) && WritesConfig(rules) && DistinctKeys(rows)
    ensures ValidSnapshot(EntriesOf(rules, rows))
  {
    hide ValidEntry;
    EntriesAreValid(rules, rows);
    forall e, op | e in EntriesOf(rules, rows) && op in e.operations && op.Write? ensures op.path in CONFIG_PATHS {
      EntryOfRow(rules, rows, e);
    }
  }

  lemma SortedEntries<P(!new)>(rules: Rules<P>, rows: seq<File>)
    requires Authentic(rules) && SortedBy(ByReplay(rules), rows)
    ensures var entries := EntriesOf(rules, rows);
            forall i, j | 0 <= i < j < |entries| :: Earlier(entries[i], entries[j])
  {
    hide EntryBefore, Earlier, ValidEntry;
    forall i, j | 0 <= i < j < |rows| ensures Earlier(rules.entry(rows[i].key), rules.entry(rows[j].key)) {
      assert ByReplay(rules)(rows[i], rows[j]);
      FileOrders(rules, rows[i], rows[j]);
    }
  }

  lemma EntriesAreValid<P(!new)>(rules: Rules<P>, rows: seq<File>)
    requires Authentic(rules)
    ensures forall e | e in EntriesOf(rules, rows) :: ValidEntry(e)
  {
    hide ValidEntry;
    forall e | e in EntriesOf(rules, rows) ensures ValidEntry(e) {
      EntryOfRow(rules, rows, e);
    }
  }

  ghost predicate NoneSetBack(s: seq<Entry>, values: Values, t: seq<Entry>) {
    forall path: string :: !SetsBack(s, values, t, path)
  }

  lemma MoreText(s: seq<Entry>, values: Values, t: seq<Entry>, path: string)
    requires ValidSnapshot(s + t) && forall i, j | 0 <= i < j < |t| :: Earlier(t[i], t[j])
    requires IsLatest(s, path, Get(values, path))
    ensures IsLatest(s + t, path, Get(SetEntries(values, t), path)) <==> !SetsBack(s, values, t, path)
  {
    ValidParts(s, t);
    assert forall e | e in t :: ValidEntry(e);
    hide IsLatest, Fold, SetsBack, Get, Earlier, ValidSnapshot, SetEntries, UniquePaths;
    FoldIsLatest(t, path);
    SetEntriesGet(values, t, path);
    TextStaysCurrent(s, values, t, path, Get(Fold(t), path));
  }

  lemma MoreTexts(s: seq<Entry>, values: Values, t: seq<Entry>)
    requires ValidSnapshot(s + t) && forall i, j | 0 <= i < j < |t| :: Earlier(t[i], t[j])
    requires AllLatest(s, values)
    ensures AllLatest(s + t, SetEntries(values, t)) <==> NoneSetBack(s, values, t)
  {
    hide IsLatest, SetEntries, SetsBack, Get, Earlier, ValidSnapshot;
    if AllLatest(s + t, SetEntries(values, t)) {
      forall path: string ensures !SetsBack(s, values, t, path) {
        MoreText(s, values, t, path);
      }
    }
    if NoneSetBack(s, values, t) {
      forall path: string ensures IsLatest(s + t, path, Get(SetEntries(values, t), path)) {
        MoreText(s, values, t, path);
      }
    }
  }

  lemma MoreRows<P(!new)>(rules: Rules<P>, db: Db<P>, next: Db<P>, added: seq<File>)
    requires Authentic(rules) && WritesConfig(rules) && Adds(rules, db, next, added)
    ensures var s, t := EntriesOf(rules, db.rows), EntriesOf(rules, added);
            EntriesOf(rules, next.rows) == s + t && ValidSnapshot(s + t) &&
            forall i, j | 0 <= i < j < |t| :: Earlier(t[i], t[j])
  {
    RowsAreSnapshot(rules, next.rows);
    MapAppend(EntryAt(rules), db.rows, added);
    SortedEntries(rules, added);
    hide Authentic, WritesConfig, ValidSnapshot, Earlier, Map, ByReplay;
  }

  // Requests that are rolled back ---------------------------------------------------------------------------

  /** What was written says what the texts already said. */
  ghost predicate Restated(values: Values, t: seq<Entry>) {
    forall path: string | path in Fold(t) :: Get(values, path) == Get(Fold(t), path)
  }

  /** Writing what is not recorded leaves current texts current only by restating them. */
  lemma StrayWrites(s: seq<Entry>, values: Values, t: seq<Entry>)
    requires ValidSnapshot(s) && Writable(t) && AllLatest(s, values)
    ensures AllLatest(s, SetEntries(values, t)) <==> Restated(values, t)
  {
    hide ValidSnapshot, IsLatest, Fold, SetEntries, Writable;
    if AllLatest(s, SetEntries(values, t)) {
      forall path: string | path in Fold(t) ensures Get(values, path) == Get(Fold(t), path) {
        SetEntriesGet(values, t, path);
        LatestIsUnique(s, path, Get(values, path), Get(SetEntries(values, t), path));
      }
    }
    if Restated(values, t) {
      forall path: string ensures IsLatest(s, path, Get(SetEntries(values, t), path)) {
        SetEntriesGet(values, t, path);
      }
    }
  }

  // One call ------------------------------------------------------------------------------------------------

  /** A call that commits sets no text back; one that does not writes only what the texts say. */
  ghost predicate Harmless<P(!new)>(rules: Rules<P>, held: Held<P>, call: Call) {
    var written := WrittenBy(rules, held.db, call);
    if Committed(rules, held.db, call.request) then NoneSetBack(EntriesOf(rules, held.db.rows), held.texts, written)
    else Restated(held.texts, written)
  }

  /** A call, committed or not, leaves current texts current exactly when it is harmless. */
  lemma RequestKeepsTexts<P(!new)>(rules: Rules<P>, held: Held<P>, call: Call)
    requires Authentic(rules) && WritesConfig(rules) && Sound(rules, held.db) && Genuine(rules, call.request)
    requires Current(rules, held)
    ensures Current(rules, Answer(rules, held, call)) <==> Harmless(rules, held, call)
  {
    hide Authentic, WritesConfig, Serve, Added, Genuine, Replay, ValidSnapshot, SetEntries, EntriesOf, NoneSetBack,
      AllLatest, Restated, Earlier, Snapshot, Adds, Committed, WrittenBy, DistinctKeys;
    var db, r, written := held.db, call.request, WrittenBy(rules, held.db, call);
    if Committed(rules, db, r) {
      CommitApplies(rules, db, call);
      ServeAdds(rules, db, r);
      MoreRows(rules, db, Serve(rules, db, r), Added(rules, db, r));
      MoreTexts(EntriesOf(rules, db.rows), held.texts, written);
    } else {
      RefusedKeepsIndex(rules, db, r);
      RowsAreSnapshot(rules, db.rows);
      WrittenIsWritable(rules, db, call);
      StrayWrites(EntriesOf(rules, db.rows), held.texts, written);
    }
  }

  // Runs ------------------------------------------------------------------------------------------------------

  ghost predicate AllGenuineCalls<P(!new)>(rules: Rules<P>, calls: seq<Call>) {
    forall call | call in calls :: Genuine(rules, call.request)
  }

  ghost predicate StaysCurrent<P(!new)>(rules: Rules<P>, held: Held<P>, calls: seq<Call>)
    decreases |calls|
  {
    Current(rules, held) && (calls != [] ==> StaysCurrent(rules, Answer(rules, held, calls[0]), calls[1..]))
  }

  ghost predicate AllHarmless<P(!new)>(rules: Rules<P>, held: Held<P>, calls: seq<Call>)
    decreases |calls|
  {
    calls != [] ==>
      Harmless(rules, held, calls[0]) && AllHarmless(rules, Answer(rules, held, calls[0]), calls[1..])
  }

  /** The texts are current after every call of a run exactly when every call is harmless. */
  lemma {:induction false} RunKeepsTexts<P(!new)>(rules: Rules<P>, held: Held<P>, calls: seq<Call>)
    requires Authentic(rules) && WritesConfig(rules) && Sound(rules, held.db) && AllGenuineCalls(rules, calls)
    requires Current(rules, held)
    ensures StaysCurrent(rules, held, calls) <==> AllHarmless(rules, held, calls)
    decreases |calls|
  {
    hide Authentic, WritesConfig, Sound, Genuine, Serve, WrittenBy, SetEntries, Current, Harmless;
    if calls != [] {
      assert calls[0] in calls && forall call | call in calls[1..] :: call in calls;
      ServeAdds(rules, held.db, calls[0].request);
      RequestKeepsTexts(rules, held, calls[0]);
      var next := Answer(rules, held, calls[0]);
      if Current(rules, next) {
        RunKeepsTexts(rules, next, calls[1..]);
      } else {
        NotCurrent(rules, next, calls[1..]);
      }
    }
  }

  lemma NotCurrent<P(!new)>(rules: Rules<P>, held: Held<P>, calls: seq<Call>)
    requires !Current(rules, held)
    ensures !StaysCurrent(rules, held, calls)
  {
    hide Current, Answer;
  }

  /** Every tail sorts after all recorded segments, and a call that is rolled back has only
      restated texts, as when it failed before applying anything. */
  ghost predicate Orderly<P(!new)>(rules: Rules<P>, held: Held<P>, calls: seq<Call>)
    decreases |calls|
  {
    calls != [] ==>
      AllAfter(rules, held.db.rows, Added(rules, held.db, calls[0].request)) &&
      (Committed(rules, held.db, calls[0].request) || Restated(held.texts, WrittenBy(rules, held.db, calls[0]))) &&
      Orderly(rules, Answer(rules, held, calls[0]), calls[1..])
  }

  lemma AfterSetsNothingBack<P(!new)>(rules: Rules<P>, rows: seq<File>, values: Values, added: seq<File>)
    requires Authentic(rules) && AllAfter(rules, rows, added)
    ensures NoneSetBack(EntriesOf(rules, rows), values, EntriesOf(rules, added))
  {
    var s, t := EntriesOf(rules, rows), EntriesOf(rules, added);
    hide Earlier, EntryBefore, WriteTo, ValidEntry, Get;
    forall e, y | e in t && y in s ensures !Earlier(e, y) {
      var i :| 0 <= i < |t| && t[i] == e;
      var j :| 0 <= j < |s| && s[j] == y;
      assert ByReplay(rules)(rows[j], added[i]);
      FileOrders(rules, rows[j], added[i]);
      NotBothEarlier(y, e);
    }
  }

  lemma NotBothEarlier(a: Entry, b: Entry)
    requires Earlier(a, b)
    ensures !Earlier(b, a)
  {
    if Earlier(b, a) {
      EarlierIsTransitive(a, b, a);
      NotEarlierThanItself(a);
    }
  }

  lemma {:induction false} OrderlyIsHarmless<P(!new)>(rules: Rules<P>, held: Held<P>, calls: seq<Call>)
    requires Authentic(rules) && Sound(rules, held.db) && AllGenuineCalls(rules, calls)
    requires Orderly(rules, held, calls)
    ensures AllHarmless(rules, held, calls)
    decreases |calls|
  {
    hide Authentic, Sound, Genuine, Serve, WrittenBy, SetEntries, AllAfter, Added, Restated, NoneSetBack, Committed;
    if calls != [] {
      assert calls[0] in calls && forall call | call in calls[1..] :: call in calls;
      ServeAdds(rules, held.db, calls[0].request);
      if Committed(rules, held.db, calls[0].request) {
        CommitApplies(rules, held.db, calls[0]);
        AfterSetsNothingBack(rules, held.db.rows, held.texts, Added(rules, held.db, calls[0].request));
      }
      OrderlyIsHarmless(rules, Answer(rules, held, calls[0]), calls[1..]);
    }
  }

  /** Over an orderly run from nothing the texts are always current. */
  lemma OrderedRunsAreCurrent<P(!new)>(rules: Rules<P>, calls: seq<Call>)
    requires Authentic(rules) && WritesConfig(rules) && AllGenuineCalls(rules, calls)
    requires Orderly(rules, Nothing(rules), calls)
    ensures StaysCurrent(rules, Nothing(rules), calls)
  {
    EmptyIsSound(rules);
    NothingIsCurrent(rules);
    hide Authentic, WritesConfig, AllGenuineCalls, Orderly, Sound, Current, StaysCurrent, AllHarmless;
    OrderlyIsHarmless(rules, Nothing(rules), calls);
    RunKeepsTexts(rules, Nothing(rules), calls);
  }

  lemma NothingIsCurrent<P(!new)>(rules: Rules<P>)
    ensures Current(rules, Nothing(rules))
  {
  }

  /** After a rolled-back call, one that commits a tail after all recorded segments makes the
      texts current again if it writes every path that was written. */
  lemma RetryRestores<P(!new)>(rules: Rules<P>, held: Held<P>, failed: Call, retry: Call)
    requires Authentic(rules) && WritesConfig(rules) && Sound(rules, held.db) && Genuine(rules, retry.request)
    requires Current(rules, held) && !Committed(rules, held.db, failed.request)
    requires Committed(rules, held.db, retry.request)
    requires AllAfter(rules, held.db.rows, Added(rules, held.db, retry.request))
    requires Fold(WrittenBy(rules, held.db, failed)).Keys <= Fold(WrittenBy(rules, held.db, retry)).Keys
    ensures Current(rules, Answer(rules, Answer(rules, held, failed), retry))
  {
    hide Authentic, WritesConfig, Serve, Added, Genuine, Replay, SetEntries, EntriesOf, NoneSetBack, AllLatest,
      Writable, Fold, Snapshot, Committed, WrittenBy, AllAfter, Sound, Get;
    var first, second := WrittenBy(rules, held.db, failed), WrittenBy(rules, held.db, retry);
    RefusedKeepsIndex(rules, held.db, failed.request);
    WrittenIsWritable(rules, held.db, failed);
    WrittenIsWritable(rules, held.db, retry);
    Overwritten(held.texts, first, second);
    CommitApplies(rules, held.db, retry);
    AfterSetsNothingBack(rules, held.db.rows, held.texts, Added(rules, held.db, retry.request));
    RequestKeepsTexts(rules, held, retry);
  }

  lemma Overwritten(values: Values, first: seq<Entry>, second: seq<Entry>)
    requires Writable(first) && Writable(second) && Fold(first).Keys <= Fold(second).Keys
    ensures SetEntries(SetEntries(values, first), second) == SetEntries(values, second)
  {
    hide SetEntries, Writable, Fold;
    var a, b := SetEntries(SetEntries(values, first), second), SetEntries(values, second);
    forall path: string ensures Get(a, path) == Get(b, path) {
      SetEntriesGet(SetEntries(values, first), second, path);
      SetEntriesGet(values, first, path);
      SetEntriesGet(values, second, path);
    }
    SameTexts(a, b);
  }

  lemma SameTexts(a: Values, b: Values)
    requires forall path: string :: Get(a, path) == Get(b, path)
    ensures a == b
  {
    forall path: string ensures (path in a <==> path in b) && (path in a ==> a[path] == b[path]) {
      assert Get(a, path) == Get(b, path);
    }
  }
}
