/** Late segments: the cached texts against those of a single replay, and what a rollback and a
    late arrival leave behind. */
module IndexLateTexts {
  import opened Sequences
  import opened Sorting
  import opened JsonText
  import opened BucketLog
  import opened BucketConfig
  import opened DurableIndexes
  import opened IndexRuns
  import opened IndexHistory
  import opened IndexCoverage
  import opened IndexTexts

  // Against a single replay -----------------------------------------------------------------------------------

  lemma LatestByMembers(s: seq<Entry>, t: seq<Entry>, path: string, v: Option<string>)
    requires forall e :: e in s <==> e in t
    ensures IsLatest(s, path, v) <==> IsLatest(t, path, v)
  {
    hide Earlier, WriteTo;
  }

  lemma SameEntries<P(!new)>(rules: Rules<P>, a: seq<File>, b: seq<File>)
    requires forall f | f in a :: f in b
    ensures forall e | e in EntriesOf(rules, a) :: e in EntriesOf(rules, b)
  {
    forall e | e in EntriesOf(rules, a) ensures e in EntriesOf(rules, b) {
      var i :| 0 <= i < |a| && EntriesOf(rules, a)[i] == e;
      assert a[i] in b;
      var j :| 0 <= j < |b| && b[j] == a[i];
      assert EntriesOf(rules, b)[j] == e;
    }
  }

  /** What one replay from nothing over some segments leaves behind. */
  function AfterReplay<P>(rules: Rules<P>, rows: seq<File>): Held<P> {
    Answer(rules, Nothing(rules), Call(SingleReplay(rules, rows), 0))
  }

  lemma ReplayCommits<P(!new)>(rules: Rules<P>, rows: seq<File>)
    requires DistinctKeys(rows)
    ensures Committed(rules, CreateEmpty(rules), SingleReplay(rules, rows))
  {
    SingleReplayRecords(rules, rows);
    hide Snapshot, Transaction, Staged, Filter, AllPresent, AllAcceptable, DistinctKeys, KeysOf;
  }

  /** A replay from nothing leaves current texts. */
  lemma ReplayIsCurrent<P(!new)>(rules: Rules<P>, rows: seq<File>)
    requires Authentic(rules) && WritesConfig(rules) && DistinctKeys(rows)
    ensures Current(rules, AfterReplay(rules, rows))
  {
    hide Authentic, WritesConfig, DistinctKeys, Current, Serve, WrittenBy, SetEntries, SingleReplay, Genuine, Sound,
      Committed, NoneSetBack;
    SingleReplayRecords(rules, rows);
    ReplayCommits(rules, rows);
    EmptyIsSound(rules);
    NothingIsCurrent(rules);
    NothingToSetBack(map[], WrittenBy(rules, CreateEmpty(rules), Call(SingleReplay(rules, rows), 0)));
    RequestKeepsTexts(rules, Nothing(rules), Call(SingleReplay(rules, rows), 0));
  }

  lemma NothingToSetBack(values: Values, t: seq<Entry>)
    ensures NoneSetBack([], values, t)
  {
  }

  /** The texts are those of one replay from nothing over the recorded segments exactly when
      they are current, however they came about. */
  lemma TextsAreReplayed<P(!new)>(rules: Rules<P>, held: Held<P>)
    requires Authentic(rules) && WritesConfig(rules) && DistinctKeys(held.db.rows)
    ensures AfterReplay(rules, held.db.rows).texts == held.texts <==> Current(rules, held)
  {
    var rows, once := held.db.rows, AfterReplay(rules, held.db.rows);
    ReplayIsCurrent(rules, rows);
    SingleReplayRecords(rules, rows);
    RowsAreSnapshot(rules, rows);
    assert forall f :: f in once.db.rows <==> f in rows;
    hide AfterReplay, Authentic, WritesConfig, DistinctKeys, ValidSnapshot, IsLatest, Get, EntriesOf, SingleReplay,
      Serve;
    SameEntries(rules, rows, once.db.rows);
    SameEntries(rules, once.db.rows, rows);
    var s := EntriesOf(rules, rows);
    forall path: string ensures IsLatest(s, path, Get(once.texts, path)) {
      LatestByMembers(s, EntriesOf(rules, once.db.rows), path, Get(once.texts, path));
    }
    if Current(rules, held) {
      forall path: string ensures Get(once.texts, path) == Get(held.texts, path) {
        LatestIsUnique(s, path, Get(once.texts, path), Get(held.texts, path));
      }
      SameTexts(once.texts, held.texts);
    }
  }

  // A projection that holds the last write --------------------------------------------------------------------

  /** Applying a segment to the projection sets every text it writes. */
  ghost predicate SetsTexts(rules: Rules<Values>) {
    rules.empty == map[] && forall p, e :: rules.apply(p, e) == SetAll(p, e.operations)
  }

  lemma {:induction false} ReplayIsFold(rules: Rules<Values>, rows: seq<File>)
    requires SetsTexts(rules)
    ensures Replay(rules, rows) == Fold(EntriesOf(rules, rows))
  {
    hide SetAll;
    if rows != [] {
      var front := rows[..|rows| - 1];
      ReplayIsFold(rules, front);
      assert EntriesOf(rules, rows)[..|rows| - 1] == EntriesOf(rules, front);
    }
  }

  lemma {:induction false} FoldIsSetEntries(t: seq<Entry>)
    ensures SetEntries(map[], t) == Fold(t)
  {
    hide SetAll;
    if t != [] {
      FoldIsSetEntries(t[..|t| - 1]);
    }
  }

  /** While requests commit, the texts are such a projection. */
  lemma CommittedTexts(rules: Rules<Values>, held: Held<Values>, call: Call)
    requires Authentic(rules) && SetsTexts(rules) && Sound(rules, held.db) && Genuine(rules, call.request)
    requires held.texts == held.db.projection && Committed(rules, held.db, call.request)
    ensures Answer(rules, held, call).texts == Answer(rules, held, call).db.projection
  {
    var added := Added(rules, held.db, call.request);
    ServeAdds(rules, held.db, call.request);
    CommitApplies(rules, held.db, call);
    ReplayIsFold(rules, held.db.rows);
    ReplayIsFold(rules, held.db.rows + added);
    MapAppend(EntryAt(rules), held.db.rows, added);
    hide Authentic, SetsTexts, Serve, Added, Genuine, Replay, Map, SetEntries, Fold, Committed, WrittenBy, DistinctKeys;
    SetAfterFold(EntriesOf(rules, held.db.rows), EntriesOf(rules, added));
  }

  lemma {:induction false} SetAfterFold(s: seq<Entry>, t: seq<Entry>)
    ensures SetEntries(Fold(s), t) == Fold(s + t)
  {
    hide SetAll;
    if t == [] {
      assert s + t == s;
    } else {
      SetAfterFold(s, t[..|t| - 1]);
      assert (s + t)[..|s + t| - 1] == s + t[..|t| - 1];
    }
  }

  /** After any run such a projection is that of one replay from nothing exactly when it holds
      the last write to every path. */
  lemma TextProjectionIsReplayed(rules: Rules<Values>, requests: seq<Request>)
    requires Authentic(rules) && WritesConfig(rules) && SetsTexts(rules) && AllGenuine(rules, requests)
    ensures var db := Run(rules, CreateEmpty(rules), requests);
            Serve(rules, CreateEmpty(rules), SingleReplay(rules, db.rows)).projection == db.projection <==>
            Current(rules, Held(db, db.projection))
  {
    var db := Run(rules, CreateEmpty(rules), requests);
    EmptyIsSound(rules);
    RunIsSound(rules, CreateEmpty(rules), requests);
    hide Authentic, WritesConfig, AllGenuine, Current, Serve, WrittenBy, SetEntries, SingleReplay, Genuine,
      Committed, Replay, Snapshot, Run, DistinctKeys;
    SingleReplayRecords(rules, db.rows);
    ReplayCommits(rules, db.rows);
    CommittedTexts(rules, Nothing(rules), Call(SingleReplay(rules, db.rows), 0));
    TextsAreReplayed(rules, Held(db, db.projection));
  }

  /** Segments that write no path in common commute, so a late one among them changes nothing. */
  lemma DisjointWritesCommute(rules: Rules<Values>, a: Entry, b: Entry)
    requires SetsTexts(rules) && ValidEntry(a) && ValidEntry(b)
    requires forall path: string :: !(Writes(a, path) && Writes(b, path))
    ensures Commute(rules, a, b)
  {
    forall p ensures rules.apply(rules.apply(p, a), b) == rules.apply(rules.apply(p, b), a) {
      var x, y := SetAll(SetAll(p, a.operations), b.operations), SetAll(SetAll(p, b.operations), a.operations);
      forall path: string ensures Get(x, path) == Get(y, path) {
        SetAllSets(p, a.operations, path);
        SetAllSets(SetAll(p, a.operations), b.operations, path);
        SetAllSets(p, b.operations, path);
        SetAllSets(SetAll(p, b.operations), a.operations, path);
        assert !(Writes(a, path) && Writes(b, path));
      }
      SameTexts(x, y);
    }
  }

  // A late segment ------------------------------------------------------------------------------------------

  const POOL := "config/pool.json"
  const OLD: Text := [0x31]
  const NEW: Text := [0x32]

  function Zeros(n: nat): (t: Text)
    ensures |t| == n
  {
    if n == 0 then [] else [0x30] + Zeros(n - 1)
  }

  /** Two segments, the one under `NEW` a millisecond later; each writes the pool file. */
  function Segment(key: Text): Entry {
    Entry(if key == NEW then 2 else 1, Zeros(UUID_LENGTH), key, [Write(POOL, if key == NEW then "new" else "old")])
  }

  function SegmentOf(): Text -> Entry { (key: Text) => Segment(key) }

  function SetTexts(): (Values, Entry) -> Values { (values: Values, e: Entry) => SetAll(values, e.operations) }

  function NoDigest(): seq<File> -> string { (files: seq<File>) => "" }

  const TEXTS := Rules(map[], SetTexts(), NoDigest(), SegmentOf())

  function Upload(key: Text): Listed { Listed(key, Some("x"), 1, Some(Body("x", "c"))) }

  function Row(key: Text): File { File(key, "x", Some("x"), 1, "c") }

  lemma TextsAreAuthentic()
    ensures Authentic(TEXTS) && WritesConfig(TEXTS) && SetsTexts(TEXTS)
  {
    assert POOL in CONFIG_PATHS;
    assert forall key :: ValidEntry(TEXTS.entry(key));
  }

  /** An advance whose listing has one new object. */
  lemma OneNewObject<P(!new)>(rules: Rules<P>, db: Db<P>, listing: seq<Listed>, o: Listed, f: File)
    requires NothingDeleted(db.rows, listing) && NothingChanged(db.rows, listing) &&
             Filter(listing, IsNew(db.rows)) == [o]
    requires Verify(o) == Some(f) && Find(db.rows, f.key).None?
    ensures var next := AdvanceToLatest(rules, db, listing, 2);
            next.rows == db.rows + [f] && next.projection == rules.apply(db.projection, rules.entry(f.key))
    ensures Committed(rules, db, ToLatest(listing, 2))
  {
    hide NothingDeleted, NothingChanged, Filter, Verify, Find;
    OneSorted(ByListedKey(rules), o);
    var staged := Tail(rules, db.rows, listing);
    assert staged == [Some(f)] by { hide InsertAll; }
    assert staged[..0] == [];
    assert InsertAll(rules, db, staged[..0]) == Some(db);
  }

  lemma OneSorted<T>(before: (T, T) -> bool, x: T)
    ensures SortBy(before, [x]) == [x]
  {
    assert [x][1..] == [];
  }

  lemma NewIsLast(rows: seq<File>, f: File)
    requires f in rows && f.key == NEW
    ensures IsLatest(EntriesOf(TEXTS, rows), POOL, Some("new"))
  {
    var entries, last := EntriesOf(TEXTS, rows), Segment(NEW);
    var i :| 0 <= i < |rows| && rows[i] == f;
    assert entries[i] == last;
    forall x | x in entries ensures x == last || Earlier(x, last) {
      var j :| 0 <= j < |entries| && entries[j] == x;
      assert x == Segment(rows[j].key);
    }
    assert WriteTo(last.operations, POOL) == Some("new");
  }

  lemma FirstUpload()
    ensures var db := AdvanceToLatest(TEXTS, CreateEmpty(TEXTS), [Upload(NEW)], 2);
            db.rows == [Row(NEW)] && db.projection == map[POOL := "new"]
    ensures Committed(TEXTS, CreateEmpty(TEXTS), ToLatest([Upload(NEW)], 2))
  {
    var empty, listing := CreateEmpty(TEXTS), [Upload(NEW)];
    assert IsNew(empty.rows)(Upload(NEW));
    FilterAll(listing, IsNew(empty.rows));
    OneNewObject(TEXTS, empty, listing, Upload(NEW), Row(NEW));
    SetOne(map[], NEW);
  }

  lemma SetOne(values: Values, key: Text)
    ensures SetAll(values, Segment(key).operations) == values[POOL := if key == NEW then "new" else "old"]
  {
    var operations := Segment(key).operations;
    assert operations[..0] == [];
  }

  /** A listing whose second object is recorded and whose first is not. */
  lemma OnlyFirstIsNew(rows: seq<File>, a: Listed, b: Listed)
    requires StandingOf(rows, a).New? && StandingOf(rows, b).Known?
    requires forall f | f in rows :: f.key == b.key
    ensures NothingDeleted(rows, [a, b]) && NothingChanged(rows, [a, b]) && Filter([a, b], IsNew(rows)) == [a]
  {
    hide StandingOf;
    assert a in [a, b] && b in [a, b];
    FilterNone([b], IsNew(rows));
    assert [a, b][1..] == [b];
  }

  lemma LateStandings()
    ensures StandingOf([Row(NEW)], Upload(NEW)).Known? && StandingOf([Row(NEW)], Upload(OLD)).New?
    ensures Find([Row(NEW)], OLD).None?
  {
    assert OLD != NEW by { assert OLD[0] != NEW[0]; }
  }

  lemma LateUpload(db: Db<Values>)
    requires db.rows == [Row(NEW)] && db.projection == map[POOL := "new"]
    ensures var next := AdvanceToLatest(TEXTS, db, [Upload(OLD), Upload(NEW)], 2);
            next.rows == [Row(NEW), Row(OLD)] && next.projection == map[POOL := "old"]
    ensures Committed(TEXTS, db, ToLatest([Upload(OLD), Upload(NEW)], 2))
  {
    LateStandings();
    hide Find, AdvanceToLatest, StandingOf, NothingDeleted, NothingChanged, Filter, SetAll;
    OnlyFirstIsNew(db.rows, Upload(OLD), Upload(NEW));
    OneNewObject(TEXTS, db, [Upload(OLD), Upload(NEW)], Upload(OLD), Row(OLD));
    SetOne(db.projection, OLD);
    assert OLD != NEW by { assert OLD[0] != NEW[0]; }
  }

  /** The later segment is recorded first and the earlier one arrives afterwards: the pool file
      goes back to the old text, where one replay over both leaves the new one. */
  lemma LateSegmentSetsBack()
    ensures var late :=
              RunCalls(TEXTS, Nothing(TEXTS),
                       [Call(ToLatest([Upload(NEW)], 2), 0), Call(ToLatest([Upload(OLD), Upload(NEW)], 2), 0)]);
            Get(late.texts, POOL) == Some("old") && !Current(TEXTS, late) &&
            Get(AfterReplay(TEXTS, late.db.rows).texts, POOL) == Some("new")
  {
    var a, b := Call(ToLatest([Upload(NEW)], 2), 0), Call(ToLatest([Upload(OLD), Upload(NEW)], 2), 0);
    TextsAreAuthentic();
    EmptyIsSound(TEXTS);
    FirstUpload();
    var first := Answer(TEXTS, Nothing(TEXTS), a);
    CommittedTexts(TEXTS, Nothing(TEXTS), a);
    ServeAdds(TEXTS, CreateEmpty(TEXTS), a.request);
    LateUpload(first.db);
    CommittedTexts(TEXTS, first, b);
    var late := Answer(TEXTS, first, b);
    assert late.db.rows == [Row(NEW), Row(OLD)] && late.texts == map[POOL := "old"];
    hide Answer, AdvanceToLatest, Authentic, WritesConfig, SetsTexts, Committed, Sound, Serve, Current, AfterReplay;
    LateIsStale(late);
    TwoCalls(Nothing(TEXTS), a, b);
  }

  lemma OneCall(held: Held<Values>, a: Call)
    ensures RunCalls(TEXTS, held, [a]) == Answer(TEXTS, held, a)
  {
    hide Answer;
    assert [a][1..] == [];
  }

  lemma TwoCalls(held: Held<Values>, a: Call, b: Call)
    ensures RunCalls(TEXTS, held, [a, b]) == Answer(TEXTS, Answer(TEXTS, held, a), b)
  {
    hide Answer;
    assert [a, b][1..] == [b];
    OneCall(Answer(TEXTS, held, a), b);
  }

  lemma LateIsStale(held: Held<Values>)
    requires held.db.rows == [Row(NEW), Row(OLD)] && held.texts == map[POOL := "old"]
    ensures Get(held.texts, POOL) == Some("old") && !Current(TEXTS, held)
    ensures Get(AfterReplay(TEXTS, held.db.rows).texts, POOL) == Some("new")
  {
    TextsAreAuthentic();
    var rows := held.db.rows;
    assert rows[0] in rows;
    assert DistinctKeys(rows) by { assert OLD[0] != NEW[0]; }
    NewIsLast(rows, Row(NEW));
    RowsAreSnapshot(TEXTS, rows);
    ReplayIsCurrent(TEXTS, rows);
    SingleReplayRecords(TEXTS, rows);
    hide Authentic, WritesConfig, SetsTexts, IsLatest, ValidSnapshot, EntriesOf, DistinctKeys, Serve, WrittenBy,
      SetEntries, SingleReplay;
    var once := AfterReplay(TEXTS, rows);
    NewIsLast(once.db.rows, Row(NEW));
    assert forall f :: f in once.db.rows <==> f in rows;
    SameEntries(TEXTS, once.db.rows, rows);
    SameEntries(TEXTS, rows, once.db.rows);
    LatestByMembers(EntriesOf(TEXTS, once.db.rows), EntriesOf(TEXTS, rows), POOL, Get(once.texts, POOL));
    LatestIsUnique(EntriesOf(TEXTS, rows), POOL, Get(once.texts, POOL), Some("new"));
    if Current(TEXTS, held) {
      LatestIsUnique(EntriesOf(TEXTS, rows), POOL, Get(held.texts, POOL), Some("new"));
    }
  }

  // A rolled-back segment -------------------------------------------------------------------------------------

  /** The segment is applied and the commit throws: nothing is recorded, but its text is set. */
  lemma RollbackKeepsText()
    ensures var held := Answer(TEXTS, Nothing(TEXTS), Call(ToLatest([Upload(NEW)], 1), 0));
            held.db == CreateEmpty(TEXTS) && held.texts == map[POOL := "new"] && !Current(TEXTS, held)
  {
    var empty, listing := CreateEmpty(TEXTS), [Upload(NEW)];
    FilterAll(listing, IsNew(empty.rows));
    OneSorted(ByListedKey(TEXTS), Upload(NEW));
    var staged := Tail(TEXTS, empty.rows, listing);
    assert staged == [Some(Row(NEW))];
    AppliedOne(TEXTS, empty, staged);
    SetOne(map[], NEW);
    StrayText();
    hide Segment, SetAll, InsertAll, Tail, Applied, IsLatest, EntriesOf;
    assert WrittenBy(TEXTS, empty, Call(ToLatest(listing, 1), 0)) == [Segment(NEW)];
    SetSegment(NEW);
  }

  lemma AppliedOne<P>(rules: Rules<P>, db: Db<P>, staged: seq<Option<File>>)
    requires |staged| == 1 && staged[0].Some? && Find(db.rows, staged[0].value.key).None?
    ensures Applied(rules, db, staged, 1, 0) == [rules.entry(staged[0].value.key)]
  {
    hide Find;
    assert staged[..1] == staged && staged[..0] == [];
    assert EntriesIn(rules, staged[..0]) == [] && InsertAll(rules, db, staged[..0]) == Some(db);
  }

  lemma SetSegment(key: Text)
    ensures SetEntries(map[], [Segment(key)]) == SetAll(map[], Segment(key).operations)
  {
    hide SetAll;
    assert [Segment(key)][..0] == [];
  }

  lemma StrayText()
    ensures !AllLatest([], map[POOL := "new"])
  {
    assert !IsLatest([], POOL, Get(map[POOL := "new"], POOL));
  }
}
