/** When an advance of the durable index succeeds, and that it then covers all it was given. */
module IndexCoverage {
  import opened Sequences
  import opened Sorting
  import opened JsonText
  import opened DurableIndexes
  import opened IndexRuns
  import opened IndexHistory

  // Transactions that succeed -------------------------------------------------------------------------------

  ghost predicate Insertable(rows: seq<File>, files: seq<File>) {
    (forall f | f in files :: Find(rows, f.key).None?) && DistinctKeys(files)
  }

  lemma NotAmong(rows: seq<File>, files: seq<File>, key: Text)
    requires Find(rows, key).None? && forall f | f in files :: f.key != key
    ensures Find(rows + files, key).None?
  {
    forall f | f in rows + files ensures f.key != key {
      assert f in rows || f in files;
    }
  }

  lemma InsertOneMore<P(!new)>(rules: Rules<P>, db: Db<P>, front: seq<File>, last: File)
    requires InsertAll(rules, db, Map(Present(), front)).Some?
    requires var before := InsertAll(rules, db, Map(Present(), front)).value; Find(before.rows, last.key).None?
    ensures var before := InsertAll(rules, db, Map(Present(), front)).value;
            var after := InsertAll(rules, db, Map(Present(), front + [last]));
            after.Some? && after.value.rows == before.rows + [last]
  {
    hide Find;
    var staged := Map(Present(), front + [last]);
    assert staged[..|front|] == Map(Present(), front) && staged[|front|] == Some(last);
  }

  /** Recording fails for no other reason than a missing file or a repeated key. */
  lemma {:induction false} InsertAllSucceeds<P(!new)>(rules: Rules<P>, db: Db<P>, files: seq<File>)
    requires Insertable(db.rows, files)
    ensures InsertAll(rules, db, Map(Present(), files)).Some?
    ensures InsertAll(rules, db, Map(Present(), files)).value.rows == db.rows + files
  {
    hide Find;
    if files != [] {
      var front, last := files[..|files| - 1], files[|files| - 1];
      InsertAllSucceeds(rules, db, front);
      NotAmong(db.rows, front, last.key);
      hide *;
      InsertOneMore(rules, db, front, last);
      assert files == front + [last];
      assert db.rows + front + [last] == db.rows + files;
    } else {
      assert db.rows + files == db.rows;
    }
  }

  lemma Commits<P(!new)>(rules: Rules<P>, db: Db<P>, files: seq<File>, broken: nat)
    requires Insertable(db.rows, files) && broken > |files|
    ensures Transaction(rules, db, Map(Present(), files), broken).Some?
    ensures Transaction(rules, db, Map(Present(), files), broken).value.rows == db.rows + files
  {
    hide Insertable, InsertAll;
    InsertAllSucceeds(rules, db, files);
  }

  // Advancing to the listed head ------------------------------------------------------------------------------

  ghost predicate DistinctListing(listing: seq<Listed>) {
    forall i, j | 0 <= i < j < |listing| :: listing[i].key != listing[j].key
  }

  lemma {:induction false} ListedOnce(listing: seq<Listed>, p: Listed -> bool)
    requires DistinctListing(listing)
    ensures DistinctListing(Filter(listing, p))
  {
    if listing != [] {
      var rest := Filter(listing[1..], p);
      ListedOnce(listing[1..], p);
      forall x | x in listing[1..] ensures x.key != listing[0].key {
        var i :| 0 <= i < |listing[1..]| && listing[1..][i] == x;
        assert listing[i + 1] == x;
      }
      assert forall x | x in rest :: x in listing[1..];
      assert Filter(listing, p) == (if p(listing[0]) then [listing[0]] else []) + rest;
    }
  }

  lemma DistinctKeyed(listing: seq<Listed>)
    requires DistinctListing(listing)
    ensures Distinct(listing)
    ensures forall a, b | a in listing && b in listing && a != b :: a.key != b.key
  {
    forall a, b | a in listing && b in listing && a != b ensures a.key != b.key {
      var i :| 0 <= i < |listing| && listing[i] == a;
      var j :| 0 <= j < |listing| && listing[j] == b;
      if j < i {
        assert listing[j].key != listing[i].key;
      }
    }
  }

  lemma RearrangedListing(a: seq<Listed>, b: seq<Listed>)
    requires DistinctListing(a) && multiset(a) == multiset(b)
    ensures DistinctListing(b)
  {
    DistinctKeyed(a);
    DistinctEitherWay(a, b);
    forall i, j | 0 <= i < j < |b| ensures b[i].key != b[j].key {
      assert b[i] in multiset(b) && b[j] in multiset(b);
      assert b[i] in multiset(a) && b[j] in multiset(a);
    }
  }

  function FileOf(): Listed -> File
  {
    (o: Listed) => if Verify(o).Some? then Verify(o).value else File(o.key, "", None, 0, "")
  }

  lemma VerifiedTail(objects: seq<Listed>)
    requires DistinctListing(objects) && forall o | o in objects :: o.body.Some?
    ensures Map(Verifier(), objects) == Map(Present(), Map(FileOf(), objects))
    ensures DistinctKeys(Map(FileOf(), objects))
    ensures forall i | 0 <= i < |objects| :: RecordOf(objects[i], Map(FileOf(), objects)[i])
  {
    hide Map;
    assert forall i | 0 <= i < |objects| :: objects[i] in objects;
  }

  /** The record of a verified object. */
  ghost predicate RecordOf(o: Listed, f: File) {
    o.body.Some? && f == File(o.key, o.body.value.oid, o.oid, o.size, o.body.value.content)
  }

  lemma RecordsAll(rows: seq<File>, listing: seq<Listed>, objects: seq<Listed>, files: seq<File>)
    requires forall f | f in rows :: Lists(listing, f.key)
    requires AllNew(rows, listing, objects)
    requires |files| == |objects| && forall i | 0 <= i < |objects| :: RecordOf(objects[i], files[i])
    ensures forall f | f in files :: Find(rows, f.key).None?
    ensures forall key :: Records(rows + files, key) <==> Lists(listing, key)
    ensures forall o | o in listing && !Records(rows, o.key) :: exists f :: f in rows + files && RecordOf(o, f)
  {
    forall f | f in files ensures Find(rows, f.key).None? && Lists(listing, f.key) {
      var i :| 0 <= i < |files| && files[i] == f;
      assert objects[i] in objects;
    }
    forall o | o in listing && !Records(rows, o.key) ensures exists f :: f in rows + files && RecordOf(o, f) {
      var i :| 0 <= i < |objects| && objects[i] == o;
      assert files[i] in rows + files;
    }
    hide Find;
    forall key ensures Records(rows + files, key) <==> Lists(listing, key) {
      if Lists(listing, key) && !Records(rows, key) {
        var o :| o in listing && o.key == key;
        var f :| f in rows + files && RecordOf(o, f);
      } else if Records(rows, key) {
        var f :| f in rows && f.key == key;
        assert f in rows + files;
      }
      if f :| f in rows + files && f.key == key {
        assert f in rows || f in files;
      }
    }
  }

  /** If no listed object was deleted, altered or unverifiable and nothing throws, an advance to
      the head keeps the records and adds one for every other listed object, and no more. */
  lemma LatestCoversListing<P(!new)>(rules: Rules<P>, db: Db<P>, listing: seq<Listed>, broken: nat)
    requires DistinctKeys(db.rows) && DistinctListing(listing) && Unaltered(db.rows, listing)
    requires forall o | o in listing && !Records(db.rows, o.key) :: o.body.Some?
    requires broken > |listing|
    ensures var next := AdvanceToLatest(rules, db, listing, broken);
            (forall key :: Records(next.rows, key) <==> Lists(listing, key)) &&
            (forall f | f in db.rows :: f in next.rows) &&
            forall o | o in listing && !Records(db.rows, o.key) :: exists f :: f in next.rows && RecordOf(o, f)
  {
    UnalteredExactly(db.rows, listing);
    hide NothingDeleted, NothingChanged, StandingOf, Verify, DistinctListing, Find, Snapshot, InsertAll, Records, Lists,
      SameObject, RecordOf;
    var objects := SortBy(ByListedKey(rules), Filter(listing, IsNew(db.rows)));
    NewObjects(rules, db.rows, listing);
    VerifiedTail(objects);
    var files := Map(FileOf(), objects);
    RecordsAll(db.rows, listing, objects, files);
    Commits(rules, db, files, broken);
  }

  lemma NewObjects<P>(rules: Rules<P>, rows: seq<File>, listing: seq<Listed>)
    requires DistinctListing(listing)
    ensures var objects := SortBy(ByListedKey(rules), Filter(listing, IsNew(rows)));
            DistinctListing(objects) && |objects| <= |listing| &&
            forall o :: o in objects <==> o in Filter(listing, IsNew(rows))
  {
    var unsorted := Filter(listing, IsNew(rows));
    var objects := SortBy(ByListedKey(rules), unsorted);
    ListedOnce(listing, IsNew(rows));
    RearrangedListing(unsorted, objects);
    assert |objects| == |unsorted| by { assert |multiset(objects)| == |multiset(unsorted)|; }
    hide SortBy, Filter, DistinctListing, StandingOf;
  }

  // Advancing to a snapshot -----------------------------------------------------------------------------------

  lemma {:induction false} PendingDistinct(files: seq<File>, p: File -> bool)
    requires DistinctKeys(files)
    ensures DistinctKeys(Filter(files, p))
  {
    if files != [] {
      var rest := Filter(files[1..], p);
      PendingDistinct(files[1..], p);
      forall x | x in files[1..] ensures x.key != files[0].key {
        var i :| 0 <= i < |files[1..]| && files[1..][i] == x;
        assert files[i + 1] == x;
      }
      assert forall x | x in rest :: x in files[1..];
      assert Filter(files, p) == (if p(files[0]) then [files[0]] else []) + rest;
    }
  }

  lemma RearrangedFiles(a: seq<File>, b: seq<File>)
    requires DistinctKeys(a) && multiset(a) == multiset(b)
    ensures DistinctKeys(b)
  {
    KeyOrderOn(a);
    DistinctEitherWay(a, b);
    forall i, j | 0 <= i < j < |b| ensures b[i].key != b[j].key {
      assert b[i] in multiset(b) && b[j] in multiset(b);
      assert b[i] in multiset(a) && b[j] in multiset(a);
      KeysDiffer(a, b[i], b[j]);
    }
  }

  lemma PendingInsertable<P(!new)>(rules: Rules<P>, rows: seq<File>, files: seq<File>)
    requires DistinctKeys(files)
    ensures var sorted := SortBy(ByReplay(rules), Filter(files, IsPending(rows)));
            Insertable(rows, sorted) && |sorted| <= |files|
  {
    var pending := Filter(files, IsPending(rows));
    var sorted := SortBy(ByReplay(rules), pending);
    PendingDistinct(files, IsPending(rows));
    RearrangedFiles(pending, sorted);
    assert |sorted| == |pending| <= |files| by { assert |multiset(sorted)| == |multiset(pending)|; }
    assert forall f | f in sorted :: Find(rows, f.key).None?;
    hide SortBy, Filter, Find;
  }

  /** An advance to a snapshot that includes the rows and loads commits, and records exactly its
      files. */
  lemma SnapshotCoversFiles<P(!new)>(rules: Rules<P>, db: Db<P>, revision: string, files: seq<File>, verifyKnown: bool,
                                     loadable: set<Text>, broken: nat)
    requires DistinctKeys(db.rows) && DistinctKeys(files) && broken > |files|
    requires FitsSnapshot(db.rows, files, verifyKnown, loadable)
    ensures var next := AdvanceToSnapshot(rules, db, revision, files, verifyKnown, loadable, broken);
            next.revision == revision && forall f :: f in next.rows <==> f in files
    ensures Transaction(rules, db, Staged(rules, Filter(files, IsPending(db.rows))), broken).Some?
  {
    hide SortBy, Filter, AllPresent, AllAcceptable, Find, Transaction, DistinctKeys, Insertable, Map, ByReplay,
      FitsSnapshot;
    FitsExactly(db.rows, files, verifyKnown, loadable);
    PendingInsertable(rules, db.rows, files);
    SnapshotRows(rules, db, files, verifyKnown, loadable);
    Commits(rules, db, SortBy(ByReplay(rules), Filter(files, IsPending(db.rows))), broken);
  }

  // One replay from nothing -----------------------------------------------------------------------------------

  function KeysOf(files: seq<File>): set<Text> { set f | f in files :: f.key }

  /** The one request that brings an empty index to a snapshot of some files. */
  function SingleReplay<P>(rules: Rules<P>, rows: seq<File>): Request {
    ToSnapshot(rules.digest(Snapshot(rows)), Snapshot(rows), true, KeysOf(rows), |rows| + 1)
  }

  lemma SingleReplayRecords<P(!new)>(rules: Rules<P>, rows: seq<File>)
    requires DistinctKeys(rows)
    ensures Genuine(rules, SingleReplay(rules, rows))
    ensures forall f :: f in Serve(rules, CreateEmpty(rules), SingleReplay(rules, rows)).rows <==> f in rows
    ensures AllPresent([], Snapshot(rows)) && AllAcceptable([], Snapshot(rows), true, KeysOf(rows))
    ensures var staged := Staged(rules, Filter(Snapshot(rows), IsPending([])));
            Transaction(rules, CreateEmpty(rules), staged, |rows| + 1).Some?
  {
    var files := Snapshot(rows);
    RearrangedFiles(rows, files);
    KeyOrderOn(rows);
    SortSorts(ByKey(), rows);
    assert |files| == |rows| by { assert |multiset(files)| == |multiset(rows)|; }
    assert forall f :: f in files <==> f in rows;
    hide SortBy, DistinctKeys, Filter, AdvanceToSnapshot, AllPresent, AllAcceptable, Transaction, Staged, ByKey;
    EmptyIsSound(rules);
    NothingRecorded(files, KeysOf(rows));
    SnapshotCoversFiles(rules, CreateEmpty(rules), rules.digest(files), files, true, KeysOf(rows), |rows| + 1);
  }

  lemma NothingRecorded(files: seq<File>, loadable: set<Text>)
    requires forall f | f in files :: f.key in loadable
    ensures FitsSnapshot([], files, true, loadable)
    ensures AllPresent([], files) && AllAcceptable([], files, true, loadable)
  {
  }

  /** The index after any run records what one replay from nothing over its segments records, under
      the same revision. It is that index if every late segment commutes with the recorded ones
      it sorts before, or if every tail sorted after all earlier ones. */
  lemma IncrementalIsSingleReplay<P(!new)>(rules: Rules<P>, requests: seq<Request>)
    requires Authentic(rules) && AllGenuine(rules, requests)
    ensures var db := Run(rules, CreateEmpty(rules), requests);
            var once := Serve(rules, CreateEmpty(rules), SingleReplay(rules, db.rows));
            SameRecords(once, db) &&
            (LateCommute(rules, db.rows) || TailsSortAfter(rules, CreateEmpty(rules), requests) ==> SameIndex(once, db))
  {
    var db := Run(rules, CreateEmpty(rules), requests);
    assert DistinctKeys(db.rows) by {
      EmptyIsSound(rules);
      RunIsSound(rules, CreateEmpty(rules), requests);
    }
    SingleReplayRecords(rules, db.rows);
    hide *;
    SameFilesSameIndex(rules, requests, SingleReplay(rules, db.rows));
  }

  // Applying outputs ------------------------------------------------------------------------------------------

  lemma {:induction false} OnceIsDistinct(keys: seq<Text>)
    ensures Distinct(Once(keys)) && |Once(keys)| <= |keys|
  {
    if keys != [] {
      OnceIsDistinct(keys[..|keys| - 1]);
    }
  }

  lemma {:induction false} LoadsMissing(rows: seq<File>, keys: seq<Text>, store: map<Text, File>)
    requires Distinct(keys) && forall k | k in keys :: Find(rows, k).Some? || k in store
    ensures var files := Load(rows, keys, store);
            files.Some? && |files.value| <= |keys| && DistinctKeys(files.value) &&
            (forall f | f in files.value :: f.key in keys && Find(rows, f.key).None?) &&
            forall k | k in keys && Find(rows, k).None? :: Records(files.value, k)
  {
    hide Find;
    if keys != [] {
      var front, last := keys[..|keys| - 1], keys[|keys| - 1];
      LoadsMissing(rows, front, store);
      assert forall k | k in front :: k in keys && k != last;
      var files := Load(rows, front, store).value;
      var all := Load(rows, keys, store).value;
      assert all != files ==> all[|files|].key == last;
      forall k | k in keys && Find(rows, k).None? ensures Records(all, k) {
        if k != last {
          assert k in front && Records(files, k);
        }
      }
    }
  }

  /** Applying outputs that can all be loaded records exactly their keys besides the old ones. */
  lemma OutputsCoverKeys<P(!new)>(rules: Rules<P>, db: Db<P>, keys: seq<Text>, store: map<Text, File>, broken: nat)
    requires broken > |keys| && forall k | k in keys :: Find(db.rows, k).Some? || k in store
    ensures forall key :: Records(ApplyOutputs(rules, db, keys, store, broken).rows, key) <==>
              Records(db.rows, key) || key in keys
  {
    var once := Once(keys);
    var ordered := SortBy(TextBefore(), once);
    OnceIsDistinct(keys);
    DistinctEitherWay(once, ordered);
    assert |ordered| == |once| by { assert |multiset(ordered)| == |multiset(once)|; }
    assert forall k :: k in ordered <==> k in keys;
    LoadsMissing(db.rows, ordered, store);
    var loaded := Load(db.rows, ordered, store).value;
    var sorted := SortBy(ByReplay(rules), loaded);
    RearrangedFiles(loaded, sorted);
    assert |sorted| == |loaded| by { assert |multiset(sorted)| == |multiset(loaded)|; }
    assert forall f :: f in sorted <==> f in loaded;
    hide SortBy, Load, Once, Find, Snapshot, InsertAll;
    Commits(rules, db, sorted, broken);
    RecordsMore(db.rows, sorted, loaded, keys);
  }

  lemma RecordsMore(rows: seq<File>, sorted: seq<File>, loaded: seq<File>, keys: seq<Text>)
    requires forall f :: f in sorted <==> f in loaded
    requires forall f | f in loaded :: f.key in keys
    requires forall k | k in keys && Find(rows, k).None? :: Records(loaded, k)
    ensures forall key :: Records(rows + sorted, key) <==> Records(rows, key) || key in keys
  {
    hide Find;
    forall key ensures Records(rows + sorted, key) <==> Records(rows, key) || key in keys {
      if Records(rows, key) {
        var f :| f in rows && f.key == key;
        assert f in rows + sorted;
      } else if key in keys {
        assert Find(rows, key).None?;
        var f :| f in loaded && f.key == key;
        assert f in rows + sorted;
      }
    }
  }
}
