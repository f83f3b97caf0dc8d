/** Incremental advances of the durable index against one replay from nothing. */
module IndexHistory {
  import opened Sequences
  import opened Sorting
  import opened JsonText
  import opened BucketLog
  import opened DurableIndexes
  import opened IndexRuns

  /** What one request added to the records. */
  ghost predicate Adds<P(!new)>(rules: Rules<P>, db: Db<P>, next: Db<P>, added: seq<File>) {
    Replayed(rules, next) && next.rows == db.rows + added && SortedBy(ByReplay(rules), added)
  }

  lemma RowsAdded<P(!new)>(rules: Rules<P>, db: Db<P>, staged: seq<Option<File>>, broken: nat)
    requires Replayed(rules, db) && Transaction(rules, db, staged, broken).Some?
    ensures var next := Transaction(rules, db, staged, broken).value;
            Replayed(rules, next) && next.rows == db.rows + Files(staged) && DistinctKeys(Files(staged))
  {
    hide Replay;
    InsertAllReplays(rules, db, staged);
    var next, added := InsertAll(rules, db, staged).value, Files(staged);
    forall i, j | 0 <= i < j < |added| ensures added[i].key != added[j].key {
      assert next.rows[|db.rows| + i] == added[i] && next.rows[|db.rows| + j] == added[j];
    }
  }

  lemma {:induction false} ValuesOfPresent(files: seq<File>)
    ensures Files(Map(Present(), files)) == files
  {
    if files != [] {
      var front := files[..|files| - 1];
      ValuesOfPresent(front);
      assert Map(Present(), files)[..|files| - 1] == Map(Present(), front);
    }
  }

  lemma StagedSorted<P(!new)>(rules: Rules<P>, pending: seq<File>)
    requires Authentic(rules) && DistinctKeys(Files(Staged(rules, pending)))
    ensures SortedBy(ByReplay(rules), Files(Staged(rules, pending)))
    ensures Files(Staged(rules, pending)) == SortBy(ByReplay(rules), pending)
  {
    var sorted := SortBy(ByReplay(rules), pending);
    ValuesOfPresent(sorted);
    ReplayOrder(rules, sorted);
    DistinctEitherWay(sorted, pending);
    assert forall x | x in pending :: x in sorted;
    hide ByReplay;
    SortSorts(ByReplay(rules), pending);
  }

  lemma TailKeys<P(!new)>(rules: Rules<P>, rows: seq<File>, listing: seq<Listed>)
    requires forall i | 0 <= i < |Tail(rules, rows, listing)| :: Tail(rules, rows, listing)[i].Some?
    ensures var sorted := SortBy(ByListedKey(rules), Filter(listing, IsNew(rows)));
            var added := Files(Tail(rules, rows, listing));
            |added| == |sorted| && forall i | 0 <= i < |sorted| :: added[i].key == sorted[i].key
  {
    hide SortBy, Filter, Files;
    ValuesOf(Tail(rules, rows, listing));
  }

  /** Objects sorted by key are verified files sorted for replay. */
  lemma TailSorted<P(!new)>(rules: Rules<P>, rows: seq<File>, listing: seq<Listed>)
    requires Authentic(rules) && DistinctKeys(Files(Tail(rules, rows, listing)))
    requires forall i | 0 <= i < |Tail(rules, rows, listing)| :: Tail(rules, rows, listing)[i].Some?
    ensures SortedBy(ByReplay(rules), Files(Tail(rules, rows, listing)))
  {
    TailKeys(rules, rows, listing);
    hide Tail, Files, Filter, KeyBefore, EntryBefore, SortBy, Authentic;
    var unsorted := Filter(listing, IsNew(rows));
    var sorted := SortBy(ByListedKey(rules), unsorted);
    var added := Files(Tail(rules, rows, listing));
    ListedOrder(rules, sorted, added);
    DistinctEitherWay(sorted, unsorted);
    assert forall x | x in unsorted :: x in sorted;
    SortSorts(ByListedKey(rules), unsorted);
    forall i, j | 0 <= i < j < |added| ensures ByReplay(rules)(added[i], added[j]) {
      assert ByListedKey(rules)(sorted[i], sorted[j]);
      FileOrders(rules, added[i], added[j]);
    }
  }

  lemma ListedOrder<P(!new)>(rules: Rules<P>, objects: seq<Listed>, files: seq<File>)
    requires Authentic(rules) && DistinctKeys(files)
    requires |objects| == |files| && forall i | 0 <= i < |files| :: files[i].key == objects[i].key
    ensures Distinct(objects) && OrderOn(ByListedKey(rules), objects)
  {
    hide KeyBefore, EntryBefore, Earlier, ValidEntry;
    assert forall a, b | a in objects && b in objects && a != b :: a.key != b.key;
    forall a, b | a in objects && b in objects && a != b ensures ByListedKey(rules)(a, b) || ByListedKey(rules)(b, a) {
      OneOrder(rules.entry(a.key), rules.entry(b.key));
      OneOrder(rules.entry(b.key), rules.entry(a.key));
      EarlierIsTotal(rules.entry(a.key), rules.entry(b.key));
    }
    forall a, b, c | a in objects && b in objects && c in objects && ByListedKey(rules)(a, b) &&
      ByListedKey(rules)(b, c)
      ensures ByListedKey(rules)(a, c)
    {
      OneOrder(rules.entry(a.key), rules.entry(b.key));
      OneOrder(rules.entry(b.key), rules.entry(c.key));
      OneOrder(rules.entry(a.key), rules.entry(c.key));
      EarlierIsTransitive(rules.entry(a.key), rules.entry(b.key), rules.entry(c.key));
    }
  }

  // One request ---------------------------------------------------------------------------------------------

  function Added<P>(rules: Rules<P>, db: Db<P>, r: Request): seq<File> {
    var next := Serve(rules, db, r);
    if |db.rows| <= |next.rows| then next.rows[|db.rows|..] else []
  }

  lemma LatestAdds<P(!new)>(rules: Rules<P>, db: Db<P>, listing: seq<Listed>, broken: nat)
    requires Authentic(rules) && Sound(rules, db)
    ensures exists added :: Adds(rules, db, AdvanceToLatest(rules, db, listing, broken), added)
    ensures Sound(rules, AdvanceToLatest(rules, db, listing, broken))
  {
    var tail := Tail(rules, db.rows, listing);
    var next := AdvanceToLatest(rules, db, listing, broken);
    hide Authentic, Replay, Tail, Snapshot, NothingDeleted, NothingChanged;
    if next == db {
      assert db.rows == db.rows + [];
      assert Adds(rules, db, next, []);
    } else {
      RowsAdded(rules, db, tail, broken);
      AllStaged(rules, db, tail);
      TailSorted(rules, db.rows, listing);
      hide InsertAll, Files, ByReplay;
      assert Adds(rules, db, next, Files(tail));
    }
  }

  /** Committing the pending files of a snapshot. */
  lemma PendingAdds<P(!new)>(rules: Rules<P>, db: Db<P>, r: Request)
    requires Authentic(rules) && Sound(rules, db) && r.ToSnapshot? && Genuine(rules, r)
    requires AllPresent(db.rows, r.files) && AllAcceptable(db.rows, r.files, r.verifyKnown, r.loadable)
    requires Transaction(rules, db, Staged(rules, Filter(r.files, IsPending(db.rows))), r.broken).Some?
    ensures var staged := Staged(rules, Filter(r.files, IsPending(db.rows)));
            var next := Transaction(rules, db, staged, r.broken).value.(revision := r.revision);
            Adds(rules, db, next, Files(staged)) && Sound(rules, next)
  {
    var pending := Filter(r.files, IsPending(db.rows));
    var staged := Staged(rules, pending);
    RowsAdded(rules, db, staged, r.broken);
    StagedSorted(rules, pending);
    SnapshotRows(rules, db, r.files, r.verifyKnown, r.loadable);
    hide Authentic, Replay, Snapshot, AllPresent, AllAcceptable, Transaction, Files, ByReplay, ByKey, Filter, SortBy,
      Staged;
    SnapshotIsUnique(Transaction(rules, db, staged, r.broken).value.rows, r.files);
  }

  lemma SnapshotAdds<P(!new)>(rules: Rules<P>, db: Db<P>, r: Request)
    requires Authentic(rules) && Sound(rules, db) && r.ToSnapshot? && Genuine(rules, r)
    ensures exists added :: Adds(rules, db, Serve(rules, db, r), added)
    ensures Sound(rules, Serve(rules, db, r))
  {
    hide Authentic, Replay, Snapshot, AllPresent, AllAcceptable, Staged, Transaction, Filter, ByReplay, Files;
    var next := Serve(rules, db, r);
    var staged := Staged(rules, Filter(r.files, IsPending(db.rows)));
    if AllPresent(db.rows, r.files) && AllAcceptable(db.rows, r.files, r.verifyKnown, r.loadable) &&
       Transaction(rules, db, staged, r.broken).Some? {
      PendingAdds(rules, db, r);
      assert Adds(rules, db, next, Files(staged));
    } else {
      assert db.rows == db.rows + [];
      assert Adds(rules, db, next, []);
    }
  }

  /** The rows and the pending files together are the snapshot. */
  lemma SnapshotRows<P(!new)>(rules: Rules<P>, db: Db<P>, files: seq<File>, verifyKnown: bool, loadable: set<Text>)
    requires AllPresent(db.rows, files) && AllAcceptable(db.rows, files, verifyKnown, loadable) && DistinctKeys(db.rows)
    ensures var rows := db.rows + SortBy(ByReplay(rules), Filter(files, IsPending(db.rows)));
            forall f :: f in rows <==> f in files
  {
    var pending := Filter(files, IsPending(db.rows));
    var sorted := SortBy(ByReplay(rules), pending);
    assert forall f :: f in sorted <==> f in pending;
    assert forall f :: f in pending <==> f in files && Find(db.rows, f.key).None?;
    hide SortBy, Filter, Find;
    forall row | row in db.rows ensures row in files {
      var f :| f in files && f.key == row.key;
      assert Acceptable(db.rows, f, verifyKnown, loadable);
      if f != row {
        KeysDiffer(db.rows, f, row);
      }
    }
    forall f | f in files ensures f in db.rows || f in pending {
      assert Acceptable(db.rows, f, verifyKnown, loadable);
    }
  }

  lemma OutputsAdd<P(!new)>(rules: Rules<P>, db: Db<P>, keys: seq<Text>, store: map<Text, File>, broken: nat)
    requires Authentic(rules) && Sound(rules, db)
    ensures exists added :: Adds(rules, db, ApplyOutputs(rules, db, keys, store, broken), added)
    ensures Sound(rules, ApplyOutputs(rules, db, keys, store, broken))
  {
    var loaded := Load(db.rows, SortBy(TextBefore(), Once(keys)), store);
    var next := ApplyOutputs(rules, db, keys, store, broken);
    hide Authentic, Replay, Snapshot, Load, SortBy, Once;
    if loaded.Some? && Transaction(rules, db, Staged(rules, loaded.value), broken).Some? {
      RowsAdded(rules, db, Staged(rules, loaded.value), broken);
      StagedSorted(rules, loaded.value);
      hide InsertAll, Files, ByReplay, Staged;
      assert Adds(rules, db, next, Files(Staged(rules, loaded.value)));
    } else {
      assert db.rows == db.rows + [];
      assert Adds(rules, db, next, []);
    }
  }

  lemma ServeAddsSome<P(!new)>(rules: Rules<P>, db: Db<P>, r: Request)
    requires Authentic(rules) && Sound(rules, db) && Genuine(rules, r)
    ensures Sound(rules, Serve(rules, db, r)) && exists added :: Adds(rules, db, Serve(rules, db, r), added)
  {
    hide Authentic, Sound, Genuine, Adds, AdvanceToLatest, AdvanceToSnapshot, ApplyOutputs;
    match r
    case ToLatest(listing, broken) => LatestAdds(rules, db, listing, broken);
    case ToSnapshot(_, _, _, _, _) => SnapshotAdds(rules, db, r);
    case Outputs(keys, store, broken) => OutputsAdd(rules, db, keys, store, broken);
  }

  lemma ServeAdds<P(!new)>(rules: Rules<P>, db: Db<P>, r: Request)
    requires Authentic(rules) && Sound(rules, db) && Genuine(rules, r)
    ensures Sound(rules, Serve(rules, db, r)) && Adds(rules, db, Serve(rules, db, r), Added(rules, db, r))
  {
    hide Authentic, Sound, Genuine, Serve, Replayed, ByReplay;
    ServeAddsSome(rules, db, r);
    var added :| Adds(rules, db, Serve(rules, db, r), added);
    assert Serve(rules, db, r).rows[|db.rows|..] == added;
  }

  // Runs ------------------------------------------------------------------------------------------------------

  ghost predicate AllGenuine<P(!new)>(rules: Rules<P>, requests: seq<Request>) {
    forall r | r in requests :: Genuine(rules, r)
  }

  /** Whatever fails and is rolled back: each recorded segment was applied exactly once, the
      records are exactly the applied segments, and the revision is their snapshot's digest. */
  lemma {:induction false} RunIsSound<P(!new)>(rules: Rules<P>, db: Db<P>, requests: seq<Request>)
    requires Authentic(rules) && Sound(rules, db) && AllGenuine(rules, requests)
    ensures Sound(rules, Run(rules, db, requests))
    decreases |requests|
  {
    hide Authentic, Sound, Genuine, Serve, Adds;
    if requests != [] {
      assert requests[0] in requests && forall r | r in requests[1..] :: r in requests;
      ServeAdds(rules, db, requests[0]);
      RunIsSound(rules, Serve(rules, db, requests[0]), requests[1..]);
    }
  }

  lemma EmptyIsSound<P(!new)>(rules: Rules<P>)
    ensures Sound(rules, CreateEmpty(rules)) && InReplayOrder(rules, CreateEmpty(rules).rows)
  {
  }

  ghost predicate InReplayOrder<P(!new)>(rules: Rules<P>, rows: seq<File>) { SortedBy(ByReplay(rules), rows) }

  ghost predicate AllAfter<P(!new)>(rules: Rules<P>, rows: seq<File>, added: seq<File>) {
    forall a, b | a in rows && b in added :: ByReplay(rules)(a, b)
  }

  /** Every advance adds only segments that sort after all recorded ones. */
  ghost predicate TailsSortAfter<P(!new)>(rules: Rules<P>, db: Db<P>, requests: seq<Request>)
    decreases |requests|
  {
    requests == [] ||
    (AllAfter(rules, db.rows, Added(rules, db, requests[0])) &&
     TailsSortAfter(rules, Serve(rules, db, requests[0]), requests[1..]))
  }

  lemma OrderSplits<P(!new)>(rules: Rules<P>, rows: seq<File>, added: seq<File>)
    requires SortedBy(ByReplay(rules), added)
    ensures InReplayOrder(rules, rows + added) <==> InReplayOrder(rules, rows) && AllAfter(rules, rows, added)
  {
    hide ByReplay;
    var all := rows + added;
    if InReplayOrder(rules, all) {
      forall i, j | 0 <= i < j < |rows| ensures ByReplay(rules)(rows[i], rows[j]) {
        assert all[i] == rows[i] && all[j] == rows[j];
      }
      forall a, b | a in rows && b in added ensures ByReplay(rules)(a, b) {
        var i :| 0 <= i < |rows| && rows[i] == a;
        var j :| 0 <= j < |added| && added[j] == b;
        assert all[i] == a && all[|rows| + j] == b;
      }
    } else if InReplayOrder(rules, rows) && AllAfter(rules, rows, added) {
      forall i, j | 0 <= i < j < |all| ensures ByReplay(rules)(all[i], all[j]) {
        assert i < |rows| ==> all[i] in rows;
        assert j >= |rows| ==> all[j] in added;
      }
    }
  }

  lemma {:induction false} OrderOnlyGrows<P(!new)>(rules: Rules<P>, db: Db<P>, requests: seq<Request>)
    requires Authentic(rules) && Sound(rules, db) && AllGenuine(rules, requests)
    requires !InReplayOrder(rules, db.rows)
    ensures !InReplayOrder(rules, Run(rules, db, requests).rows)
    decreases |requests|
  {
    hide Authentic, Sound, Genuine, Serve, InReplayOrder;
    if requests != [] {
      assert requests[0] in requests && forall r | r in requests[1..] :: r in requests;
      ServeAdds(rules, db, requests[0]);
      OrderSplits(rules, db.rows, Added(rules, db, requests[0]));
      OrderOnlyGrows(rules, Serve(rules, db, requests[0]), requests[1..]);
    }
  }

  /** The records are in replay order exactly when every tail sorted after all earlier ones. */
  lemma {:induction false} OrderedExactly<P(!new)>(rules: Rules<P>, db: Db<P>, requests: seq<Request>)
    requires Authentic(rules) && Sound(rules, db) && AllGenuine(rules, requests) && InReplayOrder(rules, db.rows)
    ensures InReplayOrder(rules, Run(rules, db, requests).rows) <==> TailsSortAfter(rules, db, requests)
    decreases |requests|
  {
    hide Authentic, Sound, Genuine, Serve, InReplayOrder, AllAfter, Added;
    if requests != [] {
      assert requests[0] in requests && forall r | r in requests[1..] :: r in requests;
      ServeAdds(rules, db, requests[0]);
      var next := Serve(rules, db, requests[0]);
      OrderSplits(rules, db.rows, Added(rules, db, requests[0]));
      if InReplayOrder(rules, next.rows) {
        OrderedExactly(rules, next, requests[1..]);
      } else {
        OrderOnlyGrows(rules, next, requests[1..]);
      }
    }
  }

  // Against a single replay -----------------------------------------------------------------------------------

  /** The same segments are recorded. In which order is no part of the index. */
  ghost predicate SameRecords<P(!new)>(a: Db<P>, b: Db<P>) {
    a.revision == b.revision && forall f :: f in a.rows <==> f in b.rows
  }

  ghost predicate SameIndex<P(!new)>(a: Db<P>, b: Db<P>) {
    a.projection == b.projection && SameRecords(a, b)
  }

  lemma SameSegmentsSameRecords<P(!new)>(rules: Rules<P>, a: Db<P>, b: Db<P>)
    requires Sound(rules, a) && Sound(rules, b)
    requires forall f :: f in a.rows <==> f in b.rows
    ensures SameRecords(a, b)
  {
    KeyOrderOn(b.rows);
    SortSorts(ByKey(), b.rows);
    assert forall f :: f in Snapshot(b.rows) <==> f in b.rows;
    hide Replay, Snapshot, ByKey, SortBy;
    SnapshotIsUnique(a.rows, Snapshot(b.rows));
  }

  /** Applying two segments in either order comes to the same. */
  ghost predicate Commute<P(!new)>(rules: Rules<P>, a: Entry, b: Entry) {
    forall p :: rules.apply(rules.apply(p, a), b) == rules.apply(rules.apply(p, b), a)
  }

  /** Every late segment commutes with the recorded ones it sorts before. */
  ghost predicate LateCommute<P(!new)>(rules: Rules<P>, rows: seq<File>) {
    forall i, j | 0 <= i < j < |rows| && ByReplay(rules)(rows[j], rows[i]) ::
      Commute(rules, rules.entry(rows[i].key), rules.entry(rows[j].key))
  }

  function ApplyAll<P>(rules: Rules<P>, p: P, rows: seq<File>): P
    decreases |rows|
  {
    if rows == [] then p else ApplyAll(rules, rules.apply(p, rules.entry(rows[0].key)), rows[1..])
  }

  lemma {:induction false} ApplyAllSnoc<P>(rules: Rules<P>, p: P, rows: seq<File>, f: File)
    ensures ApplyAll(rules, p, rows + [f]) == rules.apply(ApplyAll(rules, p, rows), rules.entry(f.key))
    decreases |rows|
  {
    if rows == [] {
      assert (rows + [f])[1..] == [];
    } else {
      assert (rows + [f])[1..] == rows[1..] + [f];
      ApplyAllSnoc(rules, rules.apply(p, rules.entry(rows[0].key)), rows[1..], f);
    }
  }

  lemma {:induction false} ReplayIsApplyAll<P>(rules: Rules<P>, rows: seq<File>)
    ensures Replay(rules, rows) == ApplyAll(rules, rules.empty, rows)
  {
    if rows != [] {
      var front, last := rows[..|rows| - 1], rows[|rows| - 1];
      ReplayIsApplyAll(rules, front);
      ApplyAllSnoc(rules, rules.empty, front, last);
      assert rows == front + [last];
    }
  }

  lemma {:induction false} InsertCommutes<P(!new)>(rules: Rules<P>, p: P, f: File, rows: seq<File>)
    requires forall g | g in rows && ByReplay(rules)(g, f) :: Commute(rules, rules.entry(f.key), rules.entry(g.key))
    ensures ApplyAll(rules, p, InsertBy(ByReplay(rules), f, rows)) ==
            ApplyAll(rules, rules.apply(p, rules.entry(f.key)), rows)
    decreases |rows|
  {
    hide EntryBefore;
    if rows != [] && ByReplay(rules)(rows[0], f) {
      var rest := InsertBy(ByReplay(rules), f, rows[1..]);
      assert ([rows[0]] + rest)[1..] == rest;
      InsertCommutes(rules, rules.apply(p, rules.entry(rows[0].key)), f, rows[1..]);
    } else {
      assert ([f] + rows)[1..] == rows;
    }
  }

  lemma {:induction false} SortCommutes<P(!new)>(rules: Rules<P>, p: P, rows: seq<File>)
    requires LateCommute(rules, rows)
    ensures ApplyAll(rules, p, SortBy(ByReplay(rules), rows)) == ApplyAll(rules, p, rows)
    decreases |rows|
  {
    hide ByReplay, Commute;
    if rows != [] {
      var rest := rows[1..];
      LateTail(rules, rows);
      hide LateCommute;
      SortCommutes(rules, rules.apply(p, rules.entry(rows[0].key)), rest);
      InsertCommutes(rules, p, rows[0], SortBy(ByReplay(rules), rest));
    }
  }

  lemma LateTail<P(!new)>(rules: Rules<P>, rows: seq<File>)
    requires rows != [] && LateCommute(rules, rows)
    ensures LateCommute(rules, rows[1..])
    ensures forall g | g in rows[1..] && ByReplay(rules)(g, rows[0]) ::
              Commute(rules, rules.entry(rows[0].key), rules.entry(g.key))
  {
    hide ByReplay, Commute;
    forall g | g in rows[1..] && ByReplay(rules)(g, rows[0])
      ensures Commute(rules, rules.entry(rows[0].key), rules.entry(g.key))
    {
      var j :| 0 <= j < |rows| - 1 && rows[1..][j] == g;
      assert rows[j + 1] == g;
    }
  }

  lemma OrderedIsLateFree<P(!new)>(rules: Rules<P>, rows: seq<File>)
    requires Authentic(rules) && DistinctKeys(rows) && InReplayOrder(rules, rows)
    ensures LateCommute(rules, rows)
  {
    forall i, j | 0 <= i < j < |rows| ensures !ByReplay(rules)(rows[j], rows[i]) {
      DifferentFiles(rules, rows[i], rows[j]);
    }
  }

  /** Records in replay order are the sorted records. */
  lemma OrderedIsSorted<P(!new)>(rules: Rules<P>, ordered: seq<File>, rows: seq<File>)
    requires Authentic(rules) && DistinctKeys(ordered) && DistinctKeys(rows) && InReplayOrder(rules, ordered)
    requires forall f :: f in ordered <==> f in rows
    ensures ordered == SortBy(ByReplay(rules), rows)
  {
    forall x, y | x in ordered && y in ordered ensures !(ByReplay(rules)(x, y) && ByReplay(rules)(y, x)) {
      if x == y {
        NotBeforeItself(rules, x);
      } else {
        KeysDiffer(ordered, x, y);
        DifferentFiles(rules, x, y);
      }
    }
    ReplayOrder(rules, rows);
    SortSorts(ByReplay(rules), rows);
    hide Authentic, ByReplay;
    SortedIsUnique(ByReplay(rules), ordered, SortBy(ByReplay(rules), rows));
  }

  lemma FirstAdvanceIsOrdered<P(!new)>(rules: Rules<P>, r: Request)
    requires Authentic(rules) && Genuine(rules, r)
    ensures var once := Serve(rules, CreateEmpty(rules), r); Sound(rules, once) && InReplayOrder(rules, once.rows)
  {
    EmptyIsSound(rules);
    ServeAdds(rules, CreateEmpty(rules), r);
    var added := Added(rules, CreateEmpty(rules), r);
    assert [] + added == added;
    hide Authentic, Genuine, Serve, Sound;
  }

  /** One replay from nothing and any sound index that records the same segments have the same
      revision; they are the same index if every late segment commutes with the recorded ones
      it sorts before. */
  lemma ReplayOfSameSegments<P(!new)>(rules: Rules<P>, db: Db<P>, r: Request)
    requires Authentic(rules) && Genuine(rules, r) && Sound(rules, db)
    requires forall f :: f in Serve(rules, CreateEmpty(rules), r).rows <==> f in db.rows
    ensures var once := Serve(rules, CreateEmpty(rules), r);
            SameRecords(once, db) && (LateCommute(rules, db.rows) ==> SameIndex(once, db))
  {
    var once := Serve(rules, CreateEmpty(rules), r);
    FirstAdvanceIsOrdered(rules, r);
    SameSegmentsSameRecords(rules, once, db);
    if LateCommute(rules, db.rows) {
      OrderedIsSorted(rules, once.rows, db.rows);
      SortCommutes(rules, rules.empty, db.rows);
      ReplayIsApplyAll(rules, once.rows);
      ReplayIsApplyAll(rules, db.rows);
    }
    hide Authentic, Genuine, Serve, Replay, ApplyAll, LateCommute, CreateEmpty, InReplayOrder, Snapshot, SortBy;
  }

  /** The same after any run, whose index is also the same if every tail sorted after all earlier
      segments: then no segment was late. */
  lemma SameFilesSameIndex<P(!new)>(rules: Rules<P>, requests: seq<Request>, r: Request)
    requires Authentic(rules) && AllGenuine(rules, requests) && Genuine(rules, r)
    requires forall f :: f in Serve(rules, CreateEmpty(rules), r).rows <==>
               f in Run(rules, CreateEmpty(rules), requests).rows
    ensures var once, db := Serve(rules, CreateEmpty(rules), r), Run(rules, CreateEmpty(rules), requests);
            SameRecords(once, db) &&
            (LateCommute(rules, db.rows) || TailsSortAfter(rules, CreateEmpty(rules), requests) ==> SameIndex(once, db))
  {
    hide Authentic, Genuine, Serve, InReplayOrder, Run, CreateEmpty, TailsSortAfter, LateCommute, Replay, Snapshot;
    EmptyIsSound(rules);
    var db := Run(rules, CreateEmpty(rules), requests);
    RunIsSound(rules, CreateEmpty(rules), requests);
    OrderedExactly(rules, CreateEmpty(rules), requests);
    ReplayOfSameSegments(rules, db, r);
    if TailsSortAfter(rules, CreateEmpty(rules), requests) {
      OrderedIsLateFree(rules, db.rows);
    }
  }
}
