/** What holds of the durable index after any sequence of advances. */
module IndexRuns {
  import opened Sequences
  import opened Sorting
  import opened JsonText
  import opened TextOrder
  import opened BucketLog
  import opened DurableIndexes

  datatype Request =
    | ToLatest(listing: seq<Listed>, broken: nat)
    | ToSnapshot(revision: string, files: seq<File>, verifyKnown: bool, loadable: set<Text>, broken: nat)
    | Outputs(keys: seq<Text>, store: map<Text, File>, broken: nat)

  function Serve<P>(rules: Rules<P>, db: Db<P>, r: Request): Db<P> {
    match r
    case ToLatest(listing, broken) => AdvanceToLatest(rules, db, listing, broken)
    case ToSnapshot(revision, files, verifyKnown, loadable, broken) =>
      AdvanceToSnapshot(rules, db, revision, files, verifyKnown, loadable, broken)
    case Outputs(keys, store, broken) => ApplyOutputs(rules, db, keys, store, broken)
  }

  function Run<P>(rules: Rules<P>, db: Db<P>, requests: seq<Request>): Db<P>
    decreases |requests|
  {
    if requests == [] then db else Run(rules, Serve(rules, db, requests[0]), requests[1..])
  }

  /** Keys are content-addressed, and snapshots list their files in key order under their digest. */
  ghost predicate Authentic<P(!new)>(rules: Rules<P>) {
    forall key :: rules.entry(key).key == key && ValidEntry(rules.entry(key))
  }

  ghost predicate Genuine<P(!new)>(rules: Rules<P>, r: Request) {
    r.ToSnapshot? ==> r.revision == rules.digest(r.files) && SortedBy(ByKey(), r.files)
  }

  // The invariant -------------------------------------------------------------------------------------------

  /** Apply the segments of some files, in their order, to nothing. */
  function Replay<P>(rules: Rules<P>, rows: seq<File>): P {
    if rows == [] then rules.empty
    else rules.apply(Replay(rules, rows[..|rows| - 1]), rules.entry(rows[|rows| - 1].key))
  }

  /** Every recorded segment was applied exactly once, in the order of the records, and the
      revision is the digest of the recorded set. */
  ghost predicate Sound<P(!new)>(rules: Rules<P>, db: Db<P>) {
    DistinctKeys(db.rows) && db.projection == Replay(rules, db.rows) && db.revision == rules.digest(Snapshot(db.rows))
  }

  function Files(staged: seq<Option<File>>): seq<File> {
    if staged == [] then []
    else Files(staged[..|staged| - 1]) + if staged[|staged| - 1].Some? then [staged[|staged| - 1].value] else []
  }

  /** Rows and projection agree, whatever the revision says. */
  ghost predicate Replayed<P(!new)>(rules: Rules<P>, db: Db<P>) {
    DistinctKeys(db.rows) && db.projection == Replay(rules, db.rows)
  }

  lemma InsertReplays<P(!new)>(rules: Rules<P>, db: Db<P>, f: File)
    requires Replayed(rules, db) && Insert(rules, db, f).Some?
    ensures Replayed(rules, Insert(rules, db, f).value) && Insert(rules, db, f).value.rows == db.rows + [f]
  {
    hide Find;
    assert (db.rows + [f])[..|db.rows|] == db.rows;
  }

  lemma {:induction false} InsertAllReplays<P(!new)>(rules: Rules<P>, db: Db<P>, staged: seq<Option<File>>)
    requires Replayed(rules, db) && InsertAll(rules, db, staged).Some?
    ensures var next := InsertAll(rules, db, staged).value;
            Replayed(rules, next) && next.rows == db.rows + Files(staged)
  {
    hide Replayed, Insert;
    if staged != [] {
      var front := staged[..|staged| - 1];
      InsertAllReplays(rules, db, front);
      InsertReplays(rules, InsertAll(rules, db, front).value, staged[|staged| - 1].value);
    }
  }

  lemma {:induction false} AllStaged<P(!new)>(rules: Rules<P>, db: Db<P>, staged: seq<Option<File>>)
    requires InsertAll(rules, db, staged).Some?
    ensures forall i | 0 <= i < |staged| :: staged[i].Some?
  {
    hide Insert;
    if staged != [] {
      AllStaged(rules, db, staged[..|staged| - 1]);
    }
  }

  lemma {:induction false} ValuesOf(staged: seq<Option<File>>)
    requires forall i | 0 <= i < |staged| :: staged[i].Some?
    ensures |Files(staged)| == |staged| && forall i | 0 <= i < |staged| :: Files(staged)[i] == staged[i].value
  {
    if staged != [] {
      ValuesOf(staged[..|staged| - 1]);
    }
  }

  // Orders --------------------------------------------------------------------------------------------------

  lemma FileOrders<P(!new)>(rules: Rules<P>, a: File, b: File)
    requires Authentic(rules)
    ensures ByReplay(rules)(a, b) <==> Earlier(rules.entry(a.key), rules.entry(b.key))
    ensures KeyBefore(rules.entry(a.key), rules.entry(b.key)) <==> Earlier(rules.entry(a.key), rules.entry(b.key))
  {
    hide EntryBefore, KeyBefore, Earlier, ValidEntry;
    OneOrder(rules.entry(a.key), rules.entry(b.key));
  }

  lemma DifferentFiles<P(!new)>(rules: Rules<P>, a: File, b: File)
    requires Authentic(rules) && a.key != b.key
    ensures ByReplay(rules)(a, b) || ByReplay(rules)(b, a)
    ensures !(ByReplay(rules)(a, b) && ByReplay(rules)(b, a))
  {
    hide EntryBefore, KeyBefore, Earlier, ValidEntry;
    FileOrders(rules, a, b);
    FileOrders(rules, b, a);
    EarlierIsTotal(rules.entry(a.key), rules.entry(b.key));
  }

  lemma ReplayChains<P(!new)>(rules: Rules<P>, a: File, b: File, c: File)
    requires Authentic(rules) && ByReplay(rules)(a, b) && ByReplay(rules)(b, c)
    ensures ByReplay(rules)(a, c)
  {
    hide EntryBefore, KeyBefore, Earlier, ValidEntry;
    FileOrders(rules, a, b);
    FileOrders(rules, b, c);
    FileOrders(rules, a, c);
    EarlierIsTransitive(rules.entry(a.key), rules.entry(b.key), rules.entry(c.key));
  }

  lemma NotBeforeItself<P(!new)>(rules: Rules<P>, a: File)
    requires Authentic(rules)
    ensures !ByReplay(rules)(a, a)
  {
    NotLessSelf(a.key);
    hide Less;
    NotLessSelf(rules.entry(a.key).transaction);
    FileOrders(rules, a, a);
  }

  lemma ReplayOrder<P(!new)>(rules: Rules<P>, rows: seq<File>)
    requires Authentic(rules) && DistinctKeys(rows)
    ensures Distinct(rows) && OrderOn(ByReplay(rules), rows)
  {
    hide ByReplay;
    forall a, b | a in rows && b in rows && a != b ensures ByReplay(rules)(a, b) || ByReplay(rules)(b, a) {
      KeysDiffer(rows, a, b);
      DifferentFiles(rules, a, b);
    }
    forall a, b, c | a in rows && b in rows && c in rows && ByReplay(rules)(a, b) && ByReplay(rules)(b, c)
      ensures ByReplay(rules)(a, c)
    {
      ReplayChains(rules, a, b, c);
    }
  }

  lemma KeyOrderOn(rows: seq<File>)
    requires DistinctKeys(rows)
    ensures Distinct(rows) && OrderOn(ByKey(), rows)
  {
    hide Less;
    forall a, b | a in rows && b in rows && a != b ensures Less(a.key, b.key) || Less(b.key, a.key) {
      KeysDiffer(rows, a, b);
      LessIsTotal(a.key, b.key);
    }
    forall a, b, c | a in rows && b in rows && c in rows && Less(a.key, b.key) && Less(b.key, c.key)
      ensures Less(a.key, c.key)
    {
      LessIsTransitive(a.key, b.key, c.key);
    }
  }

  /** The snapshot of a set of files is that set in key order. */
  lemma SnapshotIsUnique(rows: seq<File>, files: seq<File>)
    requires DistinctKeys(rows) && SortedBy(ByKey(), files)
    requires forall f :: f in rows <==> f in files
    ensures Snapshot(rows) == files
  {
    KeyOrderOn(rows);
    SortSorts(ByKey(), rows);
    hide Less;
    forall x, y | x in Snapshot(rows) && y in Snapshot(rows) ensures !(Less(x.key, y.key) && Less(y.key, x.key)) {
      LessIsTotal(x.key, y.key);
    }
    SortedIsUnique(ByKey(), Snapshot(rows), files);
  }
}
