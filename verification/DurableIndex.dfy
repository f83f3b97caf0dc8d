/** The durable index: a projection of the raw log, the segments it was built from, and the
    revision of that set, advanced in transactions. */
module DurableIndexes {
  import opened Sequences
  import opened Sorting
  import opened JsonText
  import opened TextOrder
  import opened BucketLog
  import opened BucketConfig
  import opened Numbers

  /** The identity of a verified segment object. */
  datatype File = File(key: Text, oid: string, listedOid: Option<string>, size: nat, content: string)

  /** What one segment does to the projection, the digest of a snapshot, and the segment that
      a content-addressed key names. */
  datatype Rules<!P> = Rules(empty: P, apply: (P, Entry) -> P, digest: seq<File> -> string, entry: Text -> Entry)

  datatype Db<P> = Db(projection: P, rows: seq<File>, revision: string)

  /** A listed object, with what downloading it would show if it verifies. */
  datatype Body = Body(oid: string, content: string)
  datatype Listed = Listed(key: Text, oid: Option<string>, size: nat, body: Option<Body>)

  function Verify(o: Listed): Option<File> {
    if o.body.None? then None else Some(File(o.key, o.body.value.oid, o.oid, o.size, o.body.value.content))
  }

  function ByKey(): (File, File) -> bool { (a: File, b: File) => Less(a.key, b.key) }

  function ByListedKey<P>(rules: Rules<P>): (Listed, Listed) -> bool {
    (a: Listed, b: Listed) => KeyBefore(rules.entry(a.key), rules.entry(b.key))
  }

  function ByReplay<P>(rules: Rules<P>): (File, File) -> bool {
    (a: File, b: File) => EntryBefore(rules.entry(a.key), rules.entry(b.key))
  }

  function Snapshot(rows: seq<File>): seq<File> { SortBy(ByKey(), rows) }

  function Find(rows: seq<File>, key: Text): (r: Option<File>)
    ensures r.Some? ==> r.value in rows && r.value.key == key
    ensures r.None? ==> forall f | f in rows :: f.key != key
  {
    if rows == [] then None else if rows[0].key == key then Some(rows[0]) else Find(rows[1..], key)
  }

  function CreateEmpty<P>(rules: Rules<P>): Db<P> { Db(rules.empty, [], rules.digest(Snapshot([]))) }

  // One transaction -------------------------------------------------------------------------------------------

  /** Apply one segment and record it; a recorded key cannot be recorded again. */
  function Insert<P>(rules: Rules<P>, db: Db<P>, f: File): Option<Db<P>> {
    if Find(db.rows, f.key).Some? then None
    else Some(db.(projection := rules.apply(db.projection, rules.entry(f.key)), rows := db.rows + [f]))
  }

  function InsertAll<P>(rules: Rules<P>, db: Db<P>, staged: seq<Option<File>>): Option<Db<P>> {
    if staged == [] then Some(db)
    else
      match (InsertAll(rules, db, staged[..|staged| - 1]), staged[|staged| - 1])
      case (Some(before), Some(f)) => Insert(rules, before, f)
      case _ => None
  }

  /** The transaction: `broken` is the step at which something throws, if it is one of them. */
  function Transaction<P>(rules: Rules<P>, db: Db<P>, staged: seq<Option<File>>, broken: nat): Option<Db<P>> {
    if broken <= |staged| then None else InsertAll(rules, db, staged)
  }

  // The cached texts -----------------------------------------------------------------------------------------

  function EntriesIn<P>(rules: Rules<P>, staged: seq<Option<File>>): seq<Entry> {
    if staged == [] then []
    else
      EntriesIn(rules, staged[..|staged| - 1]) +
      match staged[|staged| - 1]
      case None => []
      case Some(f) => [rules.entry(f.key)]
  }

  /** How many segments a transaction that may take `n` applies and records. */
  function Reached<P>(rules: Rules<P>, db: Db<P>, staged: seq<Option<File>>, n: nat): (m: nat)
    requires n <= |staged|
    ensures m <= n
  {
    if n == 0 || InsertAll(rules, db, staged[..n]).Some? then n else Reached(rules, db, staged, n - 1)
  }

  /** The first operations of a segment, or all of them. */
  function Part(e: Entry, operations: Option<nat>): seq<Operation> {
    match operations
    case None => e.operations
    case Some(n) => e.operations[..Least(n, |e.operations|)]
  }

  /** A segment of which only the first operations were applied. */
  function FirstOf(e: Entry, operations: nat): seq<Entry> {
    var done := Part(e, Some(operations));
    if done == [] then [] else [e.(operations := done)]
  }

  /** The segments a transaction applies, committed or not. At the step that throws,
      `operations` of the segment's operations are applied; a segment whose key is already
      recorded is applied whole before its record is refused. (When a segment cannot be loaded,
      its whole batch is not applied: the step that throws is then the first of that batch.) */
  function Applied<P>(rules: Rules<P>, db: Db<P>, staged: seq<Option<File>>, broken: nat, operations: nat): seq<Entry> {
    var n := Reached(rules, db, staged, Least(broken, |staged|));
    EntriesIn(rules, staged[..n]) +
    if n == |staged| || staged[n].None? then []
    else if n == broken then FirstOf(rules.entry(staged[n].value.key), operations)
    else [rules.entry(staged[n].value.key)]
  }

  /** The cached texts after a transaction. Nothing undoes them. */
  function TextsAfter<P>(rules: Rules<P>, db: Db<P>, texts: Values, staged: seq<Option<File>>, broken: nat,
                         operations: nat): Values {
    SetEntries(texts, Applied(rules, db, staged, broken, operations))
  }

  // Advancing to the listed head --------------------------------------------------------------------------------

  /** What a listed object is to the known rows: new, unchanged, or changed. */
  datatype Standing = New | Known | Changed

  function StandingOf(rows: seq<File>, o: Listed): Standing {
    match Find(rows, o.key)
    case None => New
    case Some(row) =>
      if row.size != o.size then Changed
      else if o.oid.Some? && row.listedOid == o.oid then Known
      else if Verify(o).None? || Verify(o).value.oid != row.oid then Changed
      else Known
  }

  function IsNew(rows: seq<File>): Listed -> bool { o => StandingOf(rows, o).New? }

  predicate NothingDeleted(rows: seq<File>, listing: seq<Listed>) {
    forall f | f in rows :: exists o :: o in listing && o.key == f.key
  }

  predicate NothingChanged(rows: seq<File>, listing: seq<Listed>) {
    forall o | o in listing :: !StandingOf(rows, o).Changed?
  }

  // What discovery finds, object by object

  ghost predicate Lists(listing: seq<Listed>, key: Text) { exists o :: o in listing && o.key == key }

  ghost predicate Records(rows: seq<File>, key: Text) { exists f :: f in rows && f.key == key }

  ghost predicate DistinctKeys(rows: seq<File>) {
    forall i, j | 0 <= i < j < |rows| :: rows[i].key != rows[j].key
  }

  lemma KeysDiffer(rows: seq<File>, a: File, b: File)
    requires DistinctKeys(rows) && a in rows && b in rows && a != b
    ensures a.key != b.key
  {
    var i :| 0 <= i < |rows| && rows[i] == a;
    var j :| 0 <= j < |rows| && rows[j] == b;
    if i > j {
      assert rows[j].key != rows[i].key;
    }
  }

  /** The listed object still is the recorded one: its size, and either the identity it was
      listed with or, when it is downloaded and verified, the identity of its bytes. */
  ghost predicate SameObject(f: File, o: Listed) {
    && o.size == f.size
    && ((o.oid.Some? && o.oid == f.listedOid) || (o.body.Some? && o.body.value.oid == f.oid))
  }

  /** Every recorded segment is listed, and no listed object with a recorded key is another one. */
  ghost predicate Unaltered(rows: seq<File>, listing: seq<Listed>) {
    (forall f | f in rows :: Lists(listing, f.key)) &&
    forall o, f | o in listing && f in rows && f.key == o.key :: SameObject(f, o)
  }

  lemma StandingExactly(rows: seq<File>, o: Listed)
    requires DistinctKeys(rows)
    ensures StandingOf(rows, o).New? <==> !Records(rows, o.key)
    ensures StandingOf(rows, o).Changed? <==> exists f :: f in rows && f.key == o.key && !SameObject(f, o)
  {
    if Find(rows, o.key).Some? {
      var row := Find(rows, o.key).value;
      forall f | f in rows && f.key == o.key ensures f == row {
        if f != row {
          KeysDiffer(rows, f, row);
        }
      }
    }
  }

  /** Exactly the listed objects whose key is not recorded. */
  ghost predicate AllNew(rows: seq<File>, listing: seq<Listed>, found: seq<Listed>) {
    forall o :: o in found <==> o in listing && !Records(rows, o.key)
  }

  lemma UnalteredExactly(rows: seq<File>, listing: seq<Listed>)
    requires DistinctKeys(rows)
    ensures NothingDeleted(rows, listing) && NothingChanged(rows, listing) <==> Unaltered(rows, listing)
    ensures AllNew(rows, listing, Filter(listing, IsNew(rows)))
  {
    forall o: Listed
      ensures StandingOf(rows, o).New? <==> !Records(rows, o.key)
      ensures StandingOf(rows, o).Changed? <==> exists f :: f in rows && f.key == o.key && !SameObject(f, o)
    {
      StandingExactly(rows, o);
    }
    hide StandingOf, SameObject, DistinctKeys, Records;
    var found := Filter(listing, IsNew(rows));
    forall o ensures o in found <==> o in listing && !Records(rows, o.key) {
      assert IsNew(rows)(o) == StandingOf(rows, o).New?;
    }
  }

  /** An altered log stops an advance before anything is applied. */
  lemma AlteredStopsAdvance<P>(rules: Rules<P>, db: Db<P>, listing: seq<Listed>, broken: nat)
    requires DistinctKeys(db.rows) && !Unaltered(db.rows, listing)
    ensures AdvanceToLatest(rules, db, listing, broken) == db
  {
    UnalteredExactly(db.rows, listing);
    hide Unaltered, NothingDeleted, NothingChanged, StandingOf;
  }

  function Verifier(): Listed -> Option<File> { o => Verify(o) }

  function Tail<P>(rules: Rules<P>, rows: seq<File>, listing: seq<Listed>): seq<Option<File>> {
    Map(Verifier(), SortBy(ByListedKey(rules), Filter(listing, IsNew(rows))))
  }

  function AdvanceToLatest<P>(rules: Rules<P>, db: Db<P>, listing: seq<Listed>, broken: nat): Db<P> {
    if !NothingDeleted(db.rows, listing) || !NothingChanged(db.rows, listing) then db
    else
      match Transaction(rules, db, Tail(rules, db.rows, listing), broken)
      case None => db
      case Some(next) => next.(revision := rules.digest(Snapshot(next.rows)))
  }

  // Advancing to a snapshot -------------------------------------------------------------------------------------

  function IsPending(rows: seq<File>): File -> bool { (f: File) => Find(rows, f.key).None? }

  predicate AllPresent(rows: seq<File>, files: seq<File>) {
    forall row | row in rows :: exists f :: f in files && f.key == row.key
  }

  /** A recorded file has the same identity; what must be loaded can be. */
  predicate Acceptable(rows: seq<File>, f: File, verifyKnown: bool, loadable: set<Text>) {
    (Find(rows, f.key).None? || Find(rows, f.key) == Some(f)) &&
    (f.key in loadable || (!verifyKnown && Find(rows, f.key).Some?))
  }

  predicate AllAcceptable(rows: seq<File>, files: seq<File>, verifyKnown: bool, loadable: set<Text>) {
    forall f | f in files :: Acceptable(rows, f, verifyKnown, loadable)
  }

  /** Every record is a file of the snapshot, unchanged, and what must be loaded can be. */
  ghost predicate FitsSnapshot(rows: seq<File>, files: seq<File>, verifyKnown: bool, loadable: set<Text>) {
    (forall row | row in rows :: row in files) &&
    forall f | f in files :: f.key in loadable || (!verifyKnown && f in rows)
  }

  lemma FitsExactly(rows: seq<File>, files: seq<File>, verifyKnown: bool, loadable: set<Text>)
    requires DistinctKeys(rows) && DistinctKeys(files)
    ensures AllPresent(rows, files) && AllAcceptable(rows, files, verifyKnown, loadable) <==>
              FitsSnapshot(rows, files, verifyKnown, loadable)
  {
    if AllPresent(rows, files) && AllAcceptable(rows, files, verifyKnown, loadable) {
      forall row | row in rows ensures row in files {
        var f :| f in files && f.key == row.key;
        assert Acceptable(rows, f, verifyKnown, loadable);
        if row != f {
          KeysDiffer(rows, row, f);
        }
      }
      forall f | f in files ensures f.key in loadable || (!verifyKnown && f in rows) {
        assert Acceptable(rows, f, verifyKnown, loadable);
      }
    }
    if FitsSnapshot(rows, files, verifyKnown, loadable) {
      forall f | f in files ensures Acceptable(rows, f, verifyKnown, loadable) {
        if Find(rows, f.key).Some? && Find(rows, f.key).value != f {
          KeysDiffer(files, Find(rows, f.key).value, f);
        }
      }
    }
  }

  /** A snapshot that leaves a record out or changes it stops the advance. */
  lemma MisfitStopsAdvance<P>(rules: Rules<P>, db: Db<P>, revision: string, files: seq<File>, verifyKnown: bool,
                              loadable: set<Text>, broken: nat)
    requires DistinctKeys(db.rows) && DistinctKeys(files) && !FitsSnapshot(db.rows, files, verifyKnown, loadable)
    ensures AdvanceToSnapshot(rules, db, revision, files, verifyKnown, loadable, broken) == db
  {
    FitsExactly(db.rows, files, verifyKnown, loadable);
    hide FitsSnapshot, AllPresent, AllAcceptable;
  }

  function Present(): File -> Option<File> { f => Some(f) }

  function Staged<P>(rules: Rules<P>, pending: seq<File>): seq<Option<File>> {
    Map(Present(), SortBy(ByReplay(rules), pending))
  }

  /** `loadable` are the keys whose segments load; with `verifyKnown` known ones are loaded too. */
  function AdvanceToSnapshot<P>(rules: Rules<P>, db: Db<P>, revision: string, files: seq<File>, verifyKnown: bool,
                                loadable: set<Text>, broken: nat): Db<P> {
    if !AllPresent(db.rows, files) || !AllAcceptable(db.rows, files, verifyKnown, loadable) then db
    else
      match Transaction(rules, db, Staged(rules, Filter(files, IsPending(db.rows))), broken)
      case None => db
      case Some(next) => next.(revision := revision)
  }

  // Applying output segments ------------------------------------------------------------------------------------

  function TextBefore(): (Text, Text) -> bool { (a, b) => Less(a, b) }

  /** Each key once, at its first place. */
  function Once(keys: seq<Text>): (r: seq<Text>)
    ensures forall k :: k in r <==> k in keys
  {
    if keys == [] then []
    else
      var before := Once(keys[..|keys| - 1]);
      assert keys == keys[..|keys| - 1] + [keys[|keys| - 1]];
      if keys[|keys| - 1] in before then before else before + [keys[|keys| - 1]]
  }

  /** Load the segments that are not recorded yet, if every one of them can be loaded. */
  function Load(rows: seq<File>, keys: seq<Text>, store: map<Text, File>): Option<seq<File>> {
    if keys == [] then Some([])
    else
      var key := keys[|keys| - 1];
      match Load(rows, keys[..|keys| - 1], store)
      case None => None
      case Some(before) =>
        if Find(rows, key).Some? then Some(before)
        else if key !in store then None
        else Some(before + [store[key].(key := key)])
  }

  function ApplyOutputs<P>(rules: Rules<P>, db: Db<P>, keys: seq<Text>, store: map<Text, File>, broken: nat): Db<P> {
    match Load(db.rows, SortBy(TextBefore(), Once(keys)), store)
    case None => db
    case Some(loaded) =>
      match Transaction(rules, db, Staged(rules, loaded), broken)
      case None => db
      case Some(next) => next.(revision := rules.digest(Snapshot(db.rows + SortBy(ByReplay(rules), loaded))))
  }

  // The working database ----------------------------------------------------------------------------------------

  lemma {:induction false} MissingStays<P>(rules: Rules<P>, db: Db<P>, staged: seq<Option<File>>, n: nat)
    requires n <= |staged| && InsertAll(rules, db, staged[..n]).None?
    ensures InsertAll(rules, db, staged).None?
    decreases |staged| - n
  {
    if n == |staged| {
      assert staged[..n] == staged;
    } else {
      assert staged[..n + 1][..n] == staged[..n];
      MissingStays(rules, db, staged, n + 1);
    }
  }

  lemma {:induction false} ReachedIs<P>(rules: Rules<P>, db: Db<P>, staged: seq<Option<File>>, n: nat, m: nat)
    requires m <= n <= |staged| && InsertAll(rules, db, staged[..m]).Some?
    requires m < n ==> InsertAll(rules, db, staged[..m + 1]).None?
    ensures Reached(rules, db, staged, n) == m
    decreases n
  {
    hide InsertAll;
    if m < n {
      assert staged[..n][..m + 1] == staged[..m + 1];
      MissingStays(rules, db, staged[..n], m + 1);
      if m < n - 1 {
        ReachedIs(rules, db, staged, n - 1, m);
      }
    }
  }

  lemma OneMoreEntry<P>(rules: Rules<P>, staged: seq<Option<File>>, i: nat)
    requires i < |staged| && staged[i].Some?
    ensures EntriesIn(rules, staged[..i + 1]) == EntriesIn(rules, staged[..i]) + [rules.entry(staged[i].value.key)]
  {
    assert staged[..i + 1][..i] == staged[..i];
  }

  lemma SetOneMore(values: Values, entries: seq<Entry>, e: Entry, operations: nat)
    ensures SetEntries(values, entries + [e]) == SetAll(SetEntries(values, entries), e.operations)
    ensures SetEntries(values, entries + FirstOf(e, operations)) ==
            SetAll(SetEntries(values, entries), Part(e, Some(operations)))
  {
    var first := FirstOf(e, operations);
    assert (entries + [e])[..|entries|] == entries && (entries + first)[..|entries|] == entries;
    if first == [] {
      assert entries + first == entries && e.operations[..0] == [];
    } else {
      hide SetAll;
    }
  }

  lemma InsertStep<P>(rules: Rules<P>, before: Db<P>, staged: seq<Option<File>>, i: nat, db: Db<P>)
    requires i < |staged| && InsertAll(rules, before, staged[..i]) == Some(db)
    ensures InsertAll(rules, before, staged[..i + 1]) ==
            if staged[i].None? then None else Insert(rules, db, staged[i].value)
  {
    hide Insert;
    assert staged[..i + 1][..i] == staged[..i];
  }

  /** A transaction that stops after `i` segments, or takes them all. */
  lemma StopsAt<P>(rules: Rules<P>, before: Db<P>, texts: Values, staged: seq<Option<File>>, broken: nat,
                   operations: nat, i: nat)
    requires i <= |staged| && i <= broken && InsertAll(rules, before, staged[..i]).Some?
    requires i < |staged| && i < broken ==> InsertAll(rules, before, staged[..i + 1]).None?
    ensures Transaction(rules, before, staged, broken) ==
            if i == |staged| && i < broken then InsertAll(rules, before, staged[..i]) else None
    ensures var known := SetEntries(texts, EntriesIn(rules, staged[..i]));
            TextsAfter(rules, before, texts, staged, broken, operations) ==
            if i == |staged| || staged[i].None? then known
            else SetAll(known, Part(rules.entry(staged[i].value.key), if i == broken then Some(operations) else None))
  {
    hide InsertAll, SetAll, SetEntries;
    assert staged[..|staged|] == staged;
    if i < |staged| && i < broken {
      MissingStays(rules, before, staged, i + 1);
    }
    ReachedIs(rules, before, staged, Least(broken, |staged|), i);
    assert EntriesIn(rules, staged[..i]) + [] == EntriesIn(rules, staged[..i]);
    if i < |staged| && staged[i].Some? {
      SetOneMore(texts, EntriesIn(rules, staged[..i]), rules.entry(staged[i].value.key), operations);
    }
  }

  lemma NothingInserted<P>(rules: Rules<P>, before: Db<P>, texts: Values, staged: seq<Option<File>>)
    ensures InsertAll(rules, before, staged[..0]) == Some(before)
    ensures SetEntries(texts, EntriesIn(rules, staged[..0])) == texts
  {
  }

  lemma TailIs<P>(rules: Rules<P>, rows: seq<File>, listing: seq<Listed>)
    ensures Tail(rules, rows, listing) == Map(Verifier(), SortBy(ByListedKey(rules), Filter(listing, IsNew(rows))))
  {
  }

  class DurableIndex<!P> {
    const rules: Rules<P>
    var projection: P
    var rows: seq<File>
    var revision: string
    var texts: Values

    function State(): Db<P>
      reads this
    {
      Db(projection, rows, revision)
    }

    constructor (rules: Rules<P>)
      ensures this.rules == rules && State() == CreateEmpty(rules) && texts == map[]
    {
      this.rules := rules;
      projection := rules.empty;
      rows := [];
      revision := rules.digest(Snapshot([]));
      texts := map[];
    }

    /** Set the texts of a segment's operations, one after the other. */
    method Remember(done: seq<Operation>)
      modifies this`texts
      ensures texts == SetAll(old(texts), done)
    {
      for j := 0 to |done|
        invariant texts == SetAll(old(texts), done[..j])
      {
        if done[j].Write? {
          texts := texts[done[j].path := done[j].content];
        }
        assert done[..j + 1][..j] == done[..j];
      }
      assert done[..|done|] == done;
    }

    /** Segment by segment, each applied and recorded; whatever throws undoes all of it but the
        texts that were set. */
    method Apply(staged: seq<Option<File>>, broken: nat, operations: nat) returns (committed: bool)
      modifies this
      ensures var after := Transaction(rules, old(State()), staged, broken);
              committed == after.Some? && State() == if committed then after.value else old(State())
      ensures texts == TextsAfter(rules, old(State()), old(texts), staged, broken, operations)
    {
      hide InsertAll, SetAll, SetEntries, EntriesIn, Transaction, TextsAfter, Find;
      ghost var before, known := State(), texts;
      var savedProjection, savedRows := projection, rows;
      NothingInserted(rules, before, known, staged);
      for i := 0 to |staged|
        invariant i <= broken && InsertAll(rules, before, staged[..i]) == Some(State()) && revision == before.revision
        invariant texts == SetEntries(known, EntriesIn(rules, staged[..i]))
      {
        InsertStep(rules, before, staged, i, State());
        if i == broken || staged[i].None? || Find(rows, staged[i].value.key).Some? {
          StopsAt(rules, before, known, staged, broken, operations, i);
          if staged[i].Some? {
            Remember(Part(rules.entry(staged[i].value.key), if i == broken then Some(operations) else None));
          }
          projection, rows := savedProjection, savedRows;
          return false;
        }
        var e := rules.entry(staged[i].value.key);
        SetOneMore(known, EntriesIn(rules, staged[..i]), e, 0);
        Remember(e.operations);
        OneMoreEntry(rules, staged, i);
        projection := rules.apply(projection, e);
        rows := rows + [staged[i].value];
      }
      StopsAt(rules, before, known, staged, broken, operations, |staged|);
      if broken == |staged| {
        projection, rows := savedProjection, savedRows;
        return false;
      }
      return true;
    }

    /** The listed objects that are not recorded, or nothing if one was deleted or changed. */
    method Discover(listing: seq<Listed>) returns (found: Option<seq<Listed>>)
      ensures found == if NothingDeleted(rows, listing) && NothingChanged(rows, listing)
                       then Some(Filter(listing, IsNew(rows))) else None
      ensures DistinctKeys(rows) ==>
                (found.Some? <==> Unaltered(rows, listing)) &&
                (found.Some? ==> AllNew(rows, listing, found.value))
    {
      hide StandingOf, Filter, NothingDeleted, Unaltered, AllNew, DistinctKeys;
      if DistinctKeys(rows) {
        UnalteredExactly(rows, listing);
      }
      if !NothingDeleted(rows, listing) {
        return None;
      }
      var tail: seq<Listed> := [];
      for i := 0 to |listing|
        invariant NothingChanged(rows, listing[..i]) && tail == Filter(listing[..i], IsNew(rows))
      {
        var standing := StandingOf(rows, listing[i]);
        if standing.Changed? {
          assert listing[i] in listing;
          return None;
        }
        FilterSnoc(listing[..i], listing[i], IsNew(rows));
        assert listing[..i + 1] == listing[..i] + [listing[i]];
        if standing.New? {
          tail := tail + [listing[i]];
        }
      }
      assert listing[..|listing|] == listing;
      return Some(tail);
    }

    method AdvanceLatest(listing: seq<Listed>, broken: nat, operations: nat)
      modifies this
      ensures State() == AdvanceToLatest(rules, old(State()), listing, broken)
      ensures texts == if NothingDeleted(old(rows), listing) && NothingChanged(old(rows), listing) then
                TextsAfter(rules, old(State()), old(texts), Tail(rules, old(rows), listing), broken, operations)
              else old(texts)
      ensures DistinctKeys(old(rows)) && !Unaltered(old(rows), listing) ==>
                State() == old(State()) && texts == old(texts)
    {
      hide NothingDeleted, NothingChanged, InsertAll, Unaltered, DistinctKeys, IsNew, AllNew, Tail, TextsAfter,
        Transaction, Filter;
      if DistinctKeys(rows) {
        UnalteredExactly(rows, listing);
      }
      TailIs(rules, rows, listing);
      var found := Discover(listing);
      if found.Some? {
        var committed := Apply(Map(Verifier(), SortBy(ByListedKey(rules), found.value)), broken, operations);
        if committed {
          revision := rules.digest(Snapshot(rows));
        }
      }
    }

    /** The snapshot files that are not recorded, or nothing if a row is missing from the
        snapshot or a file is not acceptable. */
    method Inspect(files: seq<File>, verifyKnown: bool, loadable: set<Text>) returns (pending: Option<seq<File>>)
      ensures pending == if AllPresent(rows, files) && AllAcceptable(rows, files, verifyKnown, loadable)
                         then Some(Filter(files, IsPending(rows))) else None
    {
      hide Find, Acceptable, Filter, AllPresent;
      if !AllPresent(rows, files) {
        return None;
      }
      var waiting: seq<File> := [];
      for i := 0 to |files|
        invariant AllAcceptable(rows, files[..i], verifyKnown, loadable) &&
                  waiting == Filter(files[..i], IsPending(rows))
      {
        var f := files[i];
        if !Acceptable(rows, f, verifyKnown, loadable) {
          assert f in files;
          return None;
        }
        FilterSnoc(files[..i], f, IsPending(rows));
        assert files[..i + 1] == files[..i] + [f];
        if Find(rows, f.key).None? {
          waiting := waiting + [f];
        }
      }
      assert files[..|files|] == files;
      return Some(waiting);
    }

    method AdvanceSnapshot(target: string, files: seq<File>, verifyKnown: bool, loadable: set<Text>, broken: nat,
                           operations: nat)
      modifies this
      ensures State() == AdvanceToSnapshot(rules, old(State()), target, files, verifyKnown, loadable, broken)
      ensures texts == if AllPresent(old(rows), files) && AllAcceptable(old(rows), files, verifyKnown, loadable) then
                TextsAfter(rules, old(State()), old(texts), Staged(rules, Filter(files, IsPending(old(rows)))), broken,
                           operations)
              else old(texts)
      ensures DistinctKeys(old(rows)) && DistinctKeys(files) &&
              !FitsSnapshot(old(rows), files, verifyKnown, loadable) ==>
                State() == old(State()) && texts == old(texts)
    {
      hide AllPresent, AllAcceptable, InsertAll, Staged, DistinctKeys, FitsSnapshot, TextsAfter, Transaction, Filter;
      if DistinctKeys(rows) && DistinctKeys(files) {
        FitsExactly(rows, files, verifyKnown, loadable);
      }
      var pending := Inspect(files, verifyKnown, loadable);
      if pending.Some? {
        var committed := Apply(Staged(rules, pending.value), broken, operations);
        if committed {
          revision := target;
        }
      }
    }

    method LoadMissing(keys: seq<Text>, store: map<Text, File>) returns (loaded: Option<seq<File>>)
      ensures loaded == Load(rows, keys, store)
    {
      hide Find;
      var files: seq<File> := [];
      for i := 0 to |keys|
        invariant Load(rows, keys[..i], store) == Some(files)
      {
        assert keys[..i + 1][..i] == keys[..i];
        if Find(rows, keys[i]).None? {
          if keys[i] !in store {
            LoadStays(rows, keys, store, i + 1);
            return None;
          }
          files := files + [store[keys[i]].(key := keys[i])];
        }
      }
      assert keys[..|keys|] == keys;
      return Some(files);
    }

    method ApplyOutputSegments(keys: seq<Text>, store: map<Text, File>, broken: nat, operations: nat)
      modifies this
      ensures State() == ApplyOutputs(rules, old(State()), keys, store, broken)
      ensures texts == match Load(old(rows), SortBy(TextBefore(), Once(keys)), store)
              case None => old(texts)
              case Some(loaded) =>
                TextsAfter(rules, old(State()), old(texts), Staged(rules, loaded), broken, operations)
    {
      hide InsertAll, Snapshot, Staged, Load, Once, SortBy;
      var loaded := LoadMissing(SortBy(TextBefore(), Once(keys)), store);
      if loaded.Some? {
        var target := rules.digest(Snapshot(rows + SortBy(ByReplay(rules), loaded.value)));
        var committed := Apply(Staged(rules, loaded.value), broken, operations);
        if committed {
          revision := target;
        }
      }
    }
  }

  lemma {:induction false} LoadStays(rows: seq<File>, keys: seq<Text>, store: map<Text, File>, n: nat)
    requires n <= |keys| && Load(rows, keys[..n], store).None?
    ensures Load(rows, keys, store).None?
    decreases |keys| - n
  {
    if n == |keys| {
      assert keys[..n] == keys;
    } else {
      assert keys[..n + 1][..n] == keys[..n];
      LoadStays(rows, keys, store, n + 1);
    }
  }
}
