/** Three ways to compute the configuration that a log of segments holds. */
module BucketConfig {
  import opened Sequences
  import opened JsonText
  import opened TextOrder
  import opened BucketLog
  import opened Numbers

  type Values = map<string, string>

  function Get(values: Values, path: string): Option<string> {
    if path in values then Some(values[path]) else None
  }

  // Which segments hold configuration -----------------------------------------------------------------------

  datatype Category = Config | Mixed | Only(kind: SourceKind)

  function CategoryOf(operations: seq<Operation>): Category
    requires operations != []
  {
    if forall op | op in operations :: op.Write? then Config
    else if operations[0].Append? && (forall op | op in operations :: op.Append? && op.kind == operations[0].kind) then
      Only(operations[0].kind)
    else Mixed
  }

  /** Configuration segments only write, segments of one kind only append it, and any others are
      mixed. */
  lemma CategoriesExactly(operations: seq<Operation>)
    requires operations != []
    ensures CategoryOf(operations).Config? <==> forall op | op in operations :: op.Write?
    ensures forall kind :: CategoryOf(operations) == Only(kind) <==>
              forall op | op in operations :: op.Append? && op.kind == kind
  {
    assert operations[0] in operations;
  }

  predicate IsConfig(e: Entry) { e.operations != [] && CategoryOf(e.operations).Config? }

  predicate IsMixed(e: Entry) { e.operations != [] && CategoryOf(e.operations).Mixed? }

  predicate HoldsText(e: Entry) { IsConfig(e) || IsMixed(e) }

  // The reference: the last write in log order --------------------------------------------------------------

  /** What a segment writes to a path; paths are unique in a segment. */
  function WriteTo(operations: seq<Operation>, path: string): Option<string> {
    if operations == [] then None
    else if operations[0].Write? && operations[0].path == path then Some(operations[0].content)
    else WriteTo(operations[1..], path)
  }

  predicate Writes(e: Entry, path: string) { WriteTo(e.operations, path).Some? }

  ghost predicate IsLatest(entries: seq<Entry>, path: string, v: Option<string>) {
    match v
    case None => forall e | e in entries :: !Writes(e, path)
    case Some(_) =>
      exists e :: e in entries && WriteTo(e.operations, path) == v &&
                  forall x | x in entries && Writes(x, path) :: x == e || Earlier(x, e)
  }

  ghost predicate ValidSnapshot(entries: seq<Entry>) {
    (forall e | e in entries :: ValidEntry(e)) &&
    (forall e, op | e in entries && op in e.operations && op.Write? :: op.path in CONFIG_PATHS) &&
    (forall i, j | 0 <= i < j < |entries| :: entries[i].key != entries[j].key)
  }

  lemma DifferentKeys(entries: seq<Entry>, a: Entry, b: Entry)
    requires ValidSnapshot(entries) && a in entries && b in entries && a != b
    ensures a.key != b.key
  {
    var i :| 0 <= i < |entries| && entries[i] == a;
    var j :| 0 <= j < |entries| && entries[j] == b;
    if i > j {
      assert entries[j].key != entries[i].key;
    }
  }

  ghost predicate LastWriter(s: seq<Entry>, path: string, e: Entry) {
    e in s && Writes(e, path) && forall x | x in s && Writes(x, path) :: x == e || Earlier(x, e)
  }

  lemma NotEarlierThanItself(e: Entry)
    ensures !Earlier(e, e)
  {
    NotLessSelf(e.transaction);
    NotLessSelf(e.key);
  }

  /** The last writers of two parts, and that of the whole. */
  lemma LaterOfParts(all: seq<Entry>, s: seq<Entry>, t: seq<Entry>, path: string, m: Entry, e: Entry)
    requires ValidSnapshot(all) && forall x | x in s + t :: x in all
    requires LastWriter(s, path, m) && LastWriter(t, path, e)
    ensures LastWriter(s + t, path, if Earlier(e, m) then m else e)
    ensures Earlier(e, m) <==> exists y :: y in s && Writes(y, path) && Earlier(e, y)
  {
    hide Writes, ValidEntry, Earlier;
    assert m in s + t && e in s + t;
    if m != e {
      DifferentKeys(all, m, e);
      EarlierIsTotal(m, e);
    } else {
      NotEarlierThanItself(e);
    }
    var last := if Earlier(e, m) then m else e;
    forall x | x in s + t && Writes(x, path) ensures x == last || Earlier(x, last) {
      var own := if x in s then m else e;
      assert x == own || Earlier(x, own);
      if own != last && x != own {
        EarlierIsTransitive(x, own, last);
      }
    }
    if y :| y in s && Writes(y, path) && Earlier(e, y) {
      if y != m {
        EarlierIsTransitive(e, y, m);
      }
    }
  }

  /** There is only one latest value. */
  lemma LatestIsUnique(entries: seq<Entry>, path: string, v: Option<string>, w: Option<string>)
    requires ValidSnapshot(entries) && IsLatest(entries, path, v) && IsLatest(entries, path, w)
    ensures v == w
  {
    hide Earlier, ValidEntry, WriteTo;
    if v.Some? && w.Some? {
      var a :| a in entries && WriteTo(a.operations, path) == v &&
        forall x | x in entries && Writes(x, path) :: x == a || Earlier(x, a);
      var b :| b in entries && WriteTo(b.operations, path) == w &&
        forall x | x in entries && Writes(x, path) :: x == b || Earlier(x, b);
      if a != b {
        DifferentKeys(entries, a, b);
        EarlierIsTotal(a, b);
      }
    }
  }

  lemma {:induction false} WriteToFinds(operations: seq<Operation>, path: string)
    ensures WriteTo(operations, path).Some? <==> exists op :: op in operations && op.Write? && op.path == path
  {
    if operations != [] {
      WriteToFinds(operations[1..], path);
    }
  }

  lemma WritesAreHeld(e: Entry, path: string)
    requires Writes(e, path)
    ensures HoldsText(e)
  {
    WriteToFinds(e.operations, path);
    hide WriteTo;
    var op :| op in e.operations && op.Write? && op.path == path;
  }

  /** Leaving out segments without configuration changes nothing. */
  lemma HeldIsEnough(entries: seq<Entry>, held: seq<Entry>, path: string, v: Option<string>)
    requires forall e :: e in held <==> e in entries && HoldsText(e)
    ensures IsLatest(held, path, v) <==> IsLatest(entries, path, v)
  {
    forall e | e in entries && Writes(e, path) ensures e in held {
      WritesAreHeld(e, path);
    }
    hide HoldsText, Earlier, WriteTo;
  }

  // The sorted fold -------------------------------------------------------------------------------------------

  /** Later operations replace earlier ones. */
  function SetAll(values: Values, operations: seq<Operation>): Values
    decreases operations
  {
    if operations == [] then values
    else
      var op := operations[|operations| - 1];
      var before := SetAll(values, operations[..|operations| - 1]);
      if op.Write? then before[op.path := op.content] else before
  }

  function Fold(ordered: seq<Entry>): Values {
    if ordered == [] then map[] else SetAll(Fold(ordered[..|ordered| - 1]), ordered[|ordered| - 1].operations)
  }

  /** Setting the texts of more segments, one after the other. */
  function SetEntries(values: Values, entries: seq<Entry>): Values {
    if entries == [] then values
    else SetAll(SetEntries(values, entries[..|entries| - 1]), entries[|entries| - 1].operations)
  }

  method RememberTextEntries(ordered: seq<Entry>) returns (values: Values)
    ensures values == Fold(ordered)
  {
    values := map[];
    for i := 0 to |ordered|
      invariant values == Fold(ordered[..i])
    {
      var operations := ordered[i].operations;
      ghost var before := values;
      for j := 0 to |operations|
        invariant values == SetAll(before, operations[..j])
      {
        if operations[j].Write? {
          values := values[operations[j].path := operations[j].content];
        }
        assert operations[..j + 1][..j] == operations[..j];
      }
      assert operations[..|operations|] == operations;
      assert ordered[..i + 1][..i] == ordered[..i];
    }
    assert ordered[..|ordered|] == ordered;
  }

  lemma {:induction false} SetAllSets(values: Values, operations: seq<Operation>, path: string)
    requires UniquePaths(operations)
    ensures Get(SetAll(values, operations), path) ==
            if WriteTo(operations, path).Some? then WriteTo(operations, path) else Get(values, path)
  {
    if operations != [] {
      var front, last := operations[..|operations| - 1], operations[|operations| - 1];
      SetAllSets(values, front, path);
      assert operations == front + [last];
      WriteToAppend(front, last, path);
      WriteToFinds(front, path);
    }
  }

  lemma {:induction false} WriteToAppend(front: seq<Operation>, last: Operation, path: string)
    ensures WriteTo(front + [last], path) ==
            if WriteTo(front, path).Some? then WriteTo(front, path)
            else if last.Write? && last.path == path then Some(last.content) else None
  {
    if front == [] {
      assert front + [last] == [last];
    } else {
      assert (front + [last])[1..] == front[1..] + [last];
      WriteToAppend(front[1..], last, path);
    }
  }

  lemma LatestGrows(s: seq<Entry>, e: Entry, path: string, v: Option<string>)
    requires IsLatest(s, path, v) && forall x | x in s :: Earlier(x, e)
    ensures IsLatest(s + [e], path, if Writes(e, path) then WriteTo(e.operations, path) else v)
  {
    hide Earlier, WriteTo;
    assert e in s + [e];
    if !Writes(e, path) && v.Some? {
      var w :| w in s && WriteTo(w.operations, path) == v &&
        forall x | x in s && Writes(x, path) :: x == w || Earlier(x, w);
      assert w in s + [e];
    }
  }

  lemma {:induction false} FoldIsLatest(ordered: seq<Entry>, path: string)
    requires forall i, j | 0 <= i < j < |ordered| :: Earlier(ordered[i], ordered[j])
    requires forall e | e in ordered :: ValidEntry(e)
    ensures IsLatest(ordered, path, Get(Fold(ordered), path))
  {
    hide Earlier;
    if ordered != [] {
      var front, last := ordered[..|ordered| - 1], ordered[|ordered| - 1];
      FoldIsLatest(front, path);
      assert ValidEntry(last);
      SetAllSets(Fold(front), last.operations, path);
      LatestGrows(front, last, path, Get(Fold(front), path));
      assert ordered == front + [last];
    }
  }

  // The early-stopping scan -----------------------------------------------------------------------------------

  /** Values already found are kept. */
  function AddMissing(values: Values, operations: seq<Operation>): Values
    decreases operations
  {
    if operations == [] then values
    else
      var op := operations[|operations| - 1];
      var before := AddMissing(values, operations[..|operations| - 1]);
      if op.Write? && op.path !in before then before[op.path := op.content] else before
  }

  function Collect(values: Values, newest: seq<Entry>): Values
    decreases newest
  {
    if newest == [] then values
    else AddMissing(Collect(values, newest[..|newest| - 1]), newest[|newest| - 1].operations)
  }

  predicate Complete(values: Values) { forall path | path in CONFIG_PATHS :: path in values }

  /** Batches are read until every configuration path has a value. */
  function Scan(newest: seq<Entry>, limit: nat, values: Values): Option<Values>
    requires limit > 0
    decreases |newest|
  {
    if newest == [] then if Complete(values) then Some(values) else None
    else
      var size := if limit < |newest| then limit else |newest|;
      var found := Collect(values, newest[..size]);
      if Complete(found) then Some(found) else Scan(newest[size..], limit, found)
  }

  method CollectBatch(values: Values, batch: seq<Entry>) returns (found: Values)
    ensures found == Collect(values, batch)
  {
    found := values;
    for i := 0 to |batch|
      invariant found == Collect(values, batch[..i])
    {
      var operations := batch[i].operations;
      ghost var before := found;
      for j := 0 to |operations|
        invariant found == AddMissing(before, operations[..j])
      {
        if operations[j].Write? && operations[j].path !in found {
          found := found[operations[j].path := operations[j].content];
        }
        assert operations[..j + 1][..j] == operations[..j];
      }
      assert operations[..|operations|] == operations;
      assert batch[..i + 1][..i] == batch[..i];
    }
    assert batch[..|batch|] == batch;
  }

  /** `concurrency` is brought into 1 to 16. */
  function BatchLimit(concurrency: int): (limit: nat)
    ensures 1 <= limit <= 16 && (1 <= concurrency <= 16 ==> limit == concurrency)
    ensures (concurrency < 1 ==> limit == 1) && (concurrency > 16 ==> limit == 16)
  {
    if concurrency > 16 then 16 else if concurrency < 1 then 1 else concurrency
  }

  lemma ScanNothing(newest: seq<Entry>, limit: nat, values: Values)
    requires limit > 0 && newest == []
    ensures Scan(newest, limit, values) == if Complete(values) then Some(values) else None
  {
  }

  lemma ScanBatch(newest: seq<Entry>, start: nat, limit: nat, values: Values)
    requires limit > 0 && start < |newest|
    ensures var end := Least(start + limit, |newest|);
            var found := Collect(values, newest[start..end]);
            Scan(newest[start..], limit, values) ==
              if Complete(found) then Some(found) else Scan(newest[end..], limit, found)
  {
    var end := Least(start + limit, |newest|);
    assert newest[start..][..end - start] == newest[start..end];
    assert newest[start..][end - start..] == newest[end..];
    hide Collect, Complete;
  }

  method ScanLatestWrites(newest: seq<Entry>, concurrency: int) returns (values: Option<Values>)
    ensures values == Scan(newest, BatchLimit(concurrency), map[])
  {
    hide *;
    var limit := BatchLimit(concurrency);
    var found: Values := map[];
    var start: nat := 0;
    ghost var left := newest;
    while start < |newest|
      invariant start < |newest| ==> left == newest[start..]
      invariant start >= |newest| ==> left == []
      invariant Scan(newest, limit, map[]) == Scan(left, limit, found)
    {
      var end := Least(start + limit, |newest|);
      ScanBatch(newest, start, limit, found);
      left := newest[end..];
      found := CollectBatch(found, newest[start..end]);
      if Complete(found) {
        return Some(found);
      }
      start := start + limit;
    }
    ScanNothing(left, limit, found);
    return if Complete(found) then Some(found) else None;
  }

  lemma {:induction false} AddMissingAdds(values: Values, operations: seq<Operation>, path: string)
    requires UniquePaths(operations)
    ensures Get(AddMissing(values, operations), path) ==
            if path in values then Get(values, path) else WriteTo(operations, path)
  {
    if operations != [] {
      var front, last := operations[..|operations| - 1], operations[|operations| - 1];
      AddMissingAdds(values, front, path);
      assert operations == front + [last];
      WriteToAppend(front, last, path);
    }
  }

  lemma LatestStays(s: seq<Entry>, e: Entry, path: string, v: Option<string>)
    requires IsLatest(s, path, v) && forall x | x in s :: Earlier(e, x)
    ensures IsLatest(s + [e], path, if v.Some? then v else WriteTo(e.operations, path))
  {
    hide Earlier, WriteTo;
    assert e in s + [e];
    if v.Some? {
      var w :| w in s && WriteTo(w.operations, path) == v &&
        forall x | x in s && Writes(x, path) :: x == w || Earlier(x, w);
      assert w in s + [e];
    }
  }

  ghost predicate NewestFirst(s: seq<Entry>) {
    forall i, j | 0 <= i < j < |s| :: Earlier(s[j], s[i])
  }

  lemma {:induction false} CollectIsLatest(newest: seq<Entry>, path: string)
    requires NewestFirst(newest) && forall e | e in newest :: ValidEntry(e)
    ensures IsLatest(newest, path, Get(Collect(map[], newest), path))
  {
    hide Earlier;
    if newest != [] {
      var front, last := newest[..|newest| - 1], newest[|newest| - 1];
      CollectIsLatest(front, path);
      assert ValidEntry(last);
      AddMissingAdds(Collect(map[], front), last.operations, path);
      LatestStays(front, last, path, Get(Collect(map[], front), path));
      assert newest == front + [last];
    }
  }

  lemma {:induction false} CollectAppend(values: Values, s: seq<Entry>, t: seq<Entry>)
    ensures Collect(values, s + t) == Collect(Collect(values, s), t)
  {
    if t == [] {
      assert s + t == s;
    } else {
      assert (s + t)[..|s + t| - 1] == s + t[..|t| - 1];
      CollectAppend(values, s, t[..|t| - 1]);
    }
  }

  lemma {:induction false} AddMissingKeeps(values: Values, operations: seq<Operation>, path: string)
    requires path in values
    ensures path in AddMissing(values, operations) && AddMissing(values, operations)[path] == values[path]
  {
    if operations != [] {
      AddMissingKeeps(values, operations[..|operations| - 1], path);
    }
  }

  lemma {:induction false} CollectKeeps(values: Values, newest: seq<Entry>, path: string)
    requires path in values
    ensures path in Collect(values, newest) && Collect(values, newest)[path] == values[path]
  {
    hide AddMissing;
    if newest != [] {
      CollectKeeps(values, newest[..|newest| - 1], path);
      AddMissingKeeps(Collect(values, newest[..|newest| - 1]), newest[|newest| - 1].operations, path);
    }
  }

  /** Stopping early finds what reading everything finds, for every batch size. */
  lemma {:induction false} ScanIsCollect(newest: seq<Entry>, limit: nat, values: Values)
    requires limit > 0
    ensures Scan(newest, limit, values).Some? <==> Complete(Collect(values, newest))
    ensures Scan(newest, limit, values).Some? ==>
              forall path | path in CONFIG_PATHS ::
                path in Scan(newest, limit, values).value &&
                Get(Scan(newest, limit, values).value, path) == Get(Collect(values, newest), path)
    decreases |newest|
  {
    if newest != [] {
      var size := if limit < |newest| then limit else |newest|;
      assert newest == newest[..size] + newest[size..];
      CollectAppend(values, newest[..size], newest[size..]);
      var found := Collect(values, newest[..size]);
      if Complete(found) {
        hide Collect;
        forall path | path in CONFIG_PATHS
          ensures path in Collect(found, newest[size..]) && Collect(found, newest[size..])[path] == found[path]
        {
          CollectKeeps(found, newest[size..], path);
        }
      } else {
        ScanIsCollect(newest[size..], limit, found);
      }
    }
  }

  // The per-path maximum --------------------------------------------------------------------------------------

  datatype Candidate = Candidate(order: Text, value: string)

  function Newer(best: Option<Candidate>, e: Entry, path: string): Option<Candidate> {
    var written := WriteTo(e.operations, path);
    if written.Some? && (best.None? || Less(best.value.order, WriteOrder(e))) then
      Some(Candidate(WriteOrder(e), written.value))
    else best
  }

  function Best(entries: seq<Entry>, path: string): Option<Candidate> {
    if entries == [] then None else Newer(Best(entries[..|entries| - 1], path), entries[|entries| - 1], path)
  }

  /** The writes of one segment against the best so far. */
  method NewerInEntry(best: Option<Candidate>, e: Entry, path: string) returns (next: Option<Candidate>)
    requires ValidEntry(e)
    ensures next == Newer(best, e, path)
  {
    hide Less, WriteOrder;
    NotLessSelf(WriteOrder(e));
    next := best;
    for j := 0 to |e.operations|
      invariant next == Newer(best, e.(operations := e.operations[..j]), path)
      invariant WriteTo(e.operations[..j], path).Some? ==> next.Some? && !Less(next.value.order, WriteOrder(e))
    {
      var op := e.operations[j];
      WriteToAppend(e.operations[..j], op, path);
      WriteToFinds(e.operations[..j], path);
      assert e.operations[..j + 1] == e.operations[..j] + [op];
      SameWriteOrder(e, e.operations[..j]);
      SameWriteOrder(e, e.operations[..j + 1]);
      if op.Write? && op.path == path {
        if next.None? || Less(next.value.order, WriteOrder(e)) {
          next := Some(Candidate(WriteOrder(e), op.content));
        }
      }
    }
    assert e.operations[..|e.operations|] == e.operations;
  }

  method LatestTextWrite(entries: seq<Entry>, path: string) returns (best: Option<Candidate>)
    requires forall e | e in entries :: ValidEntry(e)
    ensures best == Best(entries, path)
  {
    hide Best, ValidEntry;
    NothingIsBest(path);
    best := None;
    assert entries[..0] == [];
    for i := 0 to |entries|
      invariant best == Best(entries[..i], path)
    {
      best := NewerInEntry(best, entries[i], path);
      BestStep(entries, i, path);
    }
    assert entries[..|entries|] == entries;
  }

  lemma NothingIsBest(path: string)
    ensures Best([], path) == None
  {
  }

  lemma SameWriteOrder(e: Entry, operations: seq<Operation>)
    ensures WriteOrder(e.(operations := operations)) == WriteOrder(e)
  {
  }

  lemma BestStep(entries: seq<Entry>, i: nat, path: string)
    requires i < |entries|
    ensures Best(entries[..i + 1], path) == Newer(Best(entries[..i], path), entries[i], path)
  {
    assert entries[..i + 1][..i] == entries[..i];
  }
}
