/** The three configuration readers compute the same state. */
module BucketAgreement {
  import opened Sequences
  import opened TextOrder
  import opened Sorting
  import opened BucketLog
  import opened BucketConfig

  function Held(): Entry -> bool { e => HoldsText(e) }

  function Dedicated(): Entry -> bool { e => IsConfig(e) }

  function InMixed(): Entry -> bool { e => IsMixed(e) }

  function Oldest(): (Entry, Entry) -> bool { (a, b) => EntryBefore(a, b) }

  function Newest(): (Entry, Entry) -> bool { (a, b) => KeyBefore(b, a) }

  function OldestFirst(entries: seq<Entry>): seq<Entry> { SortBy(Oldest(), Filter(entries, Held())) }

  function LatestFirst(entries: seq<Entry>): seq<Entry> { SortBy(Newest(), Filter(entries, Held())) }

  function MixedWins(dedicated: Option<Candidate>, mixed: Option<Candidate>): Option<Candidate> {
    if mixed.Some? && (dedicated.None? || Less(dedicated.value.order, mixed.value.order)) then mixed else dedicated
  }

  function ValueOf(best: Option<Candidate>): Option<string> { if best.Some? then Some(best.value.value) else None }

  /** The later of the best dedicated and the best mixed write. */
  function LatestText(entries: seq<Entry>, path: string): Option<string> {
    ValueOf(MixedWins(Best(Filter(entries, Dedicated()), path), Best(Filter(entries, InMixed()), path)))
  }

  method PrimeTextCache(entries: seq<Entry>) returns (values: Values)
    ensures values == Fold(OldestFirst(entries))
  {
    values := RememberTextEntries(OldestFirst(entries));
  }

  method PrimeTextCacheFromLatestWrites(entries: seq<Entry>, concurrency: int) returns (values: Option<Values>)
    ensures values == Scan(LatestFirst(entries), BatchLimit(concurrency), map[])
  {
    values := ScanLatestWrites(LatestFirst(entries), concurrency);
  }

  method ReadText(entries: seq<Entry>, path: string) returns (value: Option<string>)
    requires forall e | e in entries :: ValidEntry(e)
    ensures value == LatestText(entries, path)
  {
    hide Less, Best, ValidEntry;
    var latest := LatestTextWrite(Filter(entries, Dedicated()), path);
    var mixedLatest := LatestTextWrite(Filter(entries, InMixed()), path);
    if mixedLatest.Some? && (latest.None? || Less(latest.value.order, mixedLatest.value.order)) {
      latest := mixedLatest;
    }
    return ValueOf(latest);
  }

  // The orders on a snapshot ----------------------------------------------------------------------------------

  lemma HeldDistinct(entries: seq<Entry>, p: Entry -> bool)
    requires ValidSnapshot(entries)
    ensures Distinct(Filter(entries, p))
  {
    hide ValidEntry;
    FilterDistinct(entries, p);
  }

  lemma OrdersHold(entries: seq<Entry>, held: seq<Entry>)
    requires ValidSnapshot(entries) && forall e | e in held :: e in entries
    ensures OrderOn(Oldest(), held) && OrderOn(Newest(), held)
  {
    hide EntryBefore, KeyBefore, Earlier, ValidEntry;
    forall a, b | a in held && b in held
      ensures (EntryBefore(a, b) <==> Earlier(a, b)) && (KeyBefore(b, a) <==> Earlier(b, a))
    {
      OneOrder(a, b);
      OneOrder(b, a);
    }
    forall a, b | a in held && b in held && a != b ensures Earlier(a, b) || Earlier(b, a) {
      DifferentKeys(entries, a, b);
      EarlierIsTotal(a, b);
    }
    forall a, b, c | a in held && b in held && c in held && Earlier(a, b) && Earlier(b, c) ensures Earlier(a, c) {
      EarlierIsTransitive(a, b, c);
    }
  }

  lemma SortedBothWays(entries: seq<Entry>)
    requires ValidSnapshot(entries)
    ensures forall i, j | 0 <= i < j < |OldestFirst(entries)| ::
            Earlier(OldestFirst(entries)[i], OldestFirst(entries)[j])
    ensures NewestFirst(LatestFirst(entries))
    ensures forall e :: e in OldestFirst(entries) <==> e in entries && HoldsText(e)
    ensures forall e :: e in LatestFirst(entries) <==> e in entries && HoldsText(e)
  {
    var held := Filter(entries, Held());
    HeldDistinct(entries, Held());
    OrdersHold(entries, held);
    SortSorts(Oldest(), held);
    SortSorts(Newest(), held);
    assert forall e | e in entries && HoldsText(e) :: Held()(e);
    hide EntryBefore, KeyBefore, Earlier, HoldsText, Filter;
    var up, down := OldestFirst(entries), LatestFirst(entries);
    forall i, j | 0 <= i < j < |up| ensures Earlier(up[i], up[j]) {
      assert Oldest()(up[i], up[j]);
      OneOrder(up[i], up[j]);
    }
    forall i, j | 0 <= i < j < |down| ensures Earlier(down[j], down[i]) {
      assert Newest()(down[i], down[j]);
      OneOrder(down[j], down[i]);
    }
  }

  lemma FoldAgrees(entries: seq<Entry>, path: string)
    requires ValidSnapshot(entries)
    ensures IsLatest(entries, path, Get(Fold(OldestFirst(entries)), path))
  {
    hide Earlier, HoldsText, IsLatest, OldestFirst, Fold, ValidEntry;
    SortedBothWays(entries);
    FoldIsLatest(OldestFirst(entries), path);
    HeldIsEnough(entries, OldestFirst(entries), path, Get(Fold(OldestFirst(entries)), path));
  }

  lemma CollectAgrees(entries: seq<Entry>, path: string)
    requires ValidSnapshot(entries)
    ensures IsLatest(entries, path, Get(Collect(map[], LatestFirst(entries)), path))
  {
    hide Earlier, HoldsText, IsLatest, LatestFirst, Collect, ValidEntry, NewestFirst;
    SortedBothWays(entries);
    CollectIsLatest(LatestFirst(entries), path);
    HeldIsEnough(entries, LatestFirst(entries), path, Get(Collect(map[], LatestFirst(entries)), path));
  }

  // The per-path maximum --------------------------------------------------------------------------------------

  /** The candidate stands for the latest write. */
  ghost predicate StandsFor(entries: seq<Entry>, path: string, best: Option<Candidate>) {
    match best
    case None => forall e | e in entries :: !Writes(e, path)
    case Some(candidate) =>
      exists e ::
        LastWriter(entries, path, e) && WriteTo(e.operations, path) == Some(candidate.value) &&
        WriteOrder(e) == candidate.order
  }

  lemma StandsForLatest(entries: seq<Entry>, path: string, best: Option<Candidate>)
    requires StandsFor(entries, path, best)
    ensures IsLatest(entries, path, ValueOf(best))
  {
    hide Earlier, WriteTo;
  }

  /** The later of two latest writes is the latest of both lists. */
  lemma LaterOfTwo(
      all: seq<Entry>, s: seq<Entry>, t: seq<Entry>, path: string, a: Option<Candidate>, b: Option<Candidate>)
    requires ValidSnapshot(all) && forall x | x in s + t :: x in all
    requires forall x | x in s :: x !in t
    requires StandsFor(s, path, a) && StandsFor(t, path, b)
    ensures StandsFor(s + t, path, MixedWins(a, b))
  {
    if a.Some? && b.Some? {
      LaterOfBoth(all, s, t, path, a.value, b.value);
    } else {
      hide Earlier, WriteTo, Less, WriteOrder, ValidSnapshot;
      assert forall x :: x in s + t <==> x in s || x in t;
    }
  }

  lemma LaterOfBoth(all: seq<Entry>, s: seq<Entry>, t: seq<Entry>, path: string, a: Candidate, b: Candidate)
    requires ValidSnapshot(all) && forall x | x in s + t :: x in all
    requires forall x | x in s :: x !in t
    requires StandsFor(s, path, Some(a)) && StandsFor(t, path, Some(b))
    ensures StandsFor(s + t, path, MixedWins(Some(a), Some(b)))
  {
    hide Earlier, WriteTo, Less, WriteOrder, ValidEntry, LastWriter;
    var e :| LastWriter(s, path, e) && WriteTo(e.operations, path) == Some(a.value) && WriteOrder(e) == a.order;
    var f :| LastWriter(t, path, f) && WriteTo(f.operations, path) == Some(b.value) && WriteOrder(f) == b.order;
    LaterOfParts(all, s, t, path, e, f);
    LastWritersDiffer(all, s, t, path, e, f);
  }

  lemma LastWritersDiffer(all: seq<Entry>, s: seq<Entry>, t: seq<Entry>, path: string, e: Entry, f: Entry)
    requires ValidSnapshot(all) && (forall x | x in s + t :: x in all) && forall x | x in s :: x !in t
    requires LastWriter(s, path, e) && LastWriter(t, path, f)
    ensures Less(WriteOrder(e), WriteOrder(f)) <==> !Earlier(f, e)
  {
    hide Earlier, WriteTo, Less, WriteOrder, ValidEntry;
    assert e in s + t && f in s + t && e != f;
    DifferentKeys(all, e, f);
    OneOrder(e, f);
    EarlierIsTotal(e, f);
  }

  lemma NoneStandsFor(path: string)
    ensures StandsFor([], path, None)
  {
  }

  lemma NewerOfTwo(best: Option<Candidate>, e: Entry, path: string)
    ensures Newer(best, e, path) == MixedWins(best, Newer(None, e, path))
  {
    hide Less, WriteOrder;
  }

  lemma {:induction false} BestStandsFor(all: seq<Entry>, s: seq<Entry>, path: string)
    requires ValidSnapshot(all) && Distinct(s) && forall x | x in s :: x in all
    ensures StandsFor(s, path, Best(s, path))
  {
    hide StandsFor, ValidSnapshot, Newer, MixedWins;
    if s == [] {
      NoneStandsFor(path);
    } else {
      var front, last := s[..|s| - 1], s[|s| - 1];
      assert s == front + [last];
      BestStandsFor(all, front, path);
      NewerOfTwo(Best(front, path), last, path);
      OneStandsFor(last, path);
      LaterOfTwo(all, front, [last], path, Best(front, path), Newer(None, last, path));
    }
  }

  lemma OneStandsFor(e: Entry, path: string)
    ensures StandsFor([e], path, Newer(None, e, path))
  {
    assert e in [e];
    hide WriteOrder, WriteTo;
  }

  lemma ReadTextAgrees(entries: seq<Entry>, path: string)
    requires ValidSnapshot(entries)
    ensures IsLatest(entries, path, LatestText(entries, path))
  {
    var s, t := Filter(entries, Dedicated()), Filter(entries, InMixed());
    var a, b := Best(s, path), Best(t, path);
    HeldDistinct(entries, Dedicated());
    HeldDistinct(entries, InMixed());
    BestStandsFor(entries, s, path);
    BestStandsFor(entries, t, path);
    forall e ensures e in s + t <==> e in entries && HoldsText(e) {
      assert Dedicated()(e) == IsConfig(e) && InMixed()(e) == IsMixed(e);
    }
    assert forall e | e in s :: e !in t;
    hide StandsFor, Best, Filter, HoldsText, IsLatest, IsConfig, IsMixed, ValidSnapshot;
    LaterOfTwo(entries, s, t, path, a, b);
    StandsForLatest(s + t, path, MixedWins(a, b));
    HeldIsEnough(entries, s + t, path, ValueOf(MixedWins(a, b)));
  }

  /** Whenever the early-stopping scan succeeds, all three give the same value for every path;
      it succeeds exactly when the sorted fold has a value for every path. */
  lemma ThreeWaysAgree(entries: seq<Entry>, concurrency: int)
    requires ValidSnapshot(entries)
    ensures var scan := Scan(LatestFirst(entries), BatchLimit(concurrency), map[]);
            var fold := Fold(OldestFirst(entries));
            (scan.Some? <==> Complete(fold)) &&
            (scan.Some? ==>
               forall path | path in CONFIG_PATHS :: path in scan.value && Get(scan.value, path) == Get(fold, path))
    ensures forall path ::
              Get(Fold(OldestFirst(entries)), path) == LatestText(entries, path)
  {
    hide ValidSnapshot, IsLatest, OldestFirst, LatestFirst, Fold, Collect, Scan, LatestText, Filter, Get;
    ScanIsCollect(LatestFirst(entries), BatchLimit(concurrency), map[]);
    forall path
      ensures Get(Fold(OldestFirst(entries)), path) == Get(Collect(map[], LatestFirst(entries)), path)
      ensures Get(Fold(OldestFirst(entries)), path) == LatestText(entries, path)
    {
      FoldAgrees(entries, path);
      CollectAgrees(entries, path);
      ReadTextAgrees(entries, path);
      var x, y := Get(Fold(OldestFirst(entries)), path), Get(Collect(map[], LatestFirst(entries)), path);
      LatestIsUnique(entries, path, x, y);
      LatestIsUnique(entries, path, x, LatestText(entries, path));
    }
    SameComplete(Fold(OldestFirst(entries)), Collect(map[], LatestFirst(entries)));
  }

  lemma SameComplete(a: Values, b: Values)
    requires forall path :: Get(a, path) == Get(b, path)
    ensures Complete(a) <==> Complete(b)
  {
    forall path ensures path in a <==> path in b {
      assert Get(a, path) == Get(b, path);
    }
  }
}
