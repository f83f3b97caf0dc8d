/** Segments of the append-only raw log, and the orders the log is read in. */
module BucketLog {
  import opened JsonText
  import opened TextOrder
  import opened UtcText

  datatype SourceKind = Tweets | Enrichments | Attempts | Registry | Receipts

  datatype Operation =
    | Append(path: string, kind: SourceKind, lines: seq<string>)
    | Write(path: string, content: string)

  /** A verified segment: its key carries the milliseconds of its UTC creation time, its
      transaction identifier and its digest. */
  datatype Entry = Entry(ms: Time, transaction: Text, key: Text, operations: seq<Operation>)

  const UUID_LENGTH := 36
  const NUL: Text := [0]

  const CONFIG_PATHS: seq<string> :=
    ["config/labels.json", "config/pool.json", "config/service-accounts.json", "enrichment/vocabulary.json"]

  // Orders ------------------------------------------------------------------------------------------------------

  /** Creation time, then transaction, then key. */
  predicate Earlier(a: Entry, b: Entry) {
    a.ms < b.ms ||
    (a.ms == b.ms &&
     (Less(a.transaction, b.transaction) || (a.transaction == b.transaction && Less(a.key, b.key))))
  }

  /** The comparison that sorts whole entries. */
  predicate EntryBefore(a: Entry, b: Entry) {
    if Iso(a.ms) != Iso(b.ms) then Less(Iso(a.ms), Iso(b.ms))
    else if a.transaction != b.transaction then Less(a.transaction, b.transaction)
    else Less(a.key, b.key)
  }

  /** The text by which segment keys are sorted. */
  function KeyOrder(e: Entry): Text { Stamp(e.ms) + (NUL + (e.transaction + (NUL + e.key))) }

  predicate KeyBefore(a: Entry, b: Entry) { Less(KeyOrder(a), KeyOrder(b)) }

  /** The text by which single writes are compared. */
  function WriteOrder(e: Entry): Text { Iso(e.ms) + (NUL + (e.transaction + (NUL + e.key))) }

  predicate ValidEntry(e: Entry) { |e.transaction| == UUID_LENGTH && UniquePaths(e.operations) && e.operations != [] }

  predicate UniquePaths(operations: seq<Operation>) {
    forall i, j | 0 <= i < j < |operations| :: operations[i].path != operations[j].path
  }

  lemma NotLessSelf(t: Text)
    ensures !Less(t, t)
  {
    LessIsTotal(t, t);
  }

  lemma AfterTime(a: Text, b: Text, x: Entry, y: Entry)
    requires |a| == |b| && ValidEntry(x) && ValidEntry(y)
    ensures Less(a + (NUL + (x.transaction + (NUL + x.key))), b + (NUL + (y.transaction + (NUL + y.key)))) <==>
              Less(a, b) ||
              (a == b && (Less(x.transaction, y.transaction) || (x.transaction == y.transaction && Less(x.key, y.key))))
  {
    hide Less;
    NotLessSelf(NUL);
    var u, v := NUL + (x.transaction + (NUL + x.key)), NUL + (y.transaction + (NUL + y.key));
    LessSplit(a, b, u, v);
    LessSplit(NUL, NUL, x.transaction + (NUL + x.key), y.transaction + (NUL + y.key));
    LessSplit(x.transaction, y.transaction, NUL + x.key, NUL + y.key);
    LessSplit(NUL, NUL, x.key, y.key);
  }

  lemma TimesCompare(a: Time, b: Time)
    ensures |Iso(a)| == |Iso(b)| && (Less(Iso(a), Iso(b)) <==> a < b) && (Iso(a) == Iso(b) <==> a == b)
    ensures |Stamp(a)| == |Stamp(b)| && (Less(Stamp(a), Stamp(b)) <==> a < b) && (Stamp(a) == Stamp(b) <==> a == b)
  {
    hide Less, Iso, Pad;
    NotLessSelf(Iso(a));
    NotLessSelf(Stamp(a));
    LessIsTotal(Iso(a), Iso(b));
    LessIsTotal(Stamp(a), Stamp(b));
    if a < b {
      IsoIsOrdered(a, b);
      StampIsOrdered(a, b);
    } else if b < a {
      IsoIsOrdered(b, a);
      StampIsOrdered(b, a);
    }
  }

  /** The three comparisons are one order. */
  lemma OneOrder(a: Entry, b: Entry)
    requires ValidEntry(a) && ValidEntry(b)
    ensures EntryBefore(a, b) <==> Earlier(a, b)
    ensures KeyBefore(a, b) <==> Earlier(a, b)
    ensures Less(WriteOrder(a), WriteOrder(b)) <==> Earlier(a, b)
  {
    hide Less, Iso, Pad, ValidEntry;
    TimesCompare(a.ms, b.ms);
    AfterTime(Iso(a.ms), Iso(b.ms), a, b);
    AfterTime(Stamp(a.ms), Stamp(b.ms), a, b);
    NotLessSelf(a.transaction);
  }

  lemma EarlierIsTotal(a: Entry, b: Entry)
    requires a.key != b.key
    ensures Earlier(a, b) || Earlier(b, a)
    ensures !(Earlier(a, b) && Earlier(b, a))
  {
    hide Less;
    LessIsTotal(a.transaction, b.transaction);
    LessIsTotal(a.key, b.key);
  }

  lemma EarlierIsTransitive(a: Entry, b: Entry, c: Entry)
    requires Earlier(a, b) && Earlier(b, c)
    ensures Earlier(a, c)
  {
    hide Less;
    if Less(a.transaction, b.transaction) && Less(b.transaction, c.transaction) {
      LessIsTransitive(a.transaction, b.transaction, c.transaction);
    }
    if Less(a.key, b.key) && Less(b.key, c.key) {
      LessIsTransitive(a.key, b.key, c.key);
    }
  }

  // Writing -----------------------------------------------------------------------------------------------------

  /** A writer's own creation times strictly increase, whatever the clock does. */
  class Writer {
    var lastCreatedAtMs: int

    constructor ()
      ensures lastCreatedAtMs == 0
    {
      lastCreatedAtMs := 0;
    }

    method NextCreatedAt(now: int) returns (next: int)
      modifies this
      ensures next == lastCreatedAtMs > old(lastCreatedAtMs) && next >= now
      ensures next == now || next == old(lastCreatedAtMs) + 1
      ensures 0 <= old(lastCreatedAtMs) && next < FOURTEEN_DIGITS ==>
                (old(lastCreatedAtMs) < next && Less(Iso(old(lastCreatedAtMs)), Iso(next)))
    {
      next := if now > lastCreatedAtMs then now else lastCreatedAtMs + 1;
      if 0 <= lastCreatedAtMs && next < FOURTEEN_DIGITS {
        IsoIsOrdered(lastCreatedAtMs, next);
      }
      lastCreatedAtMs := next;
    }
  }
}
