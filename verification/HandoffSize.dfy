/** How large a sealed batch becomes on the wire to the local daemon. */
module HandoffSize {
  import opened JsonText
  import opened CanonicalJson

  const MAX_HANDOFF_BYTES := 4_000_000
  /** The daemon's request limit. */
  const MAX_BODY_SIZE := 10 * 1024 * 1024
  const LINE_FEED: CodeUnit := 0x0a

  /** `JSON.stringify` of a value: members in their order, undefined members dropped. */
  function Stringify(v: Value): Text
    decreases v, 0
  {
    match v
    case Undefined => NULL
    case Null => NULL
    case Bool(flag) => if flag then TRUE else FALSE
    case Number(n) => Decimal(n)
    case Str(text) => Quote(text)
    case Array(items) => [OPEN_BRACKET] + StringifyItems(items) + [CLOSE_BRACKET]
    case Object(entries) => [OPEN_BRACE] + StringifyMembers(entries, true) + [CLOSE_BRACE]
  }

  function StringifyItems(items: seq<Value>): Text
    decreases items, 1
  {
    if items == [] then []
    else if |items| == 1 then Stringify(items[0])
    else Stringify(items[0]) + [COMMA] + StringifyItems(items[1..])
  }

  function StringifyMembers(entries: seq<Entry>, first: bool): Text
    decreases entries, 1
  {
    if entries == [] then []
    else if entries[0].value.Undefined? then StringifyMembers(entries[1..], first)
    else
      (if first then [] else [COMMA]) + Quote(entries[0].key) + [COLON] + Stringify(entries[0].value) +
      StringifyMembers(entries[1..], false)
  }

  /** Bytes of the UTF-8 form; an unpaired surrogate becomes the three-byte replacement. */
  function Utf8Length(t: Text): nat {
    if t == [] then 0
    else if StartsPair(t) then 4 + Utf8Length(t[2..])
    else (if t[0] < 0x80 then 1 else if t[0] < 0x800 then 2 else 3) + Utf8Length(t[1..])
  }

  /** Well-paired text without control characters, except line feeds where allowed. */
  predicate Clean(t: Text, lines: bool) {
    t == [] ||
    (StartsPair(t) && Clean(t[2..], lines)) ||
    (!IsHigh(t[0]) && !IsLow(t[0]) && (t[0] >= 0x20 || (lines && t[0] == LINE_FEED)) && Clean(t[1..], lines))
  }

  lemma {:induction false} CleanAppend(a: Text, b: Text, lines: bool)
    requires Clean(a, lines)
    ensures Utf8Length(a + b) == Utf8Length(a) + Utf8Length(b)
    ensures Clean(b, lines) ==> Clean(a + b, lines)
  {
    if a == [] {
      assert a + b == b;
    } else if StartsPair(a) {
      assert (a + b)[2..] == a[2..] + b;
      CleanAppend(a[2..], b, lines);
    } else {
      assert (a + b)[1..] == a[1..] + b;
      CleanAppend(a[1..], b, lines);
    }
  }

  lemma {:induction false} CleanWithLines(t: Text)
    requires Clean(t, false)
    ensures Clean(t, true)
  {
    if t != [] {
      if StartsPair(t) {
        CleanWithLines(t[2..]);
      } else {
        CleanWithLines(t[1..]);
      }
    }
  }

  /** Printable ASCII. */
  predicate Ascii(t: Text) { forall i | 0 <= i < |t| :: 0x20 <= t[i] < 0x80 }

  lemma {:induction false} AsciiIsClean(t: Text)
    requires Ascii(t)
    ensures Clean(t, false) && Utf8Length(t) == |t|
  {
    if t != [] {
      AsciiIsClean(t[1..]);
    }
  }

  lemma EscapeUnitIsShort(c: CodeUnit, lines: bool)
    ensures IsHigh(c) || IsLow(c) ==> Ascii(EscapeUnit(c)) && |EscapeUnit(c)| == 6
    ensures !IsHigh(c) && !IsLow(c) && (c >= 0x20 || c == LINE_FEED) ==>
              Clean(EscapeUnit(c), false) && Utf8Length(EscapeUnit(c)) <= 2 * Utf8Length([c])
    ensures !IsHigh(c) && !IsLow(c) ==> Clean(EscapeUnit(c), false)
  {
    if Ascii(EscapeUnit(c)) {
      AsciiIsClean(EscapeUnit(c));
    }
    assert EscapeUnit(c) == [c] ==> [c][1..] == [];
  }

  lemma {:induction false} EscapeIsClean(s: Text)
    ensures Clean(Escape(s), false)
  {
    if s == [] {
    } else if StartsPair(s) {
      EscapeIsClean(s[2..]);
      var t := Escape(s);
      assert t[2..] == Escape(s[2..]);
    } else {
      EscapeIsClean(s[1..]);
      EscapeUnitIsShort(s[0], false);
      if IsHigh(s[0]) || IsLow(s[0]) {
        AsciiIsClean(EscapeUnit(s[0]));
      }
      CleanAppend(EscapeUnit(s[0]), Escape(s[1..]), false);
    }
  }

  /** Escaping well-paired text with no control characters but line feeds at most doubles it. */
  lemma {:induction false} EscapeAtMostDoubles(t: Text)
    requires Clean(t, true)
    ensures Utf8Length(Escape(t)) <= 2 * Utf8Length(t)
  {
    if t == [] {
    } else if StartsPair(t) {
      EscapeAtMostDoubles(t[2..]);
      assert Escape(t)[2..] == Escape(t[2..]);
    } else {
      EscapeAtMostDoubles(t[1..]);
      EscapeUnitIsShort(t[0], true);
      CleanAppend(EscapeUnit(t[0]), Escape(t[1..]), false);
      assert [t[0]][1..] == [];
    }
  }

  lemma QuoteIsClean(s: Text)
    ensures Clean(Quote(s), false) && Utf8Length(Quote(s)) == Utf8Length(Escape(s)) + 2
  {
    EscapeIsClean(s);
    AsciiIsClean([QUOTE]);
    CleanAppend(Escape(s), [QUOTE], false);
    CleanAppend([QUOTE], Escape(s) + [QUOTE], false);
    assert Quote(s) == [QUOTE] + (Escape(s) + [QUOTE]);
  }

  lemma DecimalIsClean(n: int)
    ensures Clean(Decimal(n), false)
  {
    DigitsAreDigits(if n < 0 then -n else n);
    AsciiIsClean(Decimal(n));
  }

  lemma CleanThree(a: Text, b: Text, c: Text)
    requires Clean(a, false) && Clean(b, false) && Clean(c, false)
    ensures Clean(a + b + c, false)
  {
    CleanAppend(a, b, false);
    CleanAppend(a + b, c, false);
  }

  /** A JSON text is well paired and has no control character. */
  lemma {:induction false} StringifyIsClean(v: Value)
    ensures Clean(Stringify(v), false)
    decreases v, 0
  {
    hide Clean, Quote, Decimal;
    AsciiIsClean([OPEN_BRACKET]);
    AsciiIsClean([CLOSE_BRACKET]);
    AsciiIsClean([OPEN_BRACE]);
    AsciiIsClean([CLOSE_BRACE]);
    match v
    case Undefined => AsciiIsClean(NULL);
    case Null => AsciiIsClean(NULL);
    case Bool(flag) => AsciiIsClean(if flag then TRUE else FALSE);
    case Number(n) => DecimalIsClean(n);
    case Str(text) => QuoteIsClean(text);
    case Array(items) =>
      ItemsAreClean(items);
      CleanThree([OPEN_BRACKET], StringifyItems(items), [CLOSE_BRACKET]);
    case Object(entries) =>
      MembersAreClean(entries, true);
      CleanThree([OPEN_BRACE], StringifyMembers(entries, true), [CLOSE_BRACE]);
  }

  lemma EmptyIsClean()
    ensures Clean([], false)
  {
  }

  lemma {:induction false} ItemsAreClean(items: seq<Value>)
    ensures Clean(StringifyItems(items), false)
    decreases items, 1
  {
    hide Clean;
    EmptyIsClean();
    AsciiIsClean([COMMA]);
    if items != [] {
      StringifyIsClean(items[0]);
      ItemsAreClean(items[1..]);
      CleanThree(Stringify(items[0]), [COMMA], StringifyItems(items[1..]));
    }
  }

  lemma {:induction false} MembersAreClean(entries: seq<Entry>, first: bool)
    ensures Clean(StringifyMembers(entries, first), false)
    decreases entries, 1
  {
    hide Clean, Quote;
    EmptyIsClean();
    AsciiIsClean([COLON]);
    AsciiIsClean([COMMA]);
    if entries != [] {
      MembersAreClean(entries[1..], false);
      MembersAreClean(entries[1..], first);
      if !entries[0].value.Undefined? {
        StringifyIsClean(entries[0].value);
        QuoteIsClean(entries[0].key);
        var head := (if first then [] else [COMMA]) + Quote(entries[0].key) + [COLON];
        CleanThree(if first then [] else [COMMA], Quote(entries[0].key), [COLON]);
        CleanThree(head, Stringify(entries[0].value), StringifyMembers(entries[1..], false));
      }
    }
  }

  // Batches -------------------------------------------------------------------------------------------------

  /** One queued observation as a line. */
  function Line(v: Value): Text { Stringify(v) + [LINE_FEED] }

  function LineBytes(v: Value): nat { Utf8Length(Stringify(v)) + 1 }

  function BatchText(values: seq<Value>): Text {
    if values == [] then [] else Line(values[0]) + BatchText(values[1..])
  }

  function BatchBytes(values: seq<Value>): nat {
    if values == [] then 0 else LineBytes(values[0]) + BatchBytes(values[1..])
  }

  lemma LineFeedIsClean()
    ensures Clean([LINE_FEED], true) && Utf8Length([LINE_FEED]) == 1
  {
    assert [LINE_FEED][1..] == [];
  }

  lemma LineIsClean(v: Value)
    ensures Clean(Line(v), true) && Utf8Length(Line(v)) == LineBytes(v)
  {
    hide Clean, Utf8Length, Stringify;
    StringifyIsClean(v);
    CleanWithLines(Stringify(v));
    LineFeedIsClean();
    CleanAppend(Stringify(v), [LINE_FEED], true);
  }

  /** The bytes a batch was measured at are the bytes of its text. */
  lemma {:induction false} BatchTextBytes(values: seq<Value>)
    ensures Clean(BatchText(values), true) && Utf8Length(BatchText(values)) == BatchBytes(values)
  {
    if values != [] {
      LineIsClean(values[0]);
      BatchTextBytes(values[1..]);
      CleanAppend(Line(values[0]), BatchText(values[1..]), true);
    }
  }

  /** `{"name":`, `,"content":` */
  const NAME_FIELD: Text := [0x7b, 0x22, 0x6e, 0x61, 0x6d, 0x65, 0x22, 0x3a]
  const CONTENT_FIELD: Text := [0x2c, 0x22, 0x63, 0x6f, 0x6e, 0x74, 0x65, 0x6e, 0x74, 0x22, 0x3a]

  /** The request body that hands a batch to the daemon. */
  function Body(name: Text, content: Text): Text {
    NAME_FIELD + Quote(name) + CONTENT_FIELD + Quote(content) + [CLOSE_BRACE]
  }

  /** A batch within the handoff limit fits the daemon's request limit, for any name of up to
      a thousand printable characters; and its text can always be encoded. */
  lemma BodyFits(name: Text, values: seq<Value>)
    requires Ascii(name) && |name| <= 1000
    requires BatchBytes(values) <= MAX_HANDOFF_BYTES
    ensures Utf8Length(Body(name, BatchText(values))) < MAX_BODY_SIZE
    ensures Clean(BatchText(values), true)
  {
    hide Clean, Utf8Length, Quote, Escape, BatchText, BatchBytes;
    var content := BatchText(values);
    BatchTextBytes(values);
    AsciiIsClean(name);
    CleanWithLines(name);
    EscapeAtMostDoubles(name);
    EscapeAtMostDoubles(content);
    QuoteIsClean(name);
    QuoteIsClean(content);
    AsciiIsClean(NAME_FIELD);
    AsciiIsClean(CONTENT_FIELD);
    AsciiIsClean([CLOSE_BRACE]);
    var a, b := NAME_FIELD + Quote(name), NAME_FIELD + Quote(name) + CONTENT_FIELD;
    CleanAppend(NAME_FIELD, Quote(name), false);
    CleanAppend(a, CONTENT_FIELD, false);
    CleanAppend(b, Quote(content), false);
    CleanAppend(b + Quote(content), [CLOSE_BRACE], false);
  }
}
