/** What is handed over can be read back: the JSON text of an observation, the lines of a batch,
    and the request body around them. */
module HandoffText {
  import opened Sequences
  import opened JsonText
  import opened CanonicalJson
  import opened IdentityText
  import opened HandoffSize

  /** What `JSON.stringify` keeps of a value: undefined members go, undefined elements become null. */
  function Plain(v: Value): (r: Value)
    ensures !r.Undefined?
    decreases v, 0
  {
    match v
    case Undefined => Null
    case Array(items) => Array(PlainItems(items))
    case Object(entries) => Object(PlainMembers(entries))
    case _ => v
  }

  function PlainItems(items: seq<Value>): (r: seq<Value>)
    ensures |r| == |items|
    decreases items, 1
  {
    if items == [] then [] else [Plain(items[0])] + PlainItems(items[1..])
  }

  function PlainMembers(entries: seq<Entry>): seq<Entry>
    decreases entries, 1
  {
    if entries == [] then []
    else if entries[0].value.Undefined? then PlainMembers(entries[1..])
    else [Entry(entries[0].key, Plain(entries[0].value))] + PlainMembers(entries[1..])
  }

  lemma StartsValue(v: Value)
    ensures Stringify(v) != [] && Stringify(v)[0] != COMMA && Stringify(v)[0] != CLOSE_BRACKET
  {
    if v.Number? {
      DigitsAreDigits(if v.n < 0 then -v.n else v.n);
    }
  }

  /** The text of a value, followed by anything that may end it, reads back as what it keeps. */
  lemma {:induction false} StringifyRoundTrip(v: Value, rest: Text)
    requires Ends(rest)
    ensures ReadValue(Stringify(v) + rest) == Some(Read(Plain(v), rest))
    decreases v, 1
  {
    hide ReadValue, ReadItems, ReadMembers, Quote, Decimal;
    match v
    case Undefined => WordRoundTrip(Null, rest);
    case Null => WordRoundTrip(v, rest);
    case Bool(_) => WordRoundTrip(v, rest);
    case Number(n) => NumberRoundTrip(n, rest);
    case Str(text) => TextRoundTrip(text, rest);
    case Array(items) =>
      ReadEmpty(rest);
      if items == [] {
        assert Stringify(v) == [OPEN_BRACKET, CLOSE_BRACKET];
      } else {
        var inner := StringifyItems(items) + ([CLOSE_BRACKET] + rest);
        ItemsReadBack(items, rest);
        ItemsBegin(items, [CLOSE_BRACKET] + rest);
        ReadArray(inner, PlainItems(items), rest);
        assert Stringify(v) + rest == [OPEN_BRACKET] + inner;
      }
    case Object(entries) =>
      ReadEmpty(rest);
      if PlainMembers(entries) == [] {
        NoMembers(entries, true);
        assert Stringify(v) == [OPEN_BRACE, CLOSE_BRACE];
      } else {
        var inner := StringifyMembers(entries, true) + ([CLOSE_BRACE] + rest);
        MembersReadBack(entries, rest);
        MembersBegin(entries, [CLOSE_BRACE] + rest);
        ReadObject(inner, PlainMembers(entries), rest);
        assert Stringify(v) + rest == [OPEN_BRACE] + inner;
      }
  }

  lemma ItemsBegin(items: seq<Value>, rest: Text)
    requires items != []
    ensures var t := StringifyItems(items) + rest; t != [] && t[0] != CLOSE_BRACKET
  {
    StartsValue(items[0]);
    hide Stringify;
  }

  lemma {:induction false} NoMembers(entries: seq<Entry>, first: bool)
    requires PlainMembers(entries) == []
    ensures StringifyMembers(entries, first) == []
  {
    if entries != [] {
      NoMembers(entries[1..], first);
    }
  }

  lemma {:induction false} MembersBegin(entries: seq<Entry>, rest: Text)
    requires PlainMembers(entries) != []
    ensures var t := StringifyMembers(entries, true) + rest; t != [] && t[0] == QUOTE
  {
    hide Stringify;
    if entries[0].value.Undefined? {
      MembersBegin(entries[1..], rest);
    }
  }

  lemma ItemReads(item: Value, rest: Text)
    requires rest != [] && (rest[0] == COMMA || rest[0] == CLOSE_BRACKET)
    requires ReadValue(Stringify(item) + rest) == Some(Read(Plain(item), rest))
    ensures ReadItem(Stringify(item) + rest) == Some(Read(Plain(item), rest))
  {
    StartsValue(item);
    hide ReadValue, Stringify;
  }

  lemma {:induction false} ItemsReadBack(items: seq<Value>, rest: Text)
    requires items != []
    ensures ReadItems(StringifyItems(items) + ([CLOSE_BRACKET] + rest)) == Some(Read(PlainItems(items), rest))
    decreases items, 1
  {
    hide ReadValue, ReadItem, ReadItems, Stringify, Plain;
    var end := [CLOSE_BRACKET] + rest;
    if |items| == 1 {
      StringifyRoundTrip(items[0], end);
      ItemReads(items[0], end);
      ReadLastItem(Stringify(items[0]) + end, Plain(items[0]), rest);
      OneItemOf(items[0]);
      assert items == [items[0]];
    } else {
      var others := StringifyItems(items[1..]) + end;
      ItemsReadBack(items[1..], rest);
      StringifyRoundTrip(items[0], [COMMA] + others);
      ItemReads(items[0], [COMMA] + others);
      ReadMoreItems(Stringify(items[0]) + ([COMMA] + others), Plain(items[0]), others, PlainItems(items[1..]), rest);
      assert StringifyItems(items) + end == Stringify(items[0]) + ([COMMA] + others);
    }
  }

  lemma OneItemOf(item: Value)
    ensures StringifyItems([item]) == Stringify(item) && PlainItems([item]) == [Plain(item)]
  {
    assert [item][1..] == [] && PlainItems([]) == [];
  }

  /** Later members are the same text after a comma. */
  lemma {:induction false} AfterComma(entries: seq<Entry>)
    ensures StringifyMembers(entries, false) ==
            if PlainMembers(entries) == [] then [] else [COMMA] + StringifyMembers(entries, true)
  {
    hide Stringify, Quote;
    if entries != [] && entries[0].value.Undefined? {
      AfterComma(entries[1..]);
    }
  }

  lemma MemberReads(e: Entry, rest: Text)
    requires ReadValue(Stringify(e.value) + rest) == Some(Read(Plain(e.value), rest))
    ensures ReadMember(Quote(e.key) + ([COLON] + (Stringify(e.value) + rest))) ==
            Some(Read(Entry(e.key, Plain(e.value)), rest))
  {
    hide ReadValue, ReadString, Quote, Stringify, Plain;
    var value := Stringify(e.value) + rest;
    QuotedRoundTrip(e.key, [COLON] + value);
    assert ([COLON] + value)[1..] == value;
  }

  lemma {:induction false} MembersReadBack(entries: seq<Entry>, rest: Text)
    requires PlainMembers(entries) != []
    ensures ReadMembers(StringifyMembers(entries, true) + ([CLOSE_BRACE] + rest)) ==
            Some(Read(PlainMembers(entries), rest))
    decreases entries, 1
  {
    hide ReadValue, ReadMember, ReadMembers, Stringify, Plain, Quote;
    var end := [CLOSE_BRACE] + rest;
    var e := entries[0];
    if e.value.Undefined? {
      MembersReadBack(entries[1..], rest);
    } else {
      AfterComma(entries[1..]);
      var later := StringifyMembers(entries[1..], false) + end;
      var t := Quote(e.key) + ([COLON] + (Stringify(e.value) + later));
      assert StringifyMembers(entries, true) + end == t;
      StringifyRoundTrip(e.value, later);
      MemberReads(e, later);
      if PlainMembers(entries[1..]) == [] {
        assert later == end;
        assert PlainMembers(entries) == [Entry(e.key, Plain(e.value))];
        ReadLastMember(t, Entry(e.key, Plain(e.value)), rest);
      } else {
        var others := StringifyMembers(entries[1..], true) + end;
        MembersReadBack(entries[1..], rest);
        assert later == [COMMA] + others;
        ReadMoreMembers(t, Entry(e.key, Plain(e.value)), others, PlainMembers(entries[1..]), rest);
      }
    }
  }

  // Lines and bodies ----------------------------------------------------------------------------------------

  /** Read values, each with its line feed. */
  function ReadLines(t: Text): Option<seq<Value>>
    decreases |t|
  {
    if t == [] then Some([])
    else
      match ReadValue(t)
      case None => None
      case Some(read) =>
        if read.rest == [] || read.rest[0] != LINE_FEED then None
        else
          match ReadLines(read.rest[1..])
          case None => None
          case Some(others) => Some([read.value] + others)
  }

  /** The text of a batch reads back as its observations, in order. */
  lemma {:induction false} BatchReadsBack(values: seq<Value>)
    ensures ReadLines(BatchText(values)) == Some(PlainItems(values))
  {
    hide ReadValue, Stringify, Plain;
    if values != [] {
      var others := BatchText(values[1..]);
      BatchReadsBack(values[1..]);
      StringifyRoundTrip(values[0], [LINE_FEED] + others);
      StartsValue(values[0]);
      assert BatchText(values) == Stringify(values[0]) + ([LINE_FEED] + others);
      assert ([LINE_FEED] + others)[1..] == others;
    }
  }

  /** `name`, `content` */
  const NAME: Text := [0x6e, 0x61, 0x6d, 0x65]
  const CONTENT: Text := [0x63, 0x6f, 0x6e, 0x74, 0x65, 0x6e, 0x74]

  /** The request body is the JSON text of an object with the name and the content. */
  lemma BodyReadsBack(name: Text, content: Text)
    ensures ReadValue(Body(name, content)) ==
            Some(Read(Object([Entry(NAME, Str(name)), Entry(CONTENT, Str(content))]), []))
  {
    var entries := [Entry(NAME, Str(name)), Entry(CONTENT, Str(content))];
    StringifyRoundTrip(Object(entries), []);
    PlainTexts(NAME, name, CONTENT, content);
    BodyIsJson(name, content);
    hide ReadValue, Stringify, Plain, Body;
    assert Stringify(Object(entries)) + [] == Stringify(Object(entries));
  }

  lemma PlainTexts(k: Text, v: Text, l: Text, w: Text)
    ensures Plain(Object([Entry(k, Str(v)), Entry(l, Str(w))])) == Object([Entry(k, Str(v)), Entry(l, Str(w))])
  {
    var entries := [Entry(k, Str(v)), Entry(l, Str(w))];
    assert entries[1..] == [entries[1]] && entries[1..][1..] == [];
    assert PlainMembers(entries[1..][1..]) == [];
    assert Plain(Str(v)) == Str(v) && Plain(Str(w)) == Str(w);
    assert PlainMembers(entries[1..]) == [Entry(l, Plain(Str(w)))];
    assert PlainMembers(entries) == [Entry(k, Plain(Str(v)))] + PlainMembers(entries[1..]);
  }

  lemma PlainKeys()
    ensures Quote(NAME) == [QUOTE, 0x6e, 0x61, 0x6d, 0x65, QUOTE]
    ensures Quote(CONTENT) == [QUOTE, 0x63, 0x6f, 0x6e, 0x74, 0x65, 0x6e, 0x74, QUOTE]
  {
    hide Escape;
    PlainLetters(NAME);
    PlainLetters(CONTENT);
  }

  lemma {:induction false} PlainLetters(t: Text)
    requires forall i | 0 <= i < |t| :: 0x61 <= t[i] <= 0x7a
    ensures Escape(t) == t
  {
    if t != [] {
      PlainLetters(t[1..]);
    }
  }

  lemma TwoMembers(k: Text, v: Text, l: Text, w: Text)
    ensures Stringify(Object([Entry(k, Str(v)), Entry(l, Str(w))])) ==
            [OPEN_BRACE] + (Quote(k) + [COLON] + Quote(v) + ([COMMA] + Quote(l) + [COLON] + Quote(w))) + [CLOSE_BRACE]
  {
    hide Quote;
    var entries := [Entry(k, Str(v)), Entry(l, Str(w))];
    assert entries[1..] == [entries[1]] && entries[1..][1..] == [];
    assert StringifyMembers(entries[1..][1..], false) == [];
    assert StringifyMembers(entries[1..], false) == [COMMA] + Quote(l) + [COLON] + Quote(w);
    assert StringifyMembers(entries, true) ==
      [] + Quote(k) + [COLON] + Quote(v) + StringifyMembers(entries[1..], false);
  }

  lemma BodyIsJson(name: Text, content: Text)
    ensures Body(name, content) == Stringify(Object([Entry(NAME, Str(name)), Entry(CONTENT, Str(content))]))
  {
    PlainKeys();
    TwoMembers(NAME, name, CONTENT, content);
    hide Quote, Stringify;
    assert NAME_FIELD == [OPEN_BRACE] + Quote(NAME) + [COLON];
    assert CONTENT_FIELD == [COMMA] + Quote(CONTENT) + [COLON];
  }
}
