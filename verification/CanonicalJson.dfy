/** The deterministic JSON text behind every identity hash: object keys sorted by code unit,
    array order kept, undefined members dropped. */
module CanonicalJson {
  import opened Sequences
  import opened Sorting
  import opened JsonText
  import opened TextOrder

  /** A value the printer accepts. Numbers are integers; an object lists its keys in any order. */
  datatype Value =
    | Undefined
    | Null
    | Bool(flag: bool)
    | Number(n: int)
    | Str(text: Text)
    | Array(items: seq<Value>)
    | Object(entries: seq<Entry>)

  datatype Entry = Entry(key: Text, value: Value)

  function IsDefined(): Entry -> bool { (e: Entry) => !e.value.Undefined? }

  function ByEntryKey(): (Entry, Entry) -> bool { (a: Entry, b: Entry) => Less(a.key, b.key) }

  function Members(entries: seq<Entry>): (r: seq<Entry>)
    ensures forall e :: e in r <==> e in entries && !e.value.Undefined?
  {
    var defined := Filter(entries, IsDefined());
    assert forall e | e in entries && !e.value.Undefined? :: IsDefined()(e);
    SortBy(ByEntryKey(), defined)
  }

  /** An undefined array element joins as the empty text. */
  function Canonical(v: Value): Text
    decreases v, 0
  {
    match v
    case Undefined => []
    case Null => NULL
    case Bool(flag) => if flag then TRUE else FALSE
    case Number(n) => Decimal(n)
    case Str(text) => Quote(text)
    case Array(items) => [OPEN_BRACKET] + CanonicalItems(items, v) + [CLOSE_BRACKET]
    case Object(entries) => [OPEN_BRACE] + CanonicalMembers(Members(entries), v) + [CLOSE_BRACE]
  }

  function CanonicalItems(items: seq<Value>, ghost parent: Value): Text
    requires forall i | 0 <= i < |items| :: items[i] < parent
    decreases parent, 0, |items|
  {
    if items == [] then []
    else if |items| == 1 then Canonical(items[0])
    else Canonical(items[0]) + [COMMA] + CanonicalItems(items[1..], parent)
  }

  function CanonicalMember(e: Entry): Text
    decreases e.value, 1
  {
    Quote(e.key) + [COLON] + Canonical(e.value)
  }

  function CanonicalMembers(members: seq<Entry>, ghost parent: Value): Text
    requires forall e | e in members :: e.value < parent
    decreases parent, 0, |members|
  {
    if members == [] then []
    else if |members| == 1 then CanonicalMember(members[0])
    else CanonicalMember(members[0]) + [COMMA] + CanonicalMembers(members[1..], parent)
  }

  // What the text keeps of a value ---------------------------------------------------------------------

  /** A lone undefined element leaves no trace in the text. */
  function Trimmed(items: seq<Value>): seq<Value> {
    if items == [Undefined] then [] else items
  }

  function Normalize(v: Value): Value
    decreases v, 0
  {
    match v
    case Array(items) => Array(NormalizeItems(Trimmed(items), v))
    case Object(entries) => Object(NormalizeMembers(Members(entries), v))
    case _ => v
  }

  function NormalizeItems(items: seq<Value>, ghost parent: Value): (r: seq<Value>)
    requires forall i | 0 <= i < |items| :: items[i] < parent
    ensures |r| == |items|
    decreases parent, 0, |items|
  {
    if items == [] then [] else [Normalize(items[0])] + NormalizeItems(items[1..], parent)
  }

  function NormalizeMembers(members: seq<Entry>, ghost parent: Value): (r: seq<Entry>)
    requires forall e | e in members :: e.value < parent
    ensures |r| == |members|
    decreases parent, 0, |members|
  {
    if members == [] then []
    else [Entry(members[0].key, Normalize(members[0].value))] + NormalizeMembers(members[1..], parent)
  }

  // Reading a text back ----------------------------------------------------------------------------------

  function ReadValue(t: Text): (r: Option<Read<Value>>)
    ensures r.Some? ==> |r.value.rest| < |t|
    decreases |t|, 0
  {
    if t == [] then None
    else if t[0] == QUOTE then
      var text := ReadString(t[1..]);
      if text.None? then None else Some(Read(Str(text.value.value), text.value.rest))
    else if t[0] == OPEN_BRACKET then
      if |t| >= 2 && t[1] == CLOSE_BRACKET then Some(Read(Array([]), t[2..]))
      else
        var items := ReadItems(t[1..]);
        if items.None? then None else Some(Read(Array(items.value.value), items.value.rest))
    else if t[0] == OPEN_BRACE then
      if |t| >= 2 && t[1] == CLOSE_BRACE then Some(Read(Object([]), t[2..]))
      else
        var members := ReadMembers(t[1..]);
        if members.None? then None else Some(Read(Object(members.value.value), members.value.rest))
    else if t[0] == MINUS then
      if |t| >= 2 && IsDigit(t[1]) then
        var digits := ReadDigits(0, t[1..]);
        Some(Read(Number(0 - digits.value), digits.rest))
      else None
    else if IsDigit(t[0]) then
      var digits := ReadDigits(t[0] - 0x30, t[1..]);
      Some(Read(Number(digits.value), digits.rest))
    else if NULL <= t then Some(Read(Null, t[4..]))
    else if TRUE <= t then Some(Read(Bool(true), t[4..]))
    else if FALSE <= t then Some(Read(Bool(false), t[5..]))
    else None
  }

  function ReadItem(t: Text): (r: Option<Read<Value>>)
    ensures r.Some? ==> |r.value.rest| <= |t|
    decreases |t|, 1
  {
    if t != [] && (t[0] == COMMA || t[0] == CLOSE_BRACKET) then Some(Read(Undefined, t)) else ReadValue(t)
  }

  function ReadItems(t: Text): (r: Option<Read<seq<Value>>>)
    ensures r.Some? ==> |r.value.rest| < |t|
    decreases |t|, 2
  {
    var item := ReadItem(t);
    if item.None? || item.value.rest == [] then None
    else if item.value.rest[0] == CLOSE_BRACKET then Some(Read([item.value.value], item.value.rest[1..]))
    else if item.value.rest[0] == COMMA then
      var tail := ReadItems(item.value.rest[1..]);
      if tail.None? then None else Some(Read([item.value.value] + tail.value.value, tail.value.rest))
    else None
  }

  function ReadMember(t: Text): (r: Option<Read<Entry>>)
    ensures r.Some? ==> |r.value.rest| < |t|
    decreases |t|, 1
  {
    if t == [] || t[0] != QUOTE then None
    else
      var key := ReadString(t[1..]);
      if key.None? || key.value.rest == [] || key.value.rest[0] != COLON then None
      else
        var value := ReadValue(key.value.rest[1..]);
        if value.None? then None else Some(Read(Entry(key.value.value, value.value.value), value.value.rest))
  }

  function ReadMembers(t: Text): (r: Option<Read<seq<Entry>>>)
    ensures r.Some? ==> |r.value.rest| < |t|
    decreases |t|, 2
  {
    var member := ReadMember(t);
    if member.None? || member.value.rest == [] then None
    else if member.value.rest[0] == CLOSE_BRACE then Some(Read([member.value.value], member.value.rest[1..]))
    else if member.value.rest[0] == COMMA then
      var tail := ReadMembers(member.value.rest[1..]);
      if tail.None? then None else Some(Read([member.value.value] + tail.value.value, tail.value.rest))
    else None
  }

  /** What may follow a value without running into it. */
  predicate Ends(rest: Text) { rest == [] || !IsDigit(rest[0]) }

  lemma ReadNumber(t: Text)
    requires t != [] && IsDigit(t[0])
    ensures var digits := ReadDigits(t[0] - 0x30, t[1..]); ReadValue(t) == Some(Read(Number(digits.value), digits.rest))
  {
    hide ReadItems, ReadMembers, ReadString, ReadDigits;
  }

  lemma ReadNegative(t: Text)
    requires t != [] && IsDigit(t[0])
    ensures var digits := ReadDigits(0, t); ReadValue([MINUS] + t) == Some(Read(Number(0 - digits.value), digits.rest))
  {
    hide ReadItems, ReadMembers, ReadString, ReadDigits;
    assert ([MINUS] + t)[1..] == t;
  }

  lemma NumberRoundTrip(n: int, rest: Text)
    requires Ends(rest)
    ensures ReadValue(Decimal(n) + rest) == Some(Read(Number(n), rest))
  {
    hide ReadValue;
    var size := if n < 0 then -n else n;
    var t := Digits(size) + rest;
    DigitsAreDigits(size);
    DigitsRoundTrip(size, rest);
    assert IsDigit(t[0]);
    assert ReadDigits(0, t) == ReadDigits(t[0] - 0x30, t[1..]) == Read(size, rest);
    hide ReadDigits, Digits;
    if n < 0 {
      ReadNegative(t);
      assert Decimal(n) + rest == [MINUS] + t;
    } else {
      ReadNumber(t);
    }
  }

  lemma WordRoundTrip(v: Value, rest: Text)
    requires v.Null? || v.Bool?
    ensures ReadValue(Canonical(v) + rest) == Some(Read(v, rest))
  {
    hide ReadItems, ReadMembers, ReadString, ReadDigits;
    var t := Canonical(v) + rest;
    assert v.Null? ==> t[..4] == NULL && t[4..] == rest;
    assert v == Bool(true) ==> t[..4] == TRUE && t[4..] == rest;
    assert v == Bool(false) ==> t[..5] == FALSE && t[5..] == rest;
  }

  lemma QuotedRoundTrip(s: Text, rest: Text)
    ensures (Quote(s) + rest)[0] == QUOTE
    ensures ReadString((Quote(s) + rest)[1..]) == Some(Read(s, rest))
  {
    StringRoundTrip(s, rest);
    hide ReadString, Escape;
    assert (Quote(s) + rest)[1..] == Escape(s) + [QUOTE] + rest;
  }

  lemma FirstOf(v: Value)
    requires !v.Undefined?
    ensures Canonical(v) != [] && Canonical(v)[0] != COMMA && Canonical(v)[0] != CLOSE_BRACKET
  {
    if v.Number? {
      DigitsAreDigits(if v.n < 0 then -v.n else v.n);
    }
  }
}
