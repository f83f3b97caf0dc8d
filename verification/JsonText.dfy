/** JSON texts over UTF-16 code units: the escapes of a string (RFC 8259 section 7), the
    decimal form of an integer, and a reader that undoes both. */
module JsonText {
  import opened Sequences

  type CodeUnit = n: nat | n < 0x1_0000
  type Text = seq<CodeUnit>

  const QUOTE: CodeUnit := 0x22
  const COMMA: CodeUnit := 0x2c
  const MINUS: CodeUnit := 0x2d
  const COLON: CodeUnit := 0x3a
  const OPEN_BRACKET: CodeUnit := 0x5b
  const BACKSLASH: CodeUnit := 0x5c
  const CLOSE_BRACKET: CodeUnit := 0x5d
  const LETTER_U: CodeUnit := 0x75
  const OPEN_BRACE: CodeUnit := 0x7b
  const CLOSE_BRACE: CodeUnit := 0x7d

  const NULL: Text := [0x6e, 0x75, 0x6c, 0x6c]
  const TRUE: Text := [0x74, 0x72, 0x75, 0x65]
  const FALSE: Text := [0x66, 0x61, 0x6c, 0x73, 0x65]

  predicate IsHigh(c: CodeUnit) { 0xd800 <= c < 0xdc00 }

  predicate IsLow(c: CodeUnit) { 0xdc00 <= c < 0xe000 }

  predicate StartsPair(s: Text) { |s| >= 2 && IsHigh(s[0]) && IsLow(s[1]) }

  function HexDigit(d: nat): CodeUnit
    requires d < 16
  {
    if d < 10 then 0x30 + d else 0x61 + d - 10
  }

  function HexEscape(c: CodeUnit): Text {
    [BACKSLASH, LETTER_U, HexDigit(c / 16 / 16 / 16), HexDigit(c / 16 / 16 % 16), HexDigit(c / 16 % 16),
     HexDigit(c % 16)]
  }

  /** The letter of a two-unit escape, if the unit has one. */
  function ShortEscape(c: CodeUnit): Option<CodeUnit> {
    if c == QUOTE || c == BACKSLASH then Some(c)
    else if c == 0x08 then Some(0x62)
    else if c == 0x09 then Some(0x74)
    else if c == 0x0a then Some(0x6e)
    else if c == 0x0c then Some(0x66)
    else if c == 0x0d then Some(0x72)
    else None
  }

  function EscapeUnit(c: CodeUnit): Text {
    match ShortEscape(c)
    case Some(letter) => [BACKSLASH, letter]
    case None => if c < 0x20 || IsHigh(c) || IsLow(c) then HexEscape(c) else [c]
  }

  /** Surrogates stay as they are only in pairs. */
  function Escape(s: Text): Text {
    if s == [] then []
    else if StartsPair(s) then [s[0], s[1]] + Escape(s[2..])
    else EscapeUnit(s[0]) + Escape(s[1..])
  }

  function Quote(s: Text): Text { [QUOTE] + Escape(s) + [QUOTE] }

  function Digits(n: nat): Text {
    if n < 10 then [0x30 + n] else Digits(n / 10) + [0x30 + n % 10]
  }

  function Decimal(n: int): Text {
    if n < 0 then [MINUS] + Digits(-n) else Digits(n)
  }

  // Reading back ------------------------------------------------------------------------------------

  function HexValue(c: CodeUnit): Option<nat> {
    if 0x30 <= c < 0x3a then Some(c - 0x30)
    else if 0x61 <= c < 0x67 then Some(c - 0x61 + 10)
    else None
  }

  function ReadHex(t: Text): Option<CodeUnit>
    requires |t| == 4
  {
    match (HexValue(t[0]), HexValue(t[1]), HexValue(t[2]), HexValue(t[3]))
    case (Some(a), Some(b), Some(c), Some(d)) => ToUnit(((a * 16 + b) * 16 + c) * 16 + d)
    case _ => None
  }

  function ToUnit(n: nat): Option<CodeUnit> { if n < 0x1_0000 then Some(n) else None }

  function ReadEscapeLetter(letter: CodeUnit): Option<CodeUnit> {
    if letter == QUOTE || letter == BACKSLASH then Some(letter)
    else if letter == 0x62 then Some(0x08)
    else if letter == 0x74 then Some(0x09)
    else if letter == 0x6e then Some(0x0a)
    else if letter == 0x66 then Some(0x0c)
    else if letter == 0x72 then Some(0x0d)
    else None
  }

  datatype Read<+T> = Read(value: T, rest: Text)

  /** One possibly escaped unit of a string. */
  function ReadUnit(t: Text): (r: Option<Read<CodeUnit>>)
    ensures r.Some? ==> |r.value.rest| < |t|
  {
    if t == [] || t[0] == QUOTE || t[0] < 0x20 then None
    else if t[0] != BACKSLASH then Some(Read(t[0], t[1..]))
    else if |t| >= 6 && t[1] == LETTER_U then
      var unit := ReadHex(t[2..6]);
      if unit.None? then None else Some(Read(unit.value, t[6..]))
    else if |t| >= 2 then
      var unit := ReadEscapeLetter(t[1]);
      if unit.None? then None else Some(Read(unit.value, t[2..]))
    else None
  }

  /** The string up to its closing quote. */
  function ReadString(t: Text): (r: Option<Read<Text>>)
    ensures r.Some? ==> |r.value.rest| < |t|
    decreases |t|
  {
    if t != [] && t[0] == QUOTE then Some(Read([], t[1..]))
    else
      var unit := ReadUnit(t);
      if unit.None? then None
      else
        var tail := ReadString(unit.value.rest);
        if tail.None? then None
        else Some(Read([unit.value.value] + tail.value.value, tail.value.rest))
  }

  predicate IsDigit(c: CodeUnit) { 0x30 <= c < 0x3a }

  function ReadDigits(seen: nat, t: Text): (r: Read<nat>)
    ensures |r.rest| <= |t|
    decreases |t|
  {
    if t != [] && IsDigit(t[0]) then ReadDigits(10 * seen + (t[0] - 0x30), t[1..]) else Read(seen, t)
  }

  lemma HexDigitRoundTrip(d: nat)
    requires d < 16
    ensures HexValue(HexDigit(d)) == Some(d)
  {
  }

  lemma HexRoundTrip(c: CodeUnit)
    ensures ReadHex(HexEscape(c)[2..6]) == Some(c)
  {
    hide HexValue, HexDigit;
    var low, middle, high := c % 16, c / 16, c / 16 / 16;
    HexDigitRoundTrip(low);
    HexDigitRoundTrip(middle % 16);
    HexDigitRoundTrip(high % 16);
    HexDigitRoundTrip(high / 16);
  }

  lemma EscapeUnitRoundTrip(c: CodeUnit, rest: Text)
    ensures ReadUnit(EscapeUnit(c) + rest) == Some(Read(c, rest))
    ensures (EscapeUnit(c) + rest)[0] != QUOTE
  {
    var t := EscapeUnit(c) + rest;
    if ShortEscape(c).Some? {
      assert t[2..] == rest;
    } else if |EscapeUnit(c)| == 6 {
      HexRoundTrip(c);
      assert t[2..6] == HexEscape(c)[2..6] && t[6..] == rest;
    } else {
      assert t[1..] == rest;
    }
  }

  lemma RawUnitReads(c: CodeUnit, rest: Text)
    requires IsHigh(c) || IsLow(c)
    ensures ReadUnit([c] + rest) == Some(Read(c, rest))
  {
    assert ([c] + rest)[1..] == rest;
  }

  lemma ReadStringCons(c: CodeUnit, t: Text, tail: Text, s: Text, rest: Text)
    requires t != [] && t[0] != QUOTE && ReadUnit(t) == Some(Read(c, tail))
    requires ReadString(tail) == Some(Read(s, rest))
    ensures ReadString(t) == Some(Read([c] + s, rest))
  {
  }

  lemma ReadClosingQuote(rest: Text)
    ensures ReadString([QUOTE] + rest) == Some(Read([], rest))
  {
    assert ([QUOTE] + rest)[1..] == rest;
  }

  /** Every string, lone surrogates and control characters included, is read back. */
  lemma {:induction false} StringRoundTrip(s: Text, rest: Text)
    ensures ReadString(Escape(s) + [QUOTE] + rest) == Some(Read(s, rest))
  {
    hide ReadString, ReadUnit, EscapeUnit;
    var t := Escape(s) + [QUOTE] + rest;
    if s == [] {
      ReadClosingQuote(rest);
      assert t == [QUOTE] + rest;
    } else if StartsPair(s) {
      StringRoundTrip(s[2..], rest);
      var tail := Escape(s[2..]) + [QUOTE] + rest;
      RawUnitReads(s[0], [s[1]] + tail);
      RawUnitReads(s[1], tail);
      ReadStringCons(s[1], [s[1]] + tail, tail, s[2..], rest);
      ReadStringCons(s[0], [s[0]] + ([s[1]] + tail), [s[1]] + tail, [s[1]] + s[2..], rest);
      assert t == [s[0]] + ([s[1]] + tail);
      assert s == [s[0]] + ([s[1]] + s[2..]);
    } else {
      StringRoundTrip(s[1..], rest);
      var tail := Escape(s[1..]) + [QUOTE] + rest;
      EscapeUnitRoundTrip(s[0], tail);
      ReadStringCons(s[0], EscapeUnit(s[0]) + tail, tail, s[1..], rest);
      assert t == EscapeUnit(s[0]) + tail;
      assert s == [s[0]] + s[1..];
    }
  }

  lemma {:induction false} DigitsRoundTrip(n: nat, rest: Text)
    ensures ReadDigits(0, Digits(n) + rest) == ReadDigits(n, rest)
  {
    if n < 10 {
      assert (Digits(n) + rest)[1..] == rest;
    } else {
      var last: Text := [0x30 + n % 10];
      assert Digits(n) + rest == Digits(n / 10) + (last + rest);
      DigitsRoundTrip(n / 10, last + rest);
      assert (last + rest)[1..] == rest;
    }
  }

  lemma {:induction false} DigitsAreDigits(n: nat)
    ensures Digits(n) != [] && forall i | 0 <= i < |Digits(n)| :: IsDigit(Digits(n)[i])
  {
    if n >= 10 {
      DigitsAreDigits(n / 10);
    }
  }

  // How many digits ----------------------------------------------------------------------------------

  /** The first number with fourteen digits. */
  const FOURTEEN_DIGITS := 10_000_000_000_000

  function Pow10(k: nat): (p: nat)
    ensures p > 0
  {
    if k == 0 then 1 else 10 * Pow10(k - 1)
  }

  lemma {:induction false} DigitCount(n: nat, k: nat)
    requires k > 0
    ensures |Digits(n)| <= k <==> n < Pow10(k)
  {
    assert Pow10(1) == 10;
    if n >= 10 && k > 1 {
      DigitCount(n / 10, k - 1);
    } else if k == 1 {
      assert n >= 10 ==> Digits(n / 10) != [] by { DigitsAreDigits(n / 10); }
    } else {
      PowGrows(k);
    }
  }

  lemma {:induction false} PowGrows(k: nat)
    requires k > 0
    ensures Pow10(k) >= 10
  {
    if k > 1 {
      PowGrows(k - 1);
    }
  }

  lemma Powers()
    ensures Pow10(13) == FOURTEEN_DIGITS && Pow10(17) == 10_000 * FOURTEEN_DIGITS
  {
    assert Pow10(4) == 10_000;
    assert Pow10(8) == 100_000_000;
    assert Pow10(12) == 1_000_000_000_000;
  }
}
