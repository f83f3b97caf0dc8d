/** The bytes of a text in UTF-8 (section 3 of RFC 3629), that they read back, and that they are
    as many as the queue and the daemon count. */
module Utf8Text {
  import opened Sequences
  import opened JsonText
  import opened CanonicalJson
  import opened HandoffSize
  import opened HandoffText

  type Byte = n: nat | n < 0x100

  /** The code point of a surrogate pair. */
  function Joined(high: CodeUnit, low: CodeUnit): (c: nat)
    requires IsHigh(high) && IsLow(low)
    ensures 0x10000 <= c < 0x110000
  {
    0x10000 + (high - 0xd800) * 0x400 + (low - 0xdc00)
  }

  function Units(c: nat): Text
    requires c < 0x110000
  {
    if c < 0x10000 then [c] else [0xd800 + (c - 0x10000) / 0x400, 0xdc00 + (c - 0x10000) % 0x400]
  }

  /** Pairs stand for exactly the code points above sixteen bits. */
  lemma PairsAreAll(c: nat, high: CodeUnit, low: CodeUnit)
    requires c < 0x110000
    ensures 0x10000 <= c ==> StartsPair(Units(c)) && Joined(Units(c)[0], Units(c)[1]) == c
    ensures IsHigh(high) && IsLow(low) ==> Units(Joined(high, low)) == [high, low]
  {
  }

  function Tail(c: nat): Byte { 0x80 + c % 0x40 }

  function EncodePoint(c: nat): (b: seq<Byte>)
    requires c < 0x110000
    ensures 0 < |b|
  {
    if c < 0x80 then [c]
    else if c < 0x800 then [0xc0 + c / 0x40, Tail(c)]
    else if c < 0x10000 then [0xe0 + c / 0x40 / 0x40, Tail(c / 0x40), Tail(c)]
    else [0xf0 + c / 0x40 / 0x40 / 0x40, Tail(c / 0x40 / 0x40), Tail(c / 0x40), Tail(c)]
  }

  /** What takes the place of an unpaired surrogate. */
  const REPLACEMENT: CodeUnit := 0xfffd

  /** The bytes `TextEncoder` makes of a text. */
  function Utf8(t: Text): seq<Byte> {
    if t == [] then []
    else if StartsPair(t) then EncodePoint(Joined(t[0], t[1])) + Utf8(t[2..])
    else EncodePoint(if IsHigh(t[0]) || IsLow(t[0]) then REPLACEMENT else t[0]) + Utf8(t[1..])
  }

  /** The counted bytes are the bytes. */
  lemma {:induction false} LengthCounts(t: Text)
    ensures |Utf8(t)| == Utf8Length(t)
  {
    if t != [] {
      if StartsPair(t) {
        LengthCounts(t[2..]);
      } else {
        LengthCounts(t[1..]);
      }
    }
  }

  // Reading -----------------------------------------------------------------------------------------------------

  predicate IsTail(b: Byte) { 0x80 <= b < 0xc0 }

  datatype Point = Point(value: nat, bytes: nat)

  function AddTail(lead: nat, b: Byte): nat
    requires IsTail(b)
  {
    var bits: int := b;
    lead * 0x40 + (bits - 0x80)
  }

  /** A leading value followed by the six bits of each further byte. */
  function Joint(lead: nat, b: seq<Byte>): nat
    requires forall i | 0 <= i < |b| :: IsTail(b[i])
  {
    if b == [] then lead else AddTail(Joint(lead, b[..|b| - 1]), b[|b| - 1])
  }

  predicate HasTail(b: seq<Byte>, n: nat) { |b| > n && forall i | 1 <= i <= n :: IsTail(b[i]) }

  /** The first code point, if the bytes start with one. */
  function DecodePoint(b: seq<Byte>): (r: Option<Point>)
    requires b != []
    ensures r.Some? ==> 0 < r.value.bytes <= |b|
  {
    var lead: nat := b[0];
    if lead < 0x80 then Some(Point(lead, 1))
    else if 0xc0 <= lead < 0xe0 && HasTail(b, 1) then Some(Point(Joint(lead - 0xc0, b[1..2]), 2))
    else if 0xe0 <= lead < 0xf0 && HasTail(b, 2) then Some(Point(Joint(lead - 0xe0, b[1..3]), 3))
    else if 0xf0 <= lead < 0xf8 && HasTail(b, 3) then Some(Point(Joint(lead - 0xf0, b[1..4]), 4))
    else None
  }

  function Decode(b: seq<Byte>): Option<Text>
    decreases |b|
  {
    if b == [] then Some([])
    else
      match DecodePoint(b)
      case None => None
      case Some(point) =>
        if point.value >= 0x110000 then None
        else
          match Decode(b[point.bytes..])
          case None => None
          case Some(rest) => Some(Units(point.value) + rest)
  }

  lemma JointStep(lead: nat, b: seq<Byte>, c: nat)
    requires (forall i | 0 <= i < |b| :: IsTail(b[i])) && Joint(lead, b) == c / 0x40
    ensures IsTail(Tail(c)) && (forall i | 0 <= i < |b + [Tail(c)]| :: IsTail((b + [Tail(c)])[i]))
    ensures Joint(lead, b + [Tail(c)]) == c
  {
    TailAdds(c);
    hide Tail, AddTail, IsTail;
    var t := b + [Tail(c)];
    assert t[..|t| - 1] == b;
  }

  lemma TailAdds(c: nat)
    ensures IsTail(Tail(c)) && AddTail(c / 0x40, Tail(c)) == c
  {
  }

  lemma PointReadsBack(c: nat, rest: seq<Byte>)
    requires c < 0x110000
    ensures DecodePoint(EncodePoint(c) + rest) == Some(Point(c, |EncodePoint(c)|))
    ensures (EncodePoint(c) + rest)[|EncodePoint(c)|..] == rest
  {
    hide Tail, Joint;
    var b := EncodePoint(c) + rest;
    if 0x80 <= c < 0x800 {
      JointNone(c / 0x40);
      JointStep(c / 0x40, [], c);
      assert b[1..2] == [] + [Tail(c)];
    } else if 0x800 <= c < 0x10000 {
      TwoTails(c / 0x40 / 0x40, c);
      assert b[1..3] == [Tail(c / 0x40), Tail(c)];
    } else if 0x10000 <= c {
      TwoTails(c / 0x40 / 0x40 / 0x40, c / 0x40);
      JointStep(c / 0x40 / 0x40 / 0x40, [Tail(c / 0x40 / 0x40), Tail(c / 0x40)], c);
      assert b[1..4] == [Tail(c / 0x40 / 0x40), Tail(c / 0x40)] + [Tail(c)];
    }
  }

  lemma JointNone(lead: nat)
    ensures Joint(lead, []) == lead
  {
  }

  lemma TwoTails(lead: nat, c: nat)
    requires lead == c / 0x40 / 0x40
    ensures IsTail(Tail(c / 0x40)) && IsTail(Tail(c)) && Joint(lead, [Tail(c / 0x40), Tail(c)]) == c
  {
    hide Tail, Joint;
    JointNone(lead);
    JointStep(lead, [], c / 0x40);
    assert [] + [Tail(c / 0x40)] == [Tail(c / 0x40)];
    JointStep(lead, [Tail(c / 0x40)], c);
    assert [Tail(c / 0x40)] + [Tail(c)] == [Tail(c / 0x40), Tail(c)];
  }

  /** Every surrogate is part of a pair. */
  predicate Paired(t: Text) {
    t == [] || (StartsPair(t) && Paired(t[2..])) || (!IsHigh(t[0]) && !IsLow(t[0]) && Paired(t[1..]))
  }

  lemma {:induction false} CleanIsPaired(t: Text, lines: bool)
    requires Clean(t, lines)
    ensures Paired(t)
  {
    if t != [] {
      if StartsPair(t) {
        CleanIsPaired(t[2..], lines);
      } else {
        CleanIsPaired(t[1..], lines);
      }
    }
  }

  /** A text without unpaired surrogates reads back from its bytes. */
  lemma {:induction false} Utf8ReadsBack(t: Text)
    requires Paired(t)
    ensures Decode(Utf8(t)) == Some(t)
  {
    hide EncodePoint, DecodePoint;
    if t != [] {
      if StartsPair(t) {
        PointReadsBack(Joined(t[0], t[1]), Utf8(t[2..]));
        Utf8ReadsBack(t[2..]);
        assert t == [t[0], t[1]] + t[2..];
      } else {
        PointReadsBack(t[0], Utf8(t[1..]));
        Utf8ReadsBack(t[1..]);
        assert t == [t[0]] + t[1..];
      }
    }
  }

  /** A batch is measured at the bytes it is written with, the request body around it stays below
      10 MiB, and the file and the body both read back from their bytes. */
  lemma HandoffBytes(name: Text, values: seq<Value>)
    requires Ascii(name) && |name| <= 1000 && BatchBytes(values) <= MAX_HANDOFF_BYTES
    ensures var text := BatchText(values);
            |Utf8(text)| == BatchBytes(values) && Decode(Utf8(text)) == Some(text) &&
            |Utf8(Body(name, text))| < 10_485_760 && Decode(Utf8(Body(name, text))) == Some(Body(name, text))
  {
    hide Utf8, Decode, BatchText, BatchBytes, Body, Utf8Length, Clean, Paired, Stringify;
    var text := BatchText(values);
    BatchTextBytes(values);
    BodyFits(name, values);
    BodyIsJson(name, text);
    StringifyIsClean(Object([Entry(NAME, Str(name)), Entry(CONTENT, Str(text))]));
    LengthCounts(text);
    LengthCounts(Body(name, text));
    CleanIsPaired(text, true);
    CleanIsPaired(Body(name, text), false);
    Utf8ReadsBack(text);
    Utf8ReadsBack(Body(name, text));
  }
}
