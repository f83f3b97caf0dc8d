/** Names of handed-over batches, as the queue prints them and as the daemon checks them. */
module PoolNames {
  import opened JsonText
  import opened HandoffSize

  const UUID_LENGTH := 36
  const NAME_LENGTH := 56
  /** `.jsonl` */
  const SUFFIX: Text := [0x2e, 0x6a, 0x73, 0x6f, 0x6e, 0x6c]
  datatype Name = Name(stamp: nat, tag: Text)

  function NameText(name: Name): Text { Decimal(name.stamp) + ([MINUS] + name.tag + SUFFIX) }

  predicate IsHex(c: CodeUnit) { IsDigit(c) || 0x61 <= c < 0x67 }

  /** Lower-case hexadecimal in groups of 8, 4, 4, 4 and 12. */
  predicate Uuid(t: Text) {
    |t| == UUID_LENGTH &&
    forall i | 0 <= i < UUID_LENGTH :: if i == 8 || i == 13 || i == 18 || i == 23 then t[i] == MINUS else IsHex(t[i])
  }

  ghost predicate AllHex(t: Text) { forall i | 0 <= i < |t| :: exists d: nat :: d < 16 && t[i] == HexDigit(d) }

  lemma HexExactly(c: CodeUnit)
    ensures IsHex(c) <==> exists d: nat :: d < 16 && c == HexDigit(d)
  {
    if IsHex(c) {
      assert c == HexDigit(if c < 0x3a then c - 0x30 else c - 0x61 + 10);
    }
  }

  /** Five groups of hexadecimal digits, of 8, 4, 4, 4 and 12, with hyphens between them. */
  lemma UuidExactly(t: Text)
    ensures Uuid(t) <==>
              |t| == 36 && AllHex(t[..8]) && t[8] == MINUS && AllHex(t[9..13]) && t[13] == MINUS &&
              AllHex(t[14..18]) && t[18] == MINUS && AllHex(t[19..23]) && t[23] == MINUS && AllHex(t[24..])
  {
    if |t| == 36 {
      GroupExactly(t, 0, 8);
      GroupExactly(t, 9, 13);
      GroupExactly(t, 14, 18);
      GroupExactly(t, 19, 23);
      GroupExactly(t, 24, 36);
      assert t[..8] == t[0..8] && t[24..] == t[24..36];
    }
    hide IsHex, AllHex;
  }

  lemma GroupExactly(t: Text, i: nat, j: nat)
    requires i <= j <= |t|
    ensures AllHex(t[i..j]) <==> forall k | i <= k < j :: IsHex(t[k])
  {
    forall k | i <= k < j ensures IsHex(t[k]) <==> exists d: nat :: d < 16 && t[i..j][k - i] == HexDigit(d) {
      HexExactly(t[k]);
    }
    hide IsHex, HexDigit;
    if AllHex(t[i..j]) {
      forall k | i <= k < j ensures IsHex(t[k]) {
        assert t[i..j][k - i] == t[k];
      }
    }
    if forall k | i <= k < j :: IsHex(t[k]) {
      forall m | 0 <= m < |t[i..j]| ensures exists d: nat :: d < 16 && t[i..j][m] == HexDigit(d) {
        assert t[i..j][m] == t[i + m];
      }
    }
  }

  /** The daemon's name pattern: thirteen digits, a UUID, the suffix. */
  predicate DaemonTakes(t: Text) {
    |t| == NAME_LENGTH && (forall i | 0 <= i < 13 :: IsDigit(t[i])) && t[13] == MINUS &&
    Uuid(t[14..50]) && t[50..] == SUFFIX
  }

  /** The stamp is read back up to the first hyphen, so a name text identifies its name. */
  lemma NameReads(name: Name)
    ensures ReadDigits(0, NameText(name)) == Read(name.stamp, [MINUS] + name.tag + SUFFIX)
  {
    DigitsRoundTrip(name.stamp, [MINUS] + name.tag + SUFFIX);
  }

  lemma NameTextIdentifies(a: Name, b: Name)
    requires NameText(a) == NameText(b)
    ensures a == b
  {
    NameReads(a);
    NameReads(b);
    var x, y := [MINUS] + a.tag + SUFFIX, [MINUS] + b.tag + SUFFIX;
    assert x == y;
    assert a.tag == x[1..|x| - 6] && b.tag == y[1..|y| - 6];
  }

  /** The daemon takes a name exactly when its stamp has thirteen digits and its tag is a UUID. */
  lemma DaemonTakesThirteenDigits(name: Name)
    requires Uuid(name.tag)
    ensures DaemonTakes(NameText(name)) <==> Pow10(12) <= name.stamp < FOURTEEN_DIGITS
  {
    hide Uuid, Pow10, Digits;
    var digits, t := Digits(name.stamp), NameText(name);
    DigitsAreDigits(name.stamp);
    DigitCount(name.stamp, 13);
    DigitCount(name.stamp, 12);
    Powers();
    UuidLength(name.tag);
    assert |t| == |digits| + 43;
    if |digits| == 13 {
      assert t[14..50] == name.tag && t[50..] == SUFFIX;
      assert forall i | 0 <= i < 13 :: t[i] == digits[i];
    }
  }

  lemma UuidLength(t: Text)
    requires Uuid(t)
    ensures |t| == UUID_LENGTH && Ascii(t)
  {
  }

  lemma NameIsShortAscii(name: Name)
    requires Uuid(name.tag) && name.stamp < 10_000 * FOURTEEN_DIGITS
    ensures Ascii(NameText(name)) && |NameText(name)| <= 60
  {
    hide Uuid, Pow10, Digits;
    DigitsAreDigits(name.stamp);
    UuidLength(name.tag);
    Powers();
    DigitCount(name.stamp, 17);
  }
}
