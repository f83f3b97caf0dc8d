/** Times as text: zero-padded milliseconds and the fixed-width UTC form, and that both sort
    like the times themselves. */
module UtcText {
  import opened JsonText
  import opened TextOrder

  const DAY_MS := 86_400_000

  /** Times with at most thirteen digits. */
  type Time = ms: nat | ms < FOURTEEN_DIGITS

  /** The last `width` digits. */
  function Pad(n: nat, width: nat): (t: Text)
    ensures |t| == width
  {
    if width == 0 then [] else Pad(n / 10, width - 1) + [0x30 + n % 10]
  }

  lemma {:induction false} PadLess(n: nat, m: nat, width: nat)
    requires n < m < Pow10(width)
    ensures Less(Pad(n, width), Pad(m, width))
  {
    hide Less;
    var x: Text, y: Text := [0x30 + n % 10], [0x30 + m % 10];
    LessSplit(Pad(n / 10, width - 1), Pad(m / 10, width - 1), x, y);
    if n / 10 < m / 10 {
      PadLess(n / 10, m / 10, width - 1);
    } else {
      OneDigitLess(n % 10, m % 10);
    }
  }

  lemma OneDigitLess(a: nat, b: nat)
    requires a < b < 10
    ensures Less([0x30 + a], [0x30 + b])
  {
  }

  /** A number of fixed width and what follows it. */
  datatype Field = Field(value: nat, width: nat, separator: Text)

  predicate Fitting(fields: seq<Field>) { forall f | f in fields :: f.value < Pow10(f.width) }

  predicate SameShape(a: seq<Field>, b: seq<Field>) {
    |a| == |b| && forall i | 0 <= i < |a| :: a[i].width == b[i].width && a[i].separator == b[i].separator
  }

  /** The first field that differs decides. */
  predicate FieldsLess(a: seq<Field>, b: seq<Field>)
    requires |a| == |b|
  {
    a != [] && (a[0].value < b[0].value || (a[0].value == b[0].value && FieldsLess(a[1..], b[1..])))
  }

  function FieldsText(fields: seq<Field>): Text {
    if fields == [] then []
    else Pad(fields[0].value, fields[0].width) + (fields[0].separator + FieldsText(fields[1..]))
  }

  lemma {:induction false} FieldsTextLess(a: seq<Field>, b: seq<Field>)
    requires SameShape(a, b) && Fitting(a) && Fitting(b) && FieldsLess(a, b)
    ensures |FieldsText(a)| == |FieldsText(b)| && Less(FieldsText(a), FieldsText(b))
    decreases |a|
  {
    hide Less, Pow10;
    var x, y := a[0].separator + FieldsText(a[1..]), b[0].separator + FieldsText(b[1..]);
    SameLength(a, b);
    LessSplit(Pad(a[0].value, a[0].width), Pad(b[0].value, b[0].width), x, y);
    if a[0].value < b[0].value {
      PadLess(a[0].value, b[0].value, a[0].width);
    } else {
      FieldsTextLess(a[1..], b[1..]);
      LessSplit(a[0].separator, b[0].separator, FieldsText(a[1..]), FieldsText(b[1..]));
    }
  }

  lemma {:induction false} SameLength(a: seq<Field>, b: seq<Field>)
    requires SameShape(a, b)
    ensures |FieldsText(a)| == |FieldsText(b)|
    decreases |a|
  {
    if a != [] {
      SameLength(a[1..], b[1..]);
    }
  }

  // The calendar ---------------------------------------------------------------------------------------------

  predicate IsLeap(y: nat) { y % 4 == 0 && (y % 100 != 0 || y % 400 == 0) }

  function MonthLength(y: nat, m: nat): (n: nat)
    ensures 28 <= n <= 31
  {
    if m == 2 then if IsLeap(y) then 29 else 28
    else if m == 4 || m == 6 || m == 9 || m == 11 then 30
    else 31
  }

  /** Days from the first of month `m` to the end of the year. */
  function DaysFrom(y: nat, m: nat): (n: nat)
    requires 1 <= m <= 12
    ensures n >= 28
    decreases 12 - m
  {
    MonthLength(y, m) + if m == 12 then 0 else DaysFrom(y, m + 1)
  }

  function MonthAndDay(d: nat, y: nat, m: nat): (r: (nat, nat))
    requires 1 <= m <= 12 && d < DaysFrom(y, m)
    ensures m <= r.0 <= 12 && 1 <= r.1 <= 31
    decreases 12 - m
  {
    if d < MonthLength(y, m) then (m, d + 1) else MonthAndDay(d - MonthLength(y, m), y, m + 1)
  }

  function YearAndDay(d: nat, y: nat): (r: (nat, nat))
    ensures y <= r.0 <= y + d && r.1 < DaysFrom(r.0, 1)
  {
    if d < DaysFrom(y, 1) then (y, d) else YearAndDay(d - DaysFrom(y, 1), y + 1)
  }

  predicate PairLess(a: (nat, nat), b: (nat, nat)) { a.0 < b.0 || (a.0 == b.0 && a.1 < b.1) }

  lemma {:induction false} LaterDay(d: nat, e: nat, y: nat, m: nat)
    requires 1 <= m <= 12 && d < e < DaysFrom(y, m)
    ensures PairLess(MonthAndDay(d, y, m), MonthAndDay(e, y, m))
    decreases 12 - m
  {
    if d >= MonthLength(y, m) {
      LaterDay(d - MonthLength(y, m), e - MonthLength(y, m), y, m + 1);
    }
  }

  lemma {:induction false} LaterYear(d: nat, e: nat, y: nat)
    requires d < e
    ensures PairLess(YearAndDay(d, y), YearAndDay(e, y))
    decreases d
  {
    if d >= DaysFrom(y, 1) {
      LaterYear(d - DaysFrom(y, 1), e - DaysFrom(y, 1), y + 1);
    }
  }

  lemma {:induction false} YearBound(d: nat, y: nat)
    ensures 300 * YearAndDay(d, y).0 <= 300 * y + d
  {
    if d >= DaysFrom(y, 1) {
      LongYear(y);
      YearBound(d - DaysFrom(y, 1), y + 1);
    }
  }

  lemma LongYear(y: nat)
    ensures DaysFrom(y, 1) >= 300
  {
    assert DaysFrom(y, 9) >= 4 * 28;
    assert DaysFrom(y, 5) >= 8 * 28;
  }

  const DASH: Text := [MINUS]
  /** `T`, `:`, `.` and `Z`. */
  const LETTER_T: Text := [0x54]
  const TIME_COLON: Text := [COLON]
  const DOT: Text := [0x2e]
  const LETTER_Z: Text := [0x5a]

  function DateFields(day: nat): seq<Field> {
    var year := YearAndDay(day, 1970);
    var month := MonthAndDay(year.1, year.0, 1);
    [Field(year.0, 4, DASH), Field(month.0, 2, DASH), Field(month.1, 2, LETTER_T)]
  }

  function ClockFields(ms: nat): seq<Field> {
    var second := ms / 1000;
    var minute := second / 60;
    [Field(minute / 60, 2, TIME_COLON), Field(minute % 60, 2, TIME_COLON), Field(second % 60, 2, DOT),
     Field(ms % 1000, 3, LETTER_Z)]
  }

  /** `new Date(ms).toISOString()`. */
  function Iso(ms: Time): Text { FieldsText(DateFields(ms / DAY_MS) + ClockFields(ms % DAY_MS)) }

  function Stamp(ms: Time): Text { Pad(ms, 13) }

  lemma FirstField(a: seq<Field>, b: seq<Field>)
    requires |a| == |b| > 0
    ensures FieldsLess(a, b) <==> a[0].value < b[0].value || (a[0].value == b[0].value && FieldsLess(a[1..], b[1..]))
    ensures |a| == 1 ==> !FieldsLess(a[1..], b[1..])
  {
  }

  lemma ThreeFields(a: seq<Field>, b: seq<Field>)
    requires |a| == |b| == 3
    ensures FieldsLess(a, b) <==>
              a[0].value < b[0].value ||
              (a[0].value == b[0].value &&
               (a[1].value < b[1].value || (a[1].value == b[1].value && a[2].value < b[2].value)))
  {
    hide FieldsLess;
    FirstField(a, b);
    FirstField(a[1..], b[1..]);
    FirstField(a[1..][1..], b[1..][1..]);
  }

  lemma {:induction false} FieldsPrefix(a: seq<Field>, b: seq<Field>, x: seq<Field>, y: seq<Field>)
    requires |a| == |b| && |x| == |y|
    ensures FieldsLess(a, b) ==> FieldsLess(a + x, b + y)
    ensures a == b && FieldsLess(x, y) ==> FieldsLess(a + x, b + y)
  {
    if a == [] {
      assert a + x == x && b + y == y;
    } else {
      FieldsPrefix(a[1..], b[1..], x, y);
      assert (a + x)[1..] == a[1..] + x && (b + y)[1..] == b[1..] + y;
    }
  }

  lemma LaterDate(a: nat, b: nat)
    requires a < b
    ensures FieldsLess(DateFields(a), DateFields(b))
  {
    LaterYear(a, b, 1970);
    var x, y := YearAndDay(a, 1970), YearAndDay(b, 1970);
    if x.0 == y.0 {
      LaterDay(x.1, y.1, x.0, 1);
    }
    hide FieldsLess;
    ThreeFields(DateFields(a), DateFields(b));
  }

  /** The larger number has the larger quotient, or the same one and the larger remainder. */
  lemma RadixLess(a: nat, b: nat, radix: nat)
    requires a < b && radix > 0
    ensures a / radix < b / radix || (a / radix == b / radix && a % radix < b % radix)
  {
    var p, q := a / radix, b / radix;
    assert a == radix * p + a % radix && b == radix * q + b % radix;
    if q < p {
      ProductGrows(radix, q + 1, p);
    }
  }

  lemma ProductGrows(k: nat, a: nat, b: nat)
    requires a <= b
    ensures k * a <= k * b
  {
  }

  lemma LaterClock(a: nat, b: nat)
    requires a < b
    ensures FieldsLess(ClockFields(a), ClockFields(b))
  {
    RadixLess(a, b, 1000);
    if a / 1000 < b / 1000 {
      RadixLess(a / 1000, b / 1000, 60);
      if a / 1000 / 60 < b / 1000 / 60 {
        RadixLess(a / 1000 / 60, b / 1000 / 60, 60);
      }
    }
    hide FieldsLess;
    FirstField(ClockFields(a), ClockFields(b));
    ThreeFields(ClockFields(a)[1..], ClockFields(b)[1..]);
  }

  lemma FieldsFit(ms: Time)
    ensures Fitting(DateFields(ms / DAY_MS) + ClockFields(ms % DAY_MS))
  {
    assert Pow10(2) == 100 && Pow10(3) == 1000 && Pow10(4) == 10_000;
    YearBound(ms / DAY_MS, 1970);
    var all := DateFields(ms / DAY_MS) + ClockFields(ms % DAY_MS);
    hide Pow10, YearAndDay, MonthAndDay;
    forall f | f in all ensures f.value < Pow10(f.width) {
      assert f in DateFields(ms / DAY_MS) || f in ClockFields(ms % DAY_MS);
    }
  }

  lemma AllFieldsLess(a: Time, b: Time)
    requires a < b
    ensures FieldsLess(DateFields(a / DAY_MS) + ClockFields(a % DAY_MS),
                       DateFields(b / DAY_MS) + ClockFields(b % DAY_MS))
  {
    RadixLess(a, b, DAY_MS);
    hide FieldsLess, DateFields, ClockFields;
    SameLengths(a / DAY_MS, b / DAY_MS, a % DAY_MS, b % DAY_MS);
    FieldsPrefix(DateFields(a / DAY_MS), DateFields(b / DAY_MS), ClockFields(a % DAY_MS), ClockFields(b % DAY_MS));
    if a / DAY_MS < b / DAY_MS {
      LaterDate(a / DAY_MS, b / DAY_MS);
    } else {
      LaterClock(a % DAY_MS, b % DAY_MS);
    }
  }

  lemma SameShapes(s: seq<Field>, t: seq<Field>, u: seq<Field>, v: seq<Field>)
    requires SameShape(s, t) && SameShape(u, v)
    ensures SameShape(s + u, t + v)
  {
  }

  lemma DatesAlike(a: nat, b: nat)
    ensures SameShape(DateFields(a), DateFields(b))
  {
    hide YearAndDay, MonthAndDay;
  }

  lemma ClocksAlike(c: nat, d: nat)
    ensures SameShape(ClockFields(c), ClockFields(d))
  {
  }

  lemma SameLengths(a: nat, b: nat, c: nat, d: nat)
    ensures |DateFields(a)| == |DateFields(b)| && |ClockFields(c)| == |ClockFields(d)|
    ensures SameShape(DateFields(a) + ClockFields(c), DateFields(b) + ClockFields(d))
  {
    DatesAlike(a, b);
    ClocksAlike(c, d);
    hide DateFields, ClockFields;
    SameShapes(DateFields(a), DateFields(b), ClockFields(c), ClockFields(d));
  }

  /** The UTC form sorts like the time. */
  lemma IsoIsOrdered(a: Time, b: Time)
    requires a < b
    ensures |Iso(a)| == |Iso(b)| && Less(Iso(a), Iso(b))
  {
    hide FieldsLess, Fitting, Less, DateFields, ClockFields, FieldsText;
    AllFieldsLess(a, b);
    FieldsFit(a);
    FieldsFit(b);
    SameLengths(a / DAY_MS, b / DAY_MS, a % DAY_MS, b % DAY_MS);
    FieldsTextLess(DateFields(a / DAY_MS) + ClockFields(a % DAY_MS), DateFields(b / DAY_MS) + ClockFields(b % DAY_MS));
  }

  lemma StampIsOrdered(a: Time, b: Time)
    requires a < b
    ensures Less(Stamp(a), Stamp(b))
  {
    Powers();
    PadLess(a, b, 13);
  }
}
