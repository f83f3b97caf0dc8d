/** The UTC form is the calendar date and the clock time of its milliseconds, and reads back to
    them. */
module UtcDates {
  import opened JsonText
  import opened UtcText

  // The Gregorian calendar, counted ------------------------------------------------------------------------

  /** Days before the first of January, from year zero. */
  function DaysBeforeYear(y: nat): nat
    requires y > 0
  {
    365 * y + (y - 1) / 4 - (y - 1) / 100 + (y - 1) / 400
  }

  const MONTH_STARTS: seq<nat> := [0, 31, 59, 90, 120, 151, 181, 212, 243, 273, 304, 334]

  /** Days of a year before month `m`. */
  function DaysBeforeMonth(y: nat, m: nat): nat
    requires 1 <= m <= 12
  {
    MONTH_STARTS[m - 1] + if m > 2 && IsLeap(y) then 1 else 0
  }

  lemma YearLength(y: nat)
    requires y > 0
    ensures DaysBeforeYear(y + 1) == DaysBeforeYear(y) + DaysFrom(y, 1)
  {
    hide DaysFrom, MonthLength, IsLeap;
    MonthsTogether(y);
    LeapCounts(y);
  }

  lemma LeapCounts(y: nat)
    requires y > 0
    ensures y / 4 - y / 100 + y / 400 ==
            (y - 1) / 4 - (y - 1) / 100 + (y - 1) / 400 + if IsLeap(y) then 1 else 0
  {
    OneMore(y, 4);
    OneMore(y, 100);
    OneMore(y, 400);
    Multiples(y, 4, 25);
    Multiples(y, 100, 4);
  }

  lemma Multiples(y: nat, k: nat, n: nat)
    requires k > 0 && n > 0
    ensures y % (k * n) == 0 ==> y % k == 0
  {
    if y % (k * n) == 0 {
      var q := y / (k * n);
      assert y == k * (n * q);
      Remainder(k, n * q);
    }
  }

  lemma Remainder(k: nat, q: nat)
    requires k > 0
    ensures (k * q) % k == 0
  {
    Quotient(k * q, k, q, 0);
  }

  lemma OneMore(y: nat, k: nat)
    requires y > 0 && k > 0
    ensures y / k == (y - 1) / k + if y % k == 0 then 1 else 0
  {
    var q, r := y / k, y % k;
    assert y == k * q + r;
    if r == 0 {
      Quotient(y - 1, k, q - 1, k - 1);
    } else {
      Quotient(y - 1, k, q, r - 1);
    }
  }

  lemma Quotient(n: int, k: nat, q: int, r: nat)
    requires r < k && n == k * q + r
    ensures n / k == q
  {
    if n / k < q {
      assert k * (n / k + 1) <= k * q by { ProductBound(k, n / k + 1, q); }
    } else if n / k > q {
      assert k * (q + 1) <= k * (n / k) by { ProductBound(k, q + 1, n / k); }
    }
  }

  lemma ProductBound(k: nat, a: int, b: int)
    requires a <= b
    ensures k * a <= k * b
  {
  }

  lemma MonthsTogether(y: nat)
    ensures DaysFrom(y, 1) == if IsLeap(y) then 366 else 365
  {
    hide IsLeap;
    assert DaysFrom(y, 10) == 92;
    assert DaysFrom(y, 7) == 184;
    assert DaysFrom(y, 4) == 275;
    assert DaysFrom(y, 2) == 306 + MonthLength(y, 2);
  }

  lemma {:induction false} YearCounts(d: nat, y: nat)
    requires y > 0
    ensures YearAndDay(d, y).0 >= y &&
            DaysBeforeYear(YearAndDay(d, y).0) + YearAndDay(d, y).1 == DaysBeforeYear(y) + d
  {
    hide DaysBeforeYear, DaysFrom;
    if d >= DaysFrom(y, 1) {
      YearLength(y);
      YearCounts(d - DaysFrom(y, 1), y + 1);
    }
  }

  lemma NextMonth(y: nat, m: nat)
    requires 1 <= m < 12
    ensures DaysBeforeMonth(y, m + 1) == DaysBeforeMonth(y, m) + MonthLength(y, m)
  {
    hide IsLeap;
  }

  lemma {:induction false} MonthCounts(d: nat, y: nat, m: nat)
    requires 1 <= m <= 12 && d < DaysFrom(y, m)
    ensures var (month, day) := MonthAndDay(d, y, m);
            DaysBeforeMonth(y, month) + day == DaysBeforeMonth(y, m) + d + 1 && day <= MonthLength(y, month)
    decreases 12 - m
  {
    hide DaysBeforeMonth, MonthLength;
    if d >= MonthLength(y, m) {
      NextMonth(y, m);
      MonthCounts(d - MonthLength(y, m), y, m + 1);
    }
  }

  /** Days since the first of January 1970. */
  function DayNumber(y: nat, m: nat, d: nat): int
    requires y > 0 && 1 <= m <= 12
  {
    DaysBeforeYear(y) + DaysBeforeMonth(y, m) + d - 719_528
  }

  // Reading -----------------------------------------------------------------------------------------------------

  /** The number some decimal digits stand for. */
  function Number(t: Text): int { if t == [] then 0 else 10 * Number(t[..|t| - 1]) + t[|t| - 1] - 0x30 }

  lemma {:induction false} PadReadsBack(n: nat, width: nat)
    requires n < Pow10(width)
    ensures Number(Pad(n, width)) == n
  {
    if width > 0 {
      PadReadsBack(n / 10, width - 1);
      assert Pad(n, width)[..|Pad(n, width)| - 1] == Pad(n / 10, width - 1);
    }
  }

  /** `t` is the field, then its separator, then `rest`. */
  ghost predicate Begins(t: Text, width: nat, separator: nat, value: int, rest: Text) {
    |t| == width + 1 + |rest| && Number(t[..width]) == value && t[width] == separator && t[width + 1..] == rest
  }

  lemma FieldReadsBack(fields: seq<Field>, i: nat)
    requires i < |fields| && Fitting(fields) && |fields[i].separator| == 1
    ensures Begins(FieldsText(fields[i..]), fields[i].width, fields[i].separator[0], fields[i].value,
                   FieldsText(fields[i + 1..]))
  {
    assert fields[i..][1..] == fields[i + 1..];
    PadReadsBack(fields[i].value, fields[i].width);
  }

  /** The seven numbers of a UTC time. */
  datatype Moment = Moment(year: int, month: int, day: int, hour: int, minute: int, second: int, ms: int)

  function Read(t: Text): Moment
    requires |t| == 24
  {
    Moment(Number(t[..4]), Number(t[5..7]), Number(t[8..10]), Number(t[11..13]), Number(t[14..16]), Number(t[17..19]),
           Number(t[20..23]))
  }

  predicate Punctuated(t: Text)
    requires |t| == 24
  {
    t[4] == 0x2d && t[7] == 0x2d && t[10] == 0x54 && t[13] == 0x3a && t[16] == 0x3a && t[19] == 0x2e && t[23] == 0x5a
  }

  /** Year, month, day, hour, minute, second and millisecond with their separators. */
  ghost predicate TimeShaped(fields: seq<Field>) {
    |fields| == 7 &&
    fields[0].width == 4 && fields[0].separator == [0x2d] && fields[1].width == 2 && fields[1].separator == [0x2d] &&
    fields[2].width == 2 && fields[2].separator == [0x54] && fields[3].width == 2 && fields[3].separator == [0x3a] &&
    fields[4].width == 2 && fields[4].separator == [0x3a] && fields[5].width == 2 && fields[5].separator == [0x2e] &&
    fields[6].width == 3 && fields[6].separator == [0x5a]
  }

  lemma SevenFields(fields: seq<Field>)
    requires Fitting(fields) && TimeShaped(fields)
    ensures var t := FieldsText(fields);
            |t| == 24 && Punctuated(t) &&
            Read(t) == Moment(fields[0].value, fields[1].value, fields[2].value, fields[3].value, fields[4].value,
                              fields[5].value, fields[6].value)
  {
    hide Number, Fitting, FieldsText, Begins, Read, Punctuated;
    FieldReadsBack(fields, 0);
    FieldReadsBack(fields, 1);
    FieldReadsBack(fields, 2);
    FieldReadsBack(fields, 3);
    FieldReadsBack(fields, 4);
    FieldReadsBack(fields, 5);
    FieldReadsBack(fields, 6);
    assert fields[0..] == fields;
    NoFields(fields[7..]);
    Pieces(FieldsText(fields), FieldsText(fields[1..]), FieldsText(fields[2..]), FieldsText(fields[3..]),
           FieldsText(fields[4..]), FieldsText(fields[5..]), FieldsText(fields[6..]),
           Moment(fields[0].value, fields[1].value, fields[2].value, fields[3].value, fields[4].value,
                  fields[5].value, fields[6].value));
  }

  lemma NoFields(fields: seq<Field>)
    requires fields == []
    ensures FieldsText(fields) == []
  {
  }

  lemma Pieces(t0: Text, t1: Text, t2: Text, t3: Text, t4: Text, t5: Text, t6: Text, m: Moment)
    requires Begins(t0, 4, 0x2d, m.year, t1) && Begins(t1, 2, 0x2d, m.month, t2) && Begins(t2, 2, 0x54, m.day, t3)
    requires Begins(t3, 2, 0x3a, m.hour, t4) && Begins(t4, 2, 0x3a, m.minute, t5) && Begins(t5, 2, 0x2e, m.second, t6)
    requires Begins(t6, 3, 0x5a, m.ms, [])
    ensures |t0| == 24 && Punctuated(t0) && Read(t0) == m
  {
    hide Number;
    assert t5 == t0[17..] && t4 == t0[14..] && t3 == t0[11..] && t2 == t0[8..] && t6 == t0[20..];
    assert t0[5..7] == t1[..2] && t0[8..10] == t2[..2] && t0[11..13] == t3[..2];
    assert t0[14..16] == t4[..2] && t0[17..19] == t5[..2] && t0[20..23] == t6[..3];
  }

  /** A date that exists, a time of day, and together the milliseconds since 1970. */
  ghost predicate Stands(t: Moment, ms: nat) {
    t.year >= 1970 && 1 <= t.month <= 12 && 1 <= t.day <= MonthLength(t.year, t.month) &&
    0 <= t.hour < 24 && 0 <= t.minute < 60 && 0 <= t.second < 60 && 0 <= t.ms < 1000 &&
    ms == (((DayNumber(t.year, t.month, t.day) * 24 + t.hour) * 60 + t.minute) * 60 + t.second) * 1000 + t.ms
  }

  lemma DateCounts(day: nat)
    ensures var (y, n) := YearAndDay(day, 1970);
            var (m, d) := MonthAndDay(n, y, 1);
            y >= 1970 && d <= MonthLength(y, m) && DayNumber(y, m, d) == day
  {
    hide YearAndDay, MonthAndDay, DaysBeforeYear, DaysBeforeMonth, MonthLength;
    YearCounts(day, 1970);
    var (y, n) := YearAndDay(day, 1970);
    MonthCounts(n, y, 1);
    CalendarStart(y);
  }

  lemma CalendarStart(y: nat)
    ensures DaysBeforeYear(1970) == 719_527 && DaysBeforeMonth(y, 1) == 0
  {
  }

  lemma ClockCounts(ms: nat)
    requires ms < DAY_MS
    ensures var f := ClockFields(ms);
            f[0].value < 24 && f[1].value < 60 && f[2].value < 60 && f[3].value < 1000 &&
            ms == ((f[0].value * 60 + f[1].value) * 60 + f[2].value) * 1000 + f[3].value
  {
  }

  /** The UTC form of a time has its fixed punctuation and reads back to an existing date and a
      time of day that are exactly that many milliseconds after the start of 1970. */
  lemma IsoReadsBack(ms: Time)
    ensures |Iso(ms)| == 24 && Punctuated(Iso(ms)) && Stands(Read(Iso(ms)), ms)
  {
    hide FieldsText, Read, Fitting, YearAndDay, MonthAndDay, DayNumber, MonthLength, Punctuated;
    FieldsFit(ms);
    var date, clock := DateFields(ms / DAY_MS), ClockFields(ms % DAY_MS);
    DateCounts(ms / DAY_MS);
    ClockCounts(ms % DAY_MS);
    SevenFields(date + clock);
  }

  /** The padded milliseconds read back. */
  lemma StampReadsBack(ms: Time)
    ensures |Stamp(ms)| == 13 && Number(Stamp(ms)) == ms
  {
    Powers();
    PadReadsBack(ms, 13);
  }
}
