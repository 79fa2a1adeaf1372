/** Dates from epoch time: the civil calendar the two date functions compute by
    arithmetic, and its text. */
module Calendar {
  import opened Basics

  // ---- the proleptic Gregorian calendar ---------------------------------

  datatype Date = Date(y: int, m: int, d: int)

  predicate Leap(y: int) {
    y % 4 == 0 && (y % 100 != 0 || y % 400 == 0)
  }

  function MonthLength(y: int, m: int): int {
    if m == 2 then (if Leap(y) then 29 else 28)
    else if m == 4 || m == 6 || m == 9 || m == 11 then 30
    else 31
  }

  predicate Valid(v: Date) {
    1 <= v.m <= 12 && 1 <= v.d <= MonthLength(v.y, v.m)
  }

  /** The day after. */
  function NextDay(v: Date): Date {
    if v.d < MonthLength(v.y, v.m) then v.(d := v.d + 1)
    else if v.m < 12 then Date(v.y, v.m + 1, 1)
    else Date(v.y + 1, 1, 1)
  }

  predicate Before(a: Date, b: Date) {
    a.y < b.y || (a.y == b.y && (a.m < b.m || (a.m == b.m && a.d < b.d)))
  }

  // ---- the arithmetic of the source -------------------------------------

  const EPOCH: int := 719468

  function YearOfEra(doe: int): int {
    (doe - doe / 1460 + doe / 36524 - doe / 146096) / 365
  }

  function MonthIndex(doy: int): int {
    (5 * doy + 2) / 153
  }

  /** Day number to civil date, years counted from March inside 400-year eras. */
  function CivilFromDays(days: int): Date {
    var z := days + EPOCH;
    var era := z / 146097;
    var doe := z % 146097;
    var yoe := YearOfEra(doe);
    var y := yoe + era * 400;
    var doy := doe - (365 * yoe + yoe / 4 - yoe / 100);
    var mp := MonthIndex(doy);
    var d := doy - (153 * mp + 2) / 5 + 1;
    var m := if mp < 10 then mp + 3 else mp - 9;
    Date(if m <= 2 then y + 1 else y, m, d)
  }

  // ---- day numbers ------------------------------------------------------

  /** Days before the March that opens year `y`. */
  function YearStart(y: int): int {
    365 * y + y / 4 - y / 100 + y / 400
  }

  function MonthStart(mp: int): int {
    (153 * mp + 2) / 5
  }

  function MarchYear(v: Date): int {
    if v.m <= 2 then v.y - 1 else v.y
  }

  function MarchMonth(v: Date): int {
    if v.m <= 2 then v.m + 9 else v.m - 3
  }

  function DayOfYear(v: Date): int {
    MonthStart(MarchMonth(v)) + v.d - 1
  }

  function DaysFromCivil(v: Date): int {
    YearStart(MarchYear(v)) + DayOfYear(v) - EPOCH
  }

  lemma {:induction false} NextMultiple(y: int)
    ensures (y + 1) / 4 == y / 4 + (if (y + 1) % 4 == 0 then 1 else 0)
    ensures (y + 1) / 100 == y / 100 + (if (y + 1) % 100 == 0 then 1 else 0)
    ensures (y + 1) / 400 == y / 400 + (if (y + 1) % 400 == 0 then 1 else 0)
  {
  }

  lemma {:induction false} Divides(y: int)
    ensures (y % 100 == 0 ==> y % 4 == 0) && (y % 400 == 0 ==> y % 100 == 0)
  {
    var k, j := y / 100, y / 400;
    if y % 100 == 0 {
      assert y == 4 * (25 * k);
    }
    if y % 400 == 0 {
      assert y == 100 * (4 * j);
    }
  }

  lemma {:induction false} YearLength(y: int)
    ensures YearStart(y + 1) == YearStart(y) + (if Leap(y + 1) then 366 else 365)
  {
    NextMultiple(y);
    Divides(y + 1);
  }

  lemma {:induction false} YearsAdvance(a: int, b: int)
    requires a <= b
    ensures YearStart(a) + 365 * (b - a) <= YearStart(b)
    decreases b - a
  {
    if a < b {
      YearsAdvance(a, b - 1);
      YearLength(b - 1);
    }
  }

  // ---- years from days --------------------------------------------------

  /** A day of an era as century, four-year cycle, year and day: the last cycle of a
      century is a day short unless the century is the last. */
  datatype Split = Split(c: int, q: int, t: int, s: int)
  {
    predicate Ok() {
      && 0 <= c < 4 && 0 <= q < 25 && 0 <= t < 4 && 0 <= s <= 365
      && (s == 365 ==> t == 3 && (q < 24 || c == 3))
    }

    function Day(): int {
      36524 * c + 1461 * q + 365 * t + s
    }

    function Year(): int {
      100 * c + 4 * q + t
    }
  }

  function SplitDay(doe: int): Split
    requires 0 <= doe < 146097
  {
    var c := if doe == 146096 then 3 else doe / 36524;
    var r := doe - 36524 * c;
    var q := r / 1461;
    var u := r - 1461 * q;
    var t := if u == 1460 then 3 else u / 365;
    Split(c, q, t, u - 365 * t)
  }

  lemma {:induction false} SplitIsOk(doe: int)
    requires 0 <= doe < 146097
    ensures SplitDay(doe).Ok() && SplitDay(doe).Day() == doe
  {
  }

  lemma {:induction false} SplitYear(p: Split)
    requires p.Ok()
    ensures YearOfEra(p.Day()) == p.Year()
  {
    var doe := p.Day();
    var extra := if 24 * p.c + p.q + 365 * p.t + p.s >= 1460 then 1 else 0;
    assert doe / 1460 == 25 * p.c + p.q + extra;
    if doe == 146096 {
      assert doe / 36524 == 4 && doe / 146096 == 1;
    } else {
      assert doe / 36524 == p.c && doe / 146096 == 0;
    }
  }

  /** The year the arithmetic finds is the one the day falls in. */
  lemma {:induction false} YearContains(doe: int)
    requires 0 <= doe < 146097
    ensures 0 <= YearOfEra(doe) < 400
    ensures YearStart(YearOfEra(doe)) <= doe < YearStart(YearOfEra(doe) + 1)
  {
    var p := SplitDay(doe);
    SplitIsOk(doe);
    SplitYear(p);
    var k := p.Year();
    assert k / 4 == 25 * p.c + p.q && k / 100 == p.c && k / 400 == 0;
    assert YearStart(k) == 36524 * p.c + 1461 * p.q + 365 * p.t;
    YearLength(k);
    if p.s == 365 {
      LeapAfter(p);
    }
  }

  lemma {:induction false} LeapAfter(p: Split)
    requires p.Ok() && p.s == 365
    ensures Leap(p.Year() + 1)
  {
  }

  /** Eras repeat: the year and the start of the year move by whole eras. */
  lemma {:induction false} EraShift(era: int, k: int)
    ensures YearStart(400 * era + k) == 146097 * era + YearStart(k)
  {
    assert (400 * era + k) / 4 == 100 * era + k / 4;
    assert (400 * era + k) / 100 == 4 * era + k / 100;
    assert (400 * era + k) / 400 == era + k / 400;
  }

  // ---- months from days -------------------------------------------------

  lemma {:induction false} MonthContains(doy: int)
    requires 0 <= doy <= 365
    ensures 0 <= MonthIndex(doy) < 12
    ensures MonthStart(MonthIndex(doy)) <= doy < MonthStart(MonthIndex(doy) + 1)
  {
  }

  /** The months from March on have these lengths; February takes what is left. */
  lemma {:induction false} MonthSpan(v: Date)
    requires 1 <= v.m <= 12
    ensures v.m != 2 ==> MonthStart(MarchMonth(v) + 1) == MonthStart(MarchMonth(v)) + MonthLength(v.y, v.m)
    ensures v.m == 2 ==> MonthStart(MarchMonth(v)) == 337
  {
  }

  // ---- a valid date, and the inverse ------------------------------------

  /** The date found lies on its day of its March year. */
  lemma {:induction false} CivilParts(days: int)
    ensures var z := days + EPOCH;
            var k := YearOfEra(z % 146097) + z / 146097 * 400;
            var doy := z - YearStart(k);
            var v := CivilFromDays(days);
            && 0 <= doy < YearStart(k + 1) - YearStart(k)
            && MarchYear(v) == k && MarchMonth(v) == MonthIndex(doy) && v.d == doy - MonthStart(MonthIndex(doy)) + 1
            && 1 <= v.m <= 12
  {
    var z := days + EPOCH;
    var era, doe := z / 146097, z % 146097;
    var yoe := YearOfEra(doe);
    YearContains(doe);
    assert yoe / 400 == 0;
    EraShift(era, yoe);
    EraShift(era, yoe + 1);
    YearLength(yoe);
    MonthContains(doe - YearStart(yoe));
  }

  lemma {:induction false} CivilIs(days: int)
    ensures var v := CivilFromDays(days);
            Valid(v) && DaysFromCivil(v) == days
  {
    CivilParts(days);
    var v := CivilFromDays(days);
    var k := MarchYear(v);
    var doy := days + EPOCH - YearStart(k);
    YearLength(k);
    MonthFits(v, doy);
  }

  lemma {:induction false} MonthFits(v: Date, doy: int)
    requires 0 <= doy < (if Leap(MarchYear(v) + 1) then 366 else 365)
    requires 1 <= v.m <= 12 && MarchMonth(v) == MonthIndex(doy) && v.d == doy - MonthStart(MonthIndex(doy)) + 1
    ensures Valid(v) && DayOfYear(v) == doy
  {
    MonthContains(doy);
    MonthSpan(v);
  }

  lemma {:induction false} DayInYear(v: Date)
    requires Valid(v)
    ensures 0 <= DayOfYear(v) < YearStart(MarchYear(v) + 1) - YearStart(MarchYear(v))
  {
    YearLength(MarchYear(v));
    MonthSpan(v);
  }

  /** A later date has a greater day number. */
  lemma {:induction false} Later(a: Date, b: Date)
    requires Valid(a) && Valid(b) && Before(a, b)
    ensures DaysFromCivil(a) < DaysFromCivil(b)
  {
    DayInYear(a);
    DayInYear(b);
    if MarchYear(a) < MarchYear(b) {
      YearsAdvance(MarchYear(a) + 1, MarchYear(b));
    } else {
      LaterInYear(a, b);
    }
  }

  lemma {:induction false} LaterInYear(a: Date, b: Date)
    requires Valid(a) && Valid(b) && Before(a, b) && MarchYear(a) >= MarchYear(b)
    ensures MarchYear(a) == MarchYear(b) && DayOfYear(a) < DayOfYear(b)
  {
    MonthSpan(a);
    MonthSpan(b);
  }

  /** Date order is day order, both ways. */
  lemma {:induction false} OrderIsDayOrder(a: Date, b: Date)
    requires Valid(a) && Valid(b)
    ensures Before(a, b) <==> DaysFromCivil(a) < DaysFromCivil(b)
    ensures a == b <==> DaysFromCivil(a) == DaysFromCivil(b)
  {
    if Before(a, b) { Later(a, b); }
    if Before(b, a) { Later(b, a); }
    assert Before(a, b) || Before(b, a) || a == b;
  }

  /** Day numbers and valid dates are in one-to-one correspondence. */
  lemma {:induction false} DaysIsInverse(v: Date)
    requires Valid(v)
    ensures CivilFromDays(DaysFromCivil(v)) == v
  {
    var w := CivilFromDays(DaysFromCivil(v));
    CivilIs(DaysFromCivil(v));
    OrderIsDayOrder(v, w);
  }

  lemma {:induction false} NextDayIsValid(v: Date)
    requires Valid(v)
    ensures Valid(NextDay(v)) && Before(v, NextDay(v)) && DaysFromCivil(NextDay(v)) == DaysFromCivil(v) + 1
  {
    YearLength(MarchYear(v));
    MonthSpan(v);
    MonthSpan(NextDay(v));
    if v.m == 2 && v.d == MonthLength(v.y, 2) {
      assert MarchYear(NextDay(v)) == MarchYear(v) + 1 && MonthStart(0) == 0;
    }
  }

  /** One day later is the next calendar day. */
  lemma {:induction false} DayByDay(days: int)
    ensures CivilFromDays(days + 1) == NextDay(CivilFromDays(days))
  {
    CivilIs(days);
    NextDayIsValid(CivilFromDays(days));
    DaysIsInverse(NextDay(CivilFromDays(days)));
  }

  lemma {:induction false} EpochDay()
    ensures CivilFromDays(0) == Date(1970, 1, 1)
  {
    assert DaysFromCivil(Date(1970, 1, 1)) == 0;
    DaysIsInverse(Date(1970, 1, 1));
  }

  // ---- the two functions ------------------------------------------------

  const DAY: int := 86400

  function DateOfSecs(secs: int): Date {
    CivilFromDays(secs / DAY)
  }

  function DateOfMillis(ms: int): Date {
    DateOfSecs(ms / 1000)
  }

  datatype Clock = Clock(hour: int, minute: int, second: int)

  function ClockOfMillis(ms: int): Clock {
    var tod := ms / 1000 % DAY;
    Clock(tod / 3600, tod % 3600 / 60, tod % 60)
  }

  /** Adding a day's seconds moves to exactly the next calendar day, and to the same
      time of day. */
  lemma {:induction false} NextDaySecs(secs: int)
    ensures Valid(DateOfSecs(secs)) && DateOfSecs(secs + DAY) == NextDay(DateOfSecs(secs))
  {
    var d := secs / DAY;
    CivilIs(d);
    DayInSecs(secs);
    DayByDay(d);
    SameDay(secs + DAY, d + 1);
  }

  lemma {:induction false} SameDay(secs: int, d: int)
    requires secs / DAY == d
    ensures DateOfSecs(secs) == CivilFromDays(d)
  {
  }

  lemma {:induction false} DayInMillis(ms: int)
    ensures (ms + 1000 * DAY) / 1000 == ms / 1000 + DAY
  {
  }

  lemma {:induction false} DayInSecs(secs: int)
    ensures (secs + DAY) / DAY == secs / DAY + 1 && (secs + DAY) % DAY == secs % DAY
  {
  }

  lemma {:induction false} NextDayMillis(ms: int)
    ensures Valid(DateOfMillis(ms)) && DateOfMillis(ms + 1000 * DAY) == NextDay(DateOfMillis(ms))
    ensures ClockOfMillis(ms + 1000 * DAY) == ClockOfMillis(ms)
  {
    var secs := ms / 1000;
    DayInMillis(ms);
    NextDaySecs(secs);
    DayInSecs(secs);
  }

  lemma {:induction false} SplitsTime(tod: int)
    requires 0 <= tod < DAY
    ensures 0 <= tod / 3600 < 24 && 0 <= tod % 3600 / 60 < 60
    ensures tod / 3600 * 3600 + tod % 3600 / 60 * 60 + tod % 60 == tod
  {
    var rest := tod % 3600;
    var hour := tod / 3600;
    assert tod == 60 * (60 * hour) + rest;
    assert tod % 60 == rest % 60;
  }

  /** Date and time of day give back the instant, to the second. */
  lemma {:induction false} InstantReadsBack(ms: int)
    ensures var v, c := DateOfMillis(ms), ClockOfMillis(ms);
            && 0 <= c.hour < 24 && 0 <= c.minute < 60 && 0 <= c.second < 60
            && DaysFromCivil(v) * DAY + c.hour * 3600 + c.minute * 60 + c.second == ms / 1000
  {
    var secs := ms / 1000;
    CivilIs(secs / DAY);
    SplitsTime(secs % DAY);
  }

  lemma {:induction false} ErasAreSmall(secs: I64)
    ensures -0x8000_0000_0000_0000 / DAY - 1 <= secs / DAY <= 0x8000_0000_0000_0000 / DAY
    ensures -0x1000_0000_0000_0000 < secs / DAY + EPOCH < 0x1000_0000_0000_0000
    ensures -0x1000_0000_0000 < (secs / DAY + EPOCH) / 146097 < 0x1000_0000_0000
  {
  }

  /** No intermediate of either function leaves 64 bits. */
  lemma {:induction false} NothingOverflows(secs: I64)
    ensures var z := secs / DAY + EPOCH;
            var era, doe := z / 146097, z % 146097;
            var yoe := YearOfEra(doe);
            var doy := doe - (365 * yoe + yoe / 4 - yoe / 100);
            var bound := 0x8000_0000_0000_0000;
            && -bound <= z < bound && -bound <= era * 400 < bound && -bound <= yoe + era * 400 + 1 < bound
            && 0 <= doe < 146097 && 0 <= yoe < 400 && 0 <= 365 * yoe < bound
            && 0 <= doy <= 365 && 0 <= 5 * doy + 2 < bound && 0 <= 153 * MonthIndex(doy) + 2 < bound
  {
    ErasAreSmall(secs);
    PartsAreSmall((secs / DAY + EPOCH) % 146097);
  }

  lemma {:induction false} PartsAreSmall(doe: int)
    requires 0 <= doe < 146097
    ensures var yoe := YearOfEra(doe);
            var doy := doe - (365 * yoe + yoe / 4 - yoe / 100);
            && 0 <= yoe < 400 && 0 <= 365 * yoe <= 146000 && 0 <= doy <= 365
            && 0 <= 5 * doy + 2 <= 1827 && 0 <= 153 * MonthIndex(doy) + 2 <= 1685
  {
    var yoe := YearOfEra(doe);
    YearContains(doe);
    assert yoe / 400 == 0;
    YearLength(yoe);
    MonthContains(doe - YearStart(yoe));
  }

  // ---- text -------------------------------------------------------------

  /** The last `k` decimal digits of `n`. */
  function Digits(n: nat, k: nat): (s: string)
    ensures |s| == k
  {
    if k == 0 then [] else Digits(n / 10, k - 1) + [('0' as int + n % 10) as char]
  }

  function ZeroPad(s: string, width: nat): string {
    if |s| < width then seq(width - |s|, i => '0') + s else s
  }

  /** `{n:04}` and the like: the sign counts toward the width, longer numbers are not cut. */
  function Padded(n: int, width: nat): string {
    if n < 0 then "-" + ZeroPad(Decimal(-n), if width > 0 then width - 1 else 0) else ZeroPad(Decimal(n), width)
  }

  function DateText(v: Date): string {
    Padded(v.y, 4) + "-" + Padded(v.m, 2) + "-" + Padded(v.d, 2)
  }

  function ClockText(c: Clock): string {
    Padded(c.hour, 2) + ":" + Padded(c.minute, 2) + ":" + Padded(c.second, 2)
  }

  /** `iso_date_utc`. */
  function IsoDateUtc(secs: I64): string {
    DateText(DateOfSecs(secs))
  }

  /** `iso_utc`. */
  function IsoUtc(ms: I64): string {
    DateText(DateOfMillis(ms)) + " " + ClockText(ClockOfMillis(ms)) + " UTC"
  }

  lemma {:induction false} NoDigits(k: nat)
    ensures Digits(0, k) == seq(k, i => '0')
  {
    if k > 0 {
      NoDigits(k - 1);
    }
  }

  /** A number that fits is printed as its digits. */
  lemma {:induction false} PaddedIsDigits(n: nat, k: nat)
    requires k > 0 && n < Pow10(k)
    ensures Padded(n, k) == Digits(n, k)
  {
    var digit := ('0' as int + n % 10) as char;
    if n < 10 {
      NoDigits(k - 1);
      assert Decimal(n) == [digit];
      assert Digits(n, k) == Digits(0, k - 1) + [digit];
    } else {
      PaddedIsDigits(n / 10, k - 1);
      assert Decimal(n) == Decimal(n / 10) + [digit];
    }
  }

  /** Order of the text, as `cmp` on strings has it. */
  predicate TextLess(a: string, b: string) {
    b != [] && (a == [] || a[0] < b[0] || (a[0] == b[0] && TextLess(a[1..], b[1..])))
  }

  lemma {:induction false} TextLessSelf(a: string)
    ensures !TextLess(a, a)
  {
    if a != [] {
      TextLessSelf(a[1..]);
    }
  }

  /** A first part of one length decides unless it is the same. */
  lemma {:induction false} TextLessParts(a: string, b: string, x: string, y: string)
    requires |a| == |b|
    ensures TextLess(a + x, b + y) <==> TextLess(a, b) || (a == b && TextLess(x, y))
  {
    if a == [] {
      assert a + x == x && b + y == y;
    } else {
      TextLessParts(a[1..], b[1..], x, y);
      assert (a + x)[1..] == a[1..] + x && (b + y)[1..] == b[1..] + y;
      assert a == [a[0]] + a[1..] && b == [b[0]] + b[1..];
    }
  }

  lemma {:induction false} OneChar(c: char, d: char)
    ensures TextLess([c], [d]) <==> c < d
  {
    TextLessSelf([]);
  }

  /** For numbers that fit, digits order as the numbers do. */
  lemma {:induction false} DigitsOrder(m: nat, n: nat, k: nat)
    requires m < Pow10(k) && n < Pow10(k)
    ensures TextLess(Digits(m, k), Digits(n, k)) <==> m < n
    ensures Digits(m, k) == Digits(n, k) <==> m == n
  {
    if k > 0 {
      var j := k - 1;
      DigitsOrder(m / 10, n / 10, j);
      var c, d := ('0' as int + m % 10) as char, ('0' as int + n % 10) as char;
      TextLessParts(Digits(m / 10, j), Digits(n / 10, j), [c], [d]);
      OneChar(c, d);
      LastDigitEqual(Digits(m / 10, j), Digits(n / 10, j), c, d);
    }
  }

  lemma {:induction false} LastDigitEqual(a: string, b: string, c: char, d: char)
    requires |a| == |b|
    ensures a + [c] == b + [d] <==> a == b && c == d
  {
    assert (a + [c])[..|a|] == a && (b + [d])[..|b|] == b;
    assert (a + [c])[|a|] == c && (b + [d])[|b|] == d;
  }

  /** The years whose text orders as the years do: those of four digits, and the one
      before them, whose sign sorts below every digit. */
  predicate Sortable(y: int) {
    -1 <= y <= 9999
  }

  lemma {:induction false} YearText(y: int)
    requires Sortable(y)
    ensures |Padded(y, 4)| == 4 && (if y < 0 then Padded(y, 4)[0] == '-' else Padded(y, 4) == Digits(y, 4))
  {
    assert Pow10(4) == 10000;
    if y >= 0 {
      PaddedIsDigits(y, 4);
    } else {
      assert Decimal(1) == "1";
    }
  }

  lemma {:induction false} FirstDigit(n: nat, k: nat)
    requires k > 0
    ensures '0' <= Digits(n, k)[0] <= '9'
  {
    if k > 1 {
      FirstDigit(n / 10, k - 1);
    }
  }

  lemma {:induction false} YearOrder(x: int, y: int)
    requires Sortable(x) && Sortable(y)
    ensures TextLess(Padded(x, 4), Padded(y, 4)) <==> x < y
    ensures Padded(x, 4) == Padded(y, 4) <==> x == y
  {
    YearText(x);
    YearText(y);
    if x >= 0 && y >= 0 {
      assert Pow10(4) == 10000;
      DigitsOrder(x, y, 4);
    } else if x < 0 && y < 0 {
      TextLessSelf(Padded(x, 4));
    } else {
      FirstDigit(if x < 0 then y else x, 4);
    }
  }

  lemma {:induction false} DatePieces(v: Date)
    requires Valid(v)
    ensures DateText(v) == Padded(v.y, 4) + ("-" + (Digits(v.m, 2) + ("-" + Digits(v.d, 2))))
  {
    assert Pow10(2) == 100;
    PaddedIsDigits(v.m, 2);
    PaddedIsDigits(v.d, 2);
  }

  /** Text of three fields orders field by field. */
  lemma {:induction false} FieldOrder(sep: string, y: string, m: string, d: string, y': string, m': string, d': string)
    requires |y| == |y'| && |m| == |m'|
    ensures TextLess(y + (sep + (m + (sep + d))), y' + (sep + (m' + (sep + d'))))
            <==> TextLess(y, y') || (y == y' && (TextLess(m, m') || (m == m' && TextLess(d, d'))))
  {
    TextLessSelf(sep);
    TextLessParts(sep, sep, d, d');
    TextLessParts(m, m', sep + d, sep + d');
    TextLessParts(sep, sep, m + (sep + d), m' + (sep + d'));
    TextLessParts(y, y', sep + (m + (sep + d)), sep + (m' + (sep + d')));
  }

  lemma {:induction false} TextOrderIsDateOrder(a: Date, b: Date)
    requires Valid(a) && Valid(b) && Sortable(a.y) && Sortable(b.y)
    ensures TextLess(DateText(a), DateText(b)) <==> Before(a, b)
  {
    assert Pow10(2) == 100;
    DatePieces(a);
    DatePieces(b);
    YearText(a.y);
    YearText(b.y);
    YearOrder(a.y, b.y);
    DigitsOrder(a.m, b.m, 2);
    DigitsOrder(a.d, b.d, 2);
    FieldOrder("-", Padded(a.y, 4), Digits(a.m, 2), Digits(a.d, 2), Padded(b.y, 4), Digits(b.m, 2), Digits(b.d, 2));
  }

  /** In the years -1 to 9999 the order of the text is the order of time. */
  lemma {:induction false} TextOrderIsTimeOrder(a: Date, b: Date)
    requires Valid(a) && Valid(b) && Sortable(a.y) && Sortable(b.y)
    ensures TextLess(DateText(a), DateText(b)) <==> DaysFromCivil(a) < DaysFromCivil(b)
    ensures DateText(a) == DateText(b) <==> a == b
  {
    TextOrderIsDateOrder(a, b);
    TextOrderIsDateOrder(b, a);
    OrderIsDayOrder(a, b);
    OrderIsDayOrder(b, a);
    TextLessSelf(DateText(a));
  }

  // ---- the stamp, with the time of day -----------------------------------

  lemma {:induction false} ClockOrder(a: Clock, b: Clock)
    requires 0 <= a.hour < 24 && 0 <= a.minute < 60 && 0 <= a.second < 60
    requires 0 <= b.hour < 24 && 0 <= b.minute < 60 && 0 <= b.second < 60
    ensures |ClockText(a)| == 8
    ensures TextLess(ClockText(a), ClockText(b))
            <==> TimeOfDay(a) < TimeOfDay(b)
  {
    assert Pow10(2) == 100;
    ClockPieces(a);
    ClockPieces(b);
    DigitsOrder(a.hour, b.hour, 2);
    DigitsOrder(a.minute, b.minute, 2);
    DigitsOrder(a.second, b.second, 2);
    FieldOrder(":", Digits(a.hour, 2), Digits(a.minute, 2), Digits(a.second, 2),
               Digits(b.hour, 2), Digits(b.minute, 2), Digits(b.second, 2));
  }

  lemma {:induction false} ClockPieces(c: Clock)
    requires 0 <= c.hour < 24 && 0 <= c.minute < 60 && 0 <= c.second < 60
    ensures ClockText(c) == Digits(c.hour, 2) + (":" + (Digits(c.minute, 2) + (":" + Digits(c.second, 2))))
  {
    assert Pow10(2) == 100;
    PaddedIsDigits(c.hour, 2);
    PaddedIsDigits(c.minute, 2);
    PaddedIsDigits(c.second, 2);
  }

  lemma {:induction false} StampPieces(date: string, clock: string, date': string, clock': string)
    requires |date| == |date'| && |clock| == |clock'|
    ensures TextLess(date + " " + clock + " UTC", date' + " " + clock' + " UTC")
            <==> TextLess(date, date') || (date == date' && TextLess(clock, clock'))
  {
    TextLessSelf(" UTC");
    TextLessSelf(" ");
    TextLessParts(clock, clock', " UTC", " UTC");
    TextLessParts(" ", " ", clock + " UTC", clock' + " UTC");
    TextLessParts(date, date', " " + (clock + " UTC"), " " + (clock' + " UTC"));
    assert date + " " + clock + " UTC" == date + (" " + (clock + " UTC"));
    assert date' + " " + clock' + " UTC" == date' + (" " + (clock' + " UTC"));
  }

  /** Seconds since midnight. */
  function TimeOfDay(c: Clock): int {
    c.hour * 3600 + c.minute * 60 + c.second
  }

  lemma {:induction false} InstantOrder(d: int, t: int, d': int, t': int)
    requires 0 <= t < DAY && 0 <= t' < DAY
    ensures d * DAY + t < d' * DAY + t' <==> d < d' || (d == d' && t < t')
  {
  }

  lemma {:induction false} StampFields(ms: I64)
    requires Sortable(DateOfMillis(ms).y)
    ensures var v, c := DateOfMillis(ms), ClockOfMillis(ms);
            && Valid(v) && |DateText(v)| == 10
            && 0 <= c.hour < 24 && 0 <= c.minute < 60 && 0 <= c.second < 60
            && 0 <= TimeOfDay(c) < DAY && ms / 1000 == DaysFromCivil(v) * DAY + TimeOfDay(c)
  {
    CivilIs(ms / 1000 / DAY);
    InstantReadsBack(ms);
    DateTextLength(DateOfMillis(ms));
  }

  /** In those years two stamps order as their instants do, to the second. */
  lemma {:induction false} StampOrderIsTimeOrder(a: I64, b: I64)
    requires Sortable(DateOfMillis(a).y) && Sortable(DateOfMillis(b).y)
    ensures TextLess(IsoUtc(a), IsoUtc(b)) <==> a / 1000 < b / 1000
  {
    StampFields(a);
    StampFields(b);
    var x, c := DateOfMillis(a), ClockOfMillis(a);
    var y, e := DateOfMillis(b), ClockOfMillis(b);
    StampOrder(x, c, y, e);
    InstantOrder(DaysFromCivil(x), TimeOfDay(c), DaysFromCivil(y), TimeOfDay(e));
  }

  lemma {:induction false} StampOrder(x: Date, c: Clock, y: Date, e: Clock)
    requires Valid(x) && Sortable(x.y) && Valid(y) && Sortable(y.y)
    requires 0 <= c.hour < 24 && 0 <= c.minute < 60 && 0 <= c.second < 60
    requires 0 <= e.hour < 24 && 0 <= e.minute < 60 && 0 <= e.second < 60
    ensures TextLess(DateText(x) + " " + ClockText(c) + " UTC", DateText(y) + " " + ClockText(e) + " UTC")
            <==> DaysFromCivil(x) < DaysFromCivil(y)
                 || (DaysFromCivil(x) == DaysFromCivil(y) && TimeOfDay(c) < TimeOfDay(e))
  {
    TextOrderIsTimeOrder(x, y);
    TextOrderIsTimeOrder(y, x);
    OneDayOneText(x, y);
    ClockOrder(c, e);
    ClockOrder(e, c);
    DateTextLength(x);
    DateTextLength(y);
    StampPieces(DateText(x), ClockText(c), DateText(y), ClockText(e));
  }

  lemma {:induction false} OneDayOneText(x: Date, y: Date)
    requires Valid(x) && Valid(y)
    ensures DaysFromCivil(x) == DaysFromCivil(y) <==> x == y
  {
    DaysIsInverse(x);
    DaysIsInverse(y);
  }

  lemma {:induction false} DateTextLength(v: Date)
    requires Valid(v) && Sortable(v.y)
    ensures |DateText(v)| == 10
  {
    DatePieces(v);
    YearText(v.y);
  }

  /** The last instant of year 9999, in seconds. */
  const LAST_SECOND: int := 253402300799
  /** The first instant of year -1. */
  const FIRST_SECOND: int := -62198755200

  lemma {:induction false} RangeEnds()
    ensures DaysFromCivil(Date(-1, 1, 1)) == -719893 && DaysFromCivil(Date(-2, 12, 31)) == -719894
    ensures DaysFromCivil(Date(9999, 12, 31)) == 2932896
    ensures DaysFromCivil(Date(10000, 1, 1)) == 2932897
  {
  }

  lemma {:induction false} DaysInRange(days: int)
    ensures -719893 <= days <= 2932896 <==> Sortable(CivilFromDays(days).y)
  {
    var v := CivilFromDays(days);
    CivilIs(days);
    RangeEnds();
    OrderIsDayOrder(v, Date(-1, 1, 1));
    OrderIsDayOrder(Date(9999, 12, 31), v);
  }

  lemma {:induction false} YearsInRange(secs: int)
    ensures FIRST_SECOND <= secs <= LAST_SECOND <==> Sortable(DateOfSecs(secs).y)
  {
    DaysInRange(secs / DAY);
    assert FIRST_SECOND == DAY * -719893 && LAST_SECOND == DAY * 2932896 + DAY - 1;
  }

  // ---- the list of drafts, newest first ---------------------------------

  /** A file's modification time as text, or nothing when it has none. */
  function Updated(modified: Option<I64>): string {
    match modified
    case None => ""
    case Some(secs) => IsoDateUtc(secs)
  }

  /** Sorted by text, greatest first, as the surface lists drafts. */
  predicate SortedDescending(rows: seq<Option<I64>>) {
    forall i, j :: 0 <= i < j < |rows| ==> !TextLess(Updated(rows[i]), Updated(rows[j]))
  }

  predicate DayNotEarlier(a: Option<I64>, b: Option<I64>) {
    match (a, b)
    case (_, None) => true
    case (None, Some(_)) => false
    case (Some(x), Some(y)) => x / DAY >= y / DAY
  }

  lemma {:induction false} NotLessIsNotEarlier(a: Option<I64>, b: Option<I64>)
    requires a.Some? ==> FIRST_SECOND <= a.value <= LAST_SECOND
    requires b.Some? ==> FIRST_SECOND <= b.value <= LAST_SECOND
    ensures !TextLess(Updated(a), Updated(b)) <==> DayNotEarlier(a, b)
  {
    if a.Some? && b.Some? {
      YearsInRange(a.value);
      YearsInRange(b.value);
      CivilIs(a.value / DAY);
      CivilIs(b.value / DAY);
      TextOrderIsTimeOrder(DateOfSecs(a.value), DateOfSecs(b.value));
    }
  }

  /** The drafts sorted by text are sorted by day, newest first, those without a time
      at the end. */
  lemma {:induction false} SortedIsNewestFirst(rows: seq<Option<I64>>)
    requires forall i :: 0 <= i < |rows| && rows[i].Some? ==> FIRST_SECOND <= rows[i].value <= LAST_SECOND
    ensures SortedDescending(rows) <==> forall i, j :: 0 <= i < j < |rows| ==> DayNotEarlier(rows[i], rows[j])
  {
    forall i, j | 0 <= i < j < |rows|
      ensures !TextLess(Updated(rows[i]), Updated(rows[j])) <==> DayNotEarlier(rows[i], rows[j])
    {
      NotLessIsNotEarlier(rows[i], rows[j]);
    }
  }

  lemma {:induction false} DecimalOfBounds()
    ensures Decimal(9999) == "9999" && Decimal(10000) == "10000"
  {
    assert Decimal(9) == "9" && Decimal(99) == "99" && Decimal(999) == "999";
    assert Decimal(1) == "1" && Decimal(10) == "10" && Decimal(100) == "100" && Decimal(1000) == "1000";
  }

  /** Past the year 9999 the text misleads: the day after the range sorts before it. */
  lemma {:induction false} FifthDigitSortsFirst()
    ensures TextLess(IsoDateUtc(LAST_SECOND + 1), IsoDateUtc(LAST_SECOND))
  {
    RangeEnds();
    DaysIsInverse(Date(9999, 12, 31));
    DaysIsInverse(Date(10000, 1, 1));
    DecimalOfBounds();
  }

  /** So it does before the year -1: the day before the range sorts after it. With these
      two, no wider range of time would do. */
  lemma {:induction false} SecondNegativeYearSortsLast()
    ensures TextLess(IsoDateUtc(FIRST_SECOND), IsoDateUtc(FIRST_SECOND - 1))
  {
    var x, y := Date(-1, 1, 1), Date(-2, 12, 31);
    RangeStart();
    MinusOneBeforeMinusTwo();
    YearDecides(x, y);
  }

  lemma {:induction false} RangeStart()
    ensures DateOfSecs(FIRST_SECOND) == Date(-1, 1, 1) && DateOfSecs(FIRST_SECOND - 1) == Date(-2, 12, 31)
  {
    RangeEnds();
    DaysIsInverse(Date(-1, 1, 1));
    DaysIsInverse(Date(-2, 12, 31));
    assert FIRST_SECOND / DAY == -719893 && (FIRST_SECOND - 1) / DAY == -719894;
  }

  /** Years of one width decide the order of two dates when they differ. */
  lemma {:induction false} YearDecides(x: Date, y: Date)
    requires Valid(x) && Valid(y) && |Padded(x.y, 4)| == |Padded(y.y, 4)| && TextLess(Padded(x.y, 4), Padded(y.y, 4))
    ensures TextLess(DateText(x), DateText(y))
  {
    DatePieces(x);
    DatePieces(y);
    TextLessParts(Padded(x.y, 4), Padded(y.y, 4), "-" + (Digits(x.m, 2) + ("-" + Digits(x.d, 2))),
                  "-" + (Digits(y.m, 2) + ("-" + Digits(y.d, 2))));
  }

  lemma {:induction false} MinusOneBeforeMinusTwo()
    ensures |Padded(-1, 4)| == |Padded(-2, 4)| == 4 && TextLess(Padded(-1, 4), Padded(-2, 4))
  {
    assert Decimal(1) == "1" && Decimal(2) == "2";
    assert Padded(-1, 4) == "-00" + "1" && Padded(-2, 4) == "-00" + "2";
    TextLessSelf("-00");
    OneChar('1', '2');
    TextLessParts("-00", "-00", "1", "2");
  }
}
