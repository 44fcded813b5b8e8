/** Calendar dates as JavaScript's Date computes them, against the calendar itself. */
module Calendar {
  import opened Numerals

  datatype Date = Date(y: int, m: int, d: int)

  // ---- the calendar -----------------------------------------------------------------

  predicate Leap(y: int) {
    y % 4 == 0 && (y % 100 != 0 || y % 400 == 0)
  }

  function MonthDays(y: int, m: int): (n: int)
    ensures 28 <= n <= 31
  {
    if m == 2 then (if Leap(y) then 29 else 28) else if m == 4 || m == 6 || m == 9 || m == 11 then 30 else 31
  }

  predicate Valid(t: Date) {
    t.y >= 0 && 1 <= t.m <= 12 && 1 <= t.d <= MonthDays(t.y, t.m)
  }

  function Tomorrow(t: Date): Date {
    if t.d < MonthDays(t.y, t.m) then t.(d := t.d + 1)
    else if t.m < 12 then Date(t.y, t.m + 1, 1)
    else Date(t.y + 1, 1, 1)
  }

  /** The date n days on, counted day by day. */
  function Later(t: Date, n: nat): (r: Date)
    requires Valid(t)
    ensures Valid(r)
  {
    if n == 0 then t else Tomorrow(Later(t, n - 1))
  }

  // ---- day numbers (ECMA-262, section "Year Number" and "Month Number") ----------------

  function DayFromYear(y: int): int {
    365 * (y - 1970) + (y - 1969) / 4 - (y - 1901) / 100 + (y - 1601) / 400
  }

  function DaysBefore(y: int, m: int): (n: int)
    requires 1 <= m <= 13
    ensures 0 <= n
  {
    if m == 1 then 0 else DaysBefore(y, m - 1) + MonthDays(y, m - 1)
  }

  function DayOf(t: Date): int
    requires 1 <= t.m <= 12
  {
    DayFromYear(t.y) + DaysBefore(t.y, t.m) + t.d - 1
  }

  lemma DivStep(a: int, k: int)
    requires k > 0
    ensures (a + 1) / k - a / k == if (a + 1) % k == 0 then 1 else 0
  {
    var q, r := a / k, a % k;
    assert a == q * k + r;
    if r == k - 1 {
      assert a + 1 == (q + 1) * k;
      DivIs(a + 1, k, q + 1, 0);
    } else {
      DivIs(a + 1, k, q, r + 1);
    }
  }

  lemma DivIs(a: int, k: int, q: int, r: int)
    requires k > 0 && a == q * k + r && 0 <= r < k
    ensures a / k == q && a % k == r
  {
    var d := q - a / k;
    assert d * k == a % k - r;
    assert d >= 1 ==> d * k >= k;
    assert d <= -1 ==> d * k <= -k;
  }

  lemma ModShift(a: int, k: int, c: int)
    requires k > 0
    ensures (a - c * k) % k == a % k
  {
    assert a == a / k * k + a % k;
    assert a - c * k == (a / k - c) * k + a % k;
    DivIs(a - c * k, k, a / k - c, a % k);
  }

  /** Divisibility by the greater of two cycles implies it by the less. */
  lemma Cycles(y: int)
    ensures y % 400 == 0 ==> y % 100 == 0
    ensures y % 100 == 0 ==> y % 4 == 0
  {
    DivIs(y, 100, y / 400 * 4 + y % 400 / 100, y % 400 % 100);
    DivIs(y, 4, y / 100 * 25 + y % 100 / 4, y % 100 % 4);
  }

  lemma YearLength(y: int)
    ensures DayFromYear(y + 1) - DayFromYear(y) == if Leap(y) then 366 else 365
  {
    DivStep(y - 1969, 4);
    DivStep(y - 1901, 100);
    DivStep(y - 1601, 400);
    ModShift(y, 4, 492);
    ModShift(y, 100, 19);
    ModShift(y, 400, 4);
    Cycles(y);
  }

  lemma MonthsFillYear(y: int)
    ensures DaysBefore(y, 13) == DayFromYear(y + 1) - DayFromYear(y)
  {
    YearLength(y);
    hide DayFromYear;
    assert DaysBefore(y, 1) == 0;
    assert DaysBefore(y, 2) == 31;
    assert DaysBefore(y, 3) == 31 + MonthDays(y, 2);
    assert DaysBefore(y, 4) == 62 + MonthDays(y, 2);
    assert DaysBefore(y, 5) == 92 + MonthDays(y, 2);
    assert DaysBefore(y, 6) == 123 + MonthDays(y, 2);
    assert DaysBefore(y, 7) == 153 + MonthDays(y, 2);
    assert DaysBefore(y, 8) == 184 + MonthDays(y, 2);
    assert DaysBefore(y, 9) == 215 + MonthDays(y, 2);
    assert DaysBefore(y, 10) == 245 + MonthDays(y, 2);
    assert DaysBefore(y, 11) == 276 + MonthDays(y, 2);
    assert DaysBefore(y, 12) == 306 + MonthDays(y, 2);
  }

  /** The last year, from y on, that has begun by this day. */
  function YearFrom(day: int, y: int): (r: int)
    requires DayFromYear(y) <= day
    ensures y <= r && DayFromYear(r) <= day < DayFromYear(r + 1)
    decreases day - DayFromYear(y)
  {
    YearLength(y);
    if day < DayFromYear(y + 1) then y else YearFrom(day, y + 1)
  }

  /** The last month, from m on, that has begun by this day of the year. */
  function MonthFrom(y: int, rest: int, m: int): (r: int)
    requires 1 <= m <= 12 && DaysBefore(y, m) <= rest < DaysBefore(y, 13)
    ensures m <= r <= 12 && DaysBefore(y, r) <= rest < DaysBefore(y, r + 1)
    decreases 13 - m
  {
    if rest < DaysBefore(y, m + 1) then m else MonthFrom(y, rest, m + 1)
  }

  /** The date of a day number, from the year 0 on. */
  function Civil(day: int): Date
    requires DayFromYear(0) <= day
  {
    var y := YearFrom(day, 0);
    MonthsFillYear(y);
    var rest := day - DayFromYear(y);
    var m := MonthFrom(y, rest, 1);
    Date(y, m, rest - DaysBefore(y, m) + 1)
  }

  lemma DayOfCivil(day: int)
    requires DayFromYear(0) <= day
    ensures Valid(Civil(day)) && DayOf(Civil(day)) == day
  {}

  lemma {:induction false} YearsGrow(y: int, z: int)
    requires y < z
    ensures DayFromYear(y + 1) <= DayFromYear(z)
    decreases z - y
  {
    if y + 1 < z {
      YearsGrow(y, z - 1);
      YearLength(z - 1);
    }
  }

  lemma {:induction false} MonthsGrow(y: int, m: int, k: int)
    requires 1 <= m < k <= 13
    ensures DaysBefore(y, m) + MonthDays(y, m) <= DaysBefore(y, k)
    decreases k - m
  {
    if m + 1 < k {
      MonthsGrow(y, m, k - 1);
    }
  }

  predicate Before(a: Date, b: Date) {
    a.y < b.y || (a.y == b.y && (a.m < b.m || (a.m == b.m && a.d < b.d)))
  }

  /** Day numbers order valid dates as the calendar does. */
  lemma DaysInOrder(a: Date, b: Date)
    requires Valid(a) && Valid(b) && Before(a, b)
    ensures DayOf(a) < DayOf(b)
  {
    if a.y < b.y {
      YearsGrow(a.y, b.y);
      MonthsFillYear(a.y);
      MonthsGrow(a.y, a.m, 13);
    } else if a.m < b.m {
      MonthsGrow(a.y, a.m, b.m);
    }
  }

  /** A valid date is the date of its own day number. */
  lemma CivilOfDay(t: Date)
    requires Valid(t)
    ensures DayFromYear(0) <= DayOf(t) && Civil(DayOf(t)) == t
  {
    if t.y > 0 {
      YearsGrow(0, t.y);
      YearLength(0);
    }
    var c := Civil(DayOf(t));
    DayOfCivil(DayOf(t));
    if Before(c, t) {
      DaysInOrder(c, t);
    } else if Before(t, c) {
      DaysInOrder(t, c);
    }
  }

  lemma TomorrowIsNext(t: Date)
    requires Valid(t)
    ensures Valid(Tomorrow(t)) && DayOf(Tomorrow(t)) == DayOf(t) + 1
  {
    if t.d == MonthDays(t.y, t.m) && t.m == 12 {
      MonthsFillYear(t.y);
      assert DaysBefore(t.y, 13) == DaysBefore(t.y, 12) + 31;
    }
  }

  /** Counting n days on from a date adds n to its day number. */
  lemma {:induction false} LaterAdds(t: Date, n: nat)
    requires Valid(t)
    ensures Valid(Later(t, n)) && DayOf(Later(t, n)) == DayOf(t) + n
  {
    if n > 0 {
      LaterAdds(t, n - 1);
      TomorrowIsNext(Later(t, n - 1));
    }
  }

  // ---- ISO strings -------------------------------------------------------------------

  /** `/^\d{4}-\d{2}-\d{2}$/`. */
  predicate IsIso(s: string) {
    |s| == 10 && s[4] == '-' && s[7] == '-' && AllDigits(s[..4]) && AllDigits(s[5..7]) && AllDigits(s[8..])
  }

  function Parse(s: string): Date
    requires IsIso(s)
  {
    Date(Value(s[..4]), Value(s[5..7]), Value(s[8..]))
  }

  /** The date part of `toISOString`: six digits and a sign beyond the year 9999. */
  function Iso(t: Date): string
    requires t.y >= 0 && t.m >= 0 && t.d >= 0
  {
    (if t.y <= 9999 then Padded(t.y, 4) else "+" + Padded(t.y, 6)) + "-" + Padded(t.m, 2) + "-" + Padded(t.d, 2)
  }

  lemma IsoParts(a: string, b: string, c: string)
    requires |a| == 4 && |b| == 2 && |c| == 2
    ensures var s := a + "-" + b + "-" + c;
            |s| == 10 && s[4] == '-' && s[7] == '-' && s[..4] == a && s[5..7] == b && s[8..] == c
  {}

  lemma IsoRoundTrip(t: Date)
    requires Valid(t) && t.y <= 9999
    ensures IsIso(Iso(t)) && Parse(Iso(t)) == t
  {
    assert Pow10(2) == 100 && Pow10(4) == 10000 by {
      assert Pow10(0) == 1 && Pow10(1) == 10 && Pow10(2) == 100 && Pow10(3) == 1000;
    }
    PaddedRoundTrip(t.y, 4);
    PaddedRoundTrip(t.m, 2);
    PaddedRoundTrip(t.d, 2);
    hide Padded, Value;
    IsoParts(Padded(t.y, 4), Padded(t.m, 2), Padded(t.d, 2));
  }

  /** String order of ISO dates is the order of year, month and day. */
  lemma IsoOrder(a: string, b: string)
    requires IsIso(a) && IsIso(b)
    ensures Less(a, b) <==> Before(Parse(a), Parse(b))
    ensures a == b <==> Parse(a) == Parse(b)
  {
    var a1, a2, a3 := a[..4], a[5..7], a[8..];
    var b1, b2, b3 := b[..4], b[5..7], b[8..];
    assert a == a1 + ("-" + (a2 + ("-" + a3))) && b == b1 + ("-" + (b2 + ("-" + b3)));
    LessIsNumeric(a1, b1);
    LessIsNumeric(a2, b2);
    LessIsNumeric(a3, b3);
    hide Value, Less;
    LessConcat(a1, b1, "-" + (a2 + ("-" + a3)), "-" + (b2 + ("-" + b3)));
    LessDash(a2 + ("-" + a3), b2 + ("-" + b3));
    LessConcat(a2, b2, "-" + a3, "-" + b3);
    LessDash(a3, b3);
  }

  lemma LessDash(x: string, y: string)
    ensures Less("-" + x, "-" + y) <==> Less(x, y)
  {
    assert ("-" + x)[1..] == x && ("-" + y)[1..] == y;
  }

  /** So string order of the ISO forms of valid dates is day-number order. */
  lemma IsoOrderIsDayOrder(a: string, b: string)
    requires IsIso(a) && IsIso(b) && Valid(Parse(a)) && Valid(Parse(b))
    ensures Less(a, b) <==> DayOf(Parse(a)) < DayOf(Parse(b))
  {
    IsoOrder(a, b);
    hide Parse, Less, DayOf;
    if Before(Parse(a), Parse(b)) {
      DaysInOrder(Parse(a), Parse(b));
    } else if Before(Parse(b), Parse(a)) {
      DaysInOrder(Parse(b), Parse(a));
    } else {
      assert Parse(a) == Parse(b);
    }
  }

  // ---- addDaysISO ------------------------------------------------------------------------

  /** `Date.UTC`, in days: years 0 to 99 are taken as 1900 to 1999, and months and days overflow. */
  function UtcDay(y: int, m: int, d: int): int {
    var year := (if 0 <= y <= 99 then 1900 + y else y) + (m - 1) / 12;
    DayFromYear(year) + DaysBefore(year, (m - 1) % 12 + 1) + d - 1
  }

  lemma UtcDayIs(t: Date)
    requires Valid(t)
    ensures UtcDay(t.y, t.m, t.d) == if t.y <= 99 then DayFromYear(1900 + t.y) + DaysBefore(1900 + t.y, t.m) + t.d - 1 else DayOf(t)
  {
    assert (t.m - 1) / 12 == 0 && (t.m - 1) % 12 == t.m - 1;
  }

  /** A month past December is one of the next year, as `Date.UTC` takes it, and days count on. */
  lemma MonthsOverflow(y: int, m: int, d: int)
    requires y >= 100
    ensures UtcDay(y, m + 12, d) == UtcDay(y + 1, m, d) && UtcDay(y, m, d + 1) == UtcDay(y, m, d) + 1
  {
    assert (m + 12 - 1) / 12 == (m - 1) / 12 + 1 && (m + 12 - 1) % 12 == (m - 1) % 12;
  }

  function Take10(s: string): string {
    if |s| <= 10 then s else s[..10]
  }

  lemma UtcDayAfterZero(y: int, m: int, d: int)
    requires 0 <= y && 0 <= m && 0 <= d
    ensures DayFromYear(0) <= UtcDay(y, m, d)
  {
    var year := (if y <= 99 then 1900 + y else y) + (m - 1) / 12;
    assert year >= 99;
    YearsGrow(0, year);
    YearLength(0);
  }

  lemma {:induction false} ValueNonNegative(s: string)
    requires AllDigits(s)
    ensures Value(s) >= 0
  {
    if s != "" {
      ValueNonNegative(s[..|s| - 1]);
      assert IsDigit(s[|s| - 1]);
    }
  }

  function AddDaysISO(s: string, n: nat): string
    requires IsIso(s)
  {
    var t := Parse(s);
    ValueNonNegative(s[..4]);
    ValueNonNegative(s[5..7]);
    ValueNonNegative(s[8..]);
    UtcDayAfterZero(t.y, t.m, t.d + n);
    var day := UtcDay(t.y, t.m, t.d + n);
    DayOfCivil(day);
    Take10(Iso(Civil(day)))
  }

  lemma UtcDayMoves(y: int, m: int, d: int, n: int)
    ensures UtcDay(y, m, d + n) == UtcDay(y, m, d) + n
  {}

  lemma AddDaysIs(t: Date, n: nat)
    requires Valid(t) && t.y <= 9999
    ensures IsIso(Iso(t)) && DayFromYear(0) <= UtcDay(t.y, t.m, t.d) + n
    ensures Valid(Civil(UtcDay(t.y, t.m, t.d) + n))
    ensures AddDaysISO(Iso(t), n) == Take10(Iso(Civil(UtcDay(t.y, t.m, t.d) + n)))
  {
    IsoRoundTrip(t);
    UtcDayAfterZero(t.y, t.m, t.d);
    UtcDayMoves(t.y, t.m, t.d, n);
    hide Iso, Parse, UtcDay, Civil;
    DayOfCivil(UtcDay(t.y, t.m, t.d) + n);
  }

  lemma IsoLength(t: Date)
    requires Valid(t) && t.y <= 9999
    ensures Take10(Iso(t)) == Iso(t)
  {}

  /** From the year 100 to the end of 9999, `addDaysISO` is the date n calendar days on. */
  lemma AddDaysCountsDays(t: Date, n: nat)
    requires Valid(t) && 100 <= t.y <= 9999 && Later(t, n).y <= 9999
    ensures IsIso(Iso(t)) && AddDaysISO(Iso(t), n) == Iso(Later(t, n))
  {
    hide *;
    UtcDayIs(t);
    LaterAdds(t, n);
    CivilOfDay(Later(t, n));
    AddDaysIs(t, n);
    IsoLength(Later(t, n));
  }

  lemma EarlyYears(t: Date)
    requires Valid(t) && t.y < 100
    ensures UtcDay(t.y, t.m, t.d) > DayOf(t)
  {
    UtcDayIs(t);
    hide UtcDay;
    YearsGrow(t.y, 1900 + t.y);
    MonthsFillYear(t.y);
    MonthsGrow(t.y, t.m, 13);
  }

  /** Before the year 100 it is never that date: the year is read as one of the twentieth century. */
  lemma AddDaysEarly(t: Date, n: nat)
    requires Valid(t) && t.y < 100 && Later(t, n).y <= 9999
    ensures IsIso(Iso(t)) && AddDaysISO(Iso(t), n) != Iso(Later(t, n))
  {
    EarlyYears(t);
    LaterAdds(t, n);
    AddDaysIs(t, n);
    var day := UtcDay(t.y, t.m, t.d) + n;
    hide AddDaysISO, UtcDay, Later;
    DayOfCivil(day);
    DifferentDates(Civil(day), Later(t, n));
  }

  lemma DifferentDates(a: Date, b: Date)
    requires Valid(a) && Valid(b) && b.y <= 9999 && a != b
    ensures Take10(Iso(a)) != Iso(b)
  {
    if a.y <= 9999 {
      IsoRoundTrip(a);
      IsoRoundTrip(b);
      IsoLength(a);
      hide Iso, Take10;
    } else {
      assert Take10(Iso(a))[0] == '+';
      assert Iso(b)[0] == Padded(b.y, 4)[0];
      assert Padded(b.y, 4)[0] in Padded(b.y, 4);
    }
  }
}
