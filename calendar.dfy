/** Dates as Python's `datetime.date` represents them: proleptic Gregorian
    day ordinals, 1 being 0001-01-01 (a Monday) and MAX_ORDINAL 9999-12-31.
    Only what the meal plan needs: the ordinal of a year/month/day, the way
    back, the weekday, and the `%d.%m.%Y` rendering. */
module Calendar {

  const MAX_YEAR := 9999
  const MAX_ORDINAL := 3652059

  /** A valid `datetime.date`, by its ordinal. */
  type Date = n: int | 1 <= n <= MAX_ORDINAL witness 1

  datatype Ymd = Ymd(year: int, month: int, day: int)

  predicate IsLeap(y: int) {
    y % 4 == 0 && (y % 100 != 0 || y % 400 == 0)
  }

  function DaysInYear(y: int): int {
    if IsLeap(y) then 366 else 365
  }

  function DaysInMonth(y: int, m: int): int
    requires 1 <= m <= 12
  {
    if m == 2 then (if IsLeap(y) then 29 else 28)
    else if m == 4 || m == 6 || m == 9 || m == 11 then 30
    else 31
  }

  const DAYS_BEFORE_MONTH: seq<int> := [0, 31, 59, 90, 120, 151, 181, 212, 243, 273, 304, 334]

  function DaysBeforeMonth(y: int, m: int): int
    requires 1 <= m <= 12
  {
    DAYS_BEFORE_MONTH[m - 1] + if m > 2 && IsLeap(y) then 1 else 0
  }

  /** Days in the years before year `y`. */
  function DaysBeforeYear(y: int): int
    requires y >= 1
  {
    var y1 := y - 1;
    y1 * 365 + y1 / 4 - y1 / 100 + y1 / 400
  }

  predicate ValidYmd(d: Ymd) {
    1 <= d.year <= MAX_YEAR && 1 <= d.month <= 12 && 1 <= d.day <= DaysInMonth(d.year, d.month)
  }

  function ToOrdinal(d: Ymd): int
    requires ValidYmd(d)
  {
    DaysBeforeYear(d.year) + DaysBeforeMonth(d.year, d.month) + d.day
  }

  /** `date.weekday()`: 0 is Monday, 6 is Sunday. */
  function DayOfWeek(n: int): int {
    (n + 6) % 7
  }

  lemma MonthStep(y: int, m: int)
    requires 1 <= m <= 12
    ensures m < 12 ==> DaysBeforeMonth(y, m + 1) == DaysBeforeMonth(y, m) + DaysInMonth(y, m)
    ensures m == 12 ==> DaysBeforeMonth(y, m) + DaysInMonth(y, m) == DaysInYear(y)
  {
  }

  lemma YearStep(y: int)
    requires y >= 1
    ensures DaysBeforeYear(y + 1) == DaysBeforeYear(y) + DaysInYear(y)
  {
    var y1 := y - 1;
    assert y / 4 - y1 / 4 == if y % 4 == 0 then 1 else 0;
    assert y / 100 - y1 / 100 == if y % 100 == 0 then 1 else 0;
    assert y / 400 - y1 / 400 == if y % 400 == 0 then 1 else 0;
  }

  lemma {:induction false} YearMonotone(a: int, b: int)
    requires 1 <= a <= b
    ensures DaysBeforeYear(a) + 365 * (b - a) <= DaysBeforeYear(b)
    decreases b - a
  {
    if a < b {
      YearStep(a);
      YearMonotone(a + 1, b);
    }
  }

  lemma LastOrdinal()
    ensures DaysBeforeYear(MAX_YEAR + 1) == MAX_ORDINAL
    ensures ToOrdinal(Ymd(MAX_YEAR, 12, 31)) == MAX_ORDINAL
  {
  }

  /** No day of a year after MAX_YEAR is a valid date. */
  lemma YearsPastLast(y: int)
    requires y >= 1
    ensures y > MAX_YEAR ==> DaysBeforeYear(y) >= MAX_ORDINAL
  {
    LastOrdinal();
    if y > MAX_YEAR {
      YearMonotone(MAX_YEAR + 1, y);
    }
  }

  /** The year holding day `n`, searched upwards from year `y`. */
  function YearOf(n: int, y: int): (r: int)
    requires 1 <= y && DaysBeforeYear(y) < n
    ensures y <= r && DaysBeforeYear(r) < n <= DaysBeforeYear(r + 1)
    decreases n - DaysBeforeYear(y)
  {
    YearStep(y);
    if n <= DaysBeforeYear(y + 1) then y else YearOf(n, y + 1)
  }

  /** The month holding day `k` of year `y`, searched upwards from month `m`. */
  function MonthOf(y: int, k: int, m: int): (r: int)
    requires 1 <= m <= 12 && DaysBeforeMonth(y, m) < k <= DaysInYear(y)
    ensures m <= r <= 12 && DaysBeforeMonth(y, r) < k <= DaysBeforeMonth(y, r) + DaysInMonth(y, r)
    decreases 12 - m
  {
    MonthStep(y, m);
    if k <= DaysBeforeMonth(y, m) + DaysInMonth(y, m) then m else MonthOf(y, k, m + 1)
  }

  /** `date.fromordinal(n)`: the calendar date of day `n`. */
  function FromOrdinal(n: Date): (r: Ymd)
    ensures ValidYmd(r) && ToOrdinal(r) == n
  {
    var y := YearOf(n, 1);
    YearStep(y);
    YearsPastLast(y);
    var k := n - DaysBeforeYear(y);
    var m := MonthOf(y, k, 1);
    Ymd(y, m, k - DaysBeforeMonth(y, m))
  }

  /** Distinct calendar dates have distinct ordinals, so `FromOrdinal`
      recovers every date from its ordinal. */
  lemma FromToOrdinal(d: Ymd)
    requires ValidYmd(d)
    ensures 1 <= ToOrdinal(d) <= MAX_ORDINAL
    ensures FromOrdinal(ToOrdinal(d)) == d
  {
    var n := ToOrdinal(d);
    var k := DaysBeforeMonth(d.year, d.month) + d.day;
    assert k <= DaysInYear(d.year) by {
      MonthStep(d.year, d.month);
      if d.month < 12 {
        MonthBound(d.year, d.month + 1);
      }
    }
    YearStep(d.year);
    assert n <= MAX_ORDINAL by {
      LastOrdinal();
      if d.year < MAX_YEAR {
        YearMonotone(d.year + 1, MAX_YEAR + 1);
      }
    }
    var r := FromOrdinal(n);
    var y := YearOf(n, 1);
    assert r.year == y;
    YearUnique(n, y, d.year);
    assert n - DaysBeforeYear(y) == k;
    assert r.month == MonthOf(y, k, 1);
    MonthUnique(y, k, r.month, d.month);
  }

  /** Only one year's days enclose day `n`. */
  lemma YearUnique(n: int, y: int, z: int)
    requires 1 <= y && DaysBeforeYear(y) < n <= DaysBeforeYear(y + 1)
    requires 1 <= z && DaysBeforeYear(z) < n <= DaysBeforeYear(z + 1)
    ensures y == z
  {
    if y < z {
      YearMonotone(y + 1, z);
    } else if z < y {
      YearMonotone(z + 1, y);
    }
  }

  /** Only one month's days enclose day `k` of a year. */
  lemma MonthUnique(y: int, k: int, a: int, b: int)
    requires 1 <= a <= 12 && DaysBeforeMonth(y, a) < k <= DaysBeforeMonth(y, a) + DaysInMonth(y, a)
    requires 1 <= b <= 12 && DaysBeforeMonth(y, b) < k <= DaysBeforeMonth(y, b) + DaysInMonth(y, b)
    ensures a == b
  {
    if a < b {
      MonthStep(y, a);
      MonthMonotone(y, a + 1, b);
    } else if b < a {
      MonthStep(y, b);
      MonthMonotone(y, b + 1, a);
    }
  }

  lemma MonthBound(y: int, m: int)
    requires 1 <= m <= 12
    ensures DaysBeforeMonth(y, m) + DaysInMonth(y, m) <= DaysInYear(y)
  {
  }

  lemma MonthMonotone(y: int, a: int, b: int)
    requires 1 <= a <= b <= 12
    ensures DaysBeforeMonth(y, a) <= DaysBeforeMonth(y, b)
  {
  }

  /** One decimal digit. */
  function Digit(k: int): char
    requires 0 <= k < 10
  {
    "0123456789"[k]
  }

  function DigitValue(c: char): int {
    c as int - '0' as int
  }

  function Pow10(w: nat): nat {
    if w == 0 then 1 else 10 * Pow10(w - 1)
  }

  /** `v` in exactly `w` decimal digits, with leading zeros. */
  function Decimal(v: nat, w: nat): (r: string)
    ensures |r| == w
    ensures forall i :: 0 <= i < w ==> '0' <= r[i] <= '9'
  {
    if w == 0 then [] else Decimal(v / 10, w - 1) + [Digit(v % 10)]
  }

  /** The number a string of decimal digits denotes. */
  function NumberOf(s: string): int {
    if s == [] then 0 else 10 * NumberOf(s[..|s| - 1]) + DigitValue(s[|s| - 1])
  }

  lemma {:induction false} DecimalRoundTrip(v: nat, w: nat)
    requires v < Pow10(w)
    ensures NumberOf(Decimal(v, w)) == v
  {
    if w > 0 {
      DecimalRoundTrip(v / 10, w - 1);
      var s := Decimal(v, w);
      assert s[..|s| - 1] == Decimal(v / 10, w - 1);
    }
  }

  /** `date.strftime('%d.%m.%Y')`. */
  function FormatDate(n: Date): (r: string)
    ensures |r| == 10 && r[2] == '.' && r[5] == '.'
    ensures forall i :: 0 <= i < 10 && i != 2 && i != 5 ==> '0' <= r[i] <= '9'
  {
    var d := FromOrdinal(n);
    Decimal(d.day, 2) + "." + Decimal(d.month, 2) + "." + Decimal(d.year, 4)
  }

  /** Reading the day, month and year back from a `dd.mm.yyyy` string. */
  function ParseDate(s: string): Ymd
    requires |s| == 10
  {
    Ymd(NumberOf(s[6..]), NumberOf(s[3..5]), NumberOf(s[..2]))
  }

  /** The rendered string names exactly the date of the ordinal. */
  lemma FormatDateRoundTrip(n: Date)
    ensures ParseDate(FormatDate(n)) == FromOrdinal(n)
  {
    var d := FromOrdinal(n);
    var s := FormatDate(n);
    assert s[..2] == Decimal(d.day, 2);
    assert s[3..5] == Decimal(d.month, 2);
    assert s[6..] == Decimal(d.year, 4);
    DecimalRoundTrip(d.day, 2);
    DecimalRoundTrip(d.month, 2);
    DecimalRoundTrip(d.year, 4);
  }
}
