/** Proleptic Gregorian dates and their day numbers (day 1 is 0001-01-01, a Monday). */
module Calendar {
  datatype Date = Date(year: int, month: int, day: int)

  predicate IsLeap(y: int) { y % 4 == 0 && (y % 100 != 0 || y % 400 == 0) }

  function DaysInMonth(y: int, m: int): (n: int)
    requires 1 <= m <= 12
    ensures 28 <= n <= 31
  {
    if m == 2 then (if IsLeap(y) then 29 else 28) else if m in {4, 6, 9, 11} then 30 else 31
  }

  predicate Valid(d: Date) { d.year >= 1 && 1 <= d.month <= 12 && 1 <= d.day <= DaysInMonth(d.year, d.month) }

  function DaysBeforeYear(y: int): int {
    (y - 1) * 365 + (y - 1) / 4 - (y - 1) / 100 + (y - 1) / 400
  }

  function DaysBeforeMonth(y: int, m: int): int
    requires 1 <= m <= 13
  {
    if m == 1 then 0 else DaysBeforeMonth(y, m - 1) + DaysInMonth(y, m - 1)
  }

  function Ordinal(d: Date): int
    requires Valid(d)
  {
    DaysBeforeYear(d.year) + DaysBeforeMonth(d.year, d.month) + d.day
  }

  predicate Before(a: Date, b: Date) {
    a.year < b.year || (a.year == b.year && (a.month < b.month || (a.month == b.month && a.day < b.day)))
  }

  function Next(d: Date): (n: Date)
    requires Valid(d)
    ensures Valid(n)
  {
    if d.day < DaysInMonth(d.year, d.month) then Date(d.year, d.month, d.day + 1)
    else if d.month < 12 then Date(d.year, d.month + 1, 1)
    else Date(d.year + 1, 1, 1)
  }

  lemma MonthStarts(y: int, m: int)
    requires 1 <= m <= 12
    ensures DaysBeforeMonth(y, m)
         == if m <= 2 then 31 * (m - 1) else 31 + DaysInMonth(y, 2) + (153 * (m - 3) + 2) / 5
  {
    var feb := DaysInMonth(y, 2);
    assert DaysBeforeMonth(y, 2) == 31;
    assert DaysBeforeMonth(y, 3) == 31 + feb;
    assert DaysBeforeMonth(y, 4) == 62 + feb;
    assert DaysBeforeMonth(y, 5) == 92 + feb;
    assert DaysBeforeMonth(y, 6) == 123 + feb;
    assert DaysBeforeMonth(y, 7) == 153 + feb;
    assert DaysBeforeMonth(y, 8) == 184 + feb;
    assert DaysBeforeMonth(y, 9) == 215 + feb;
    assert DaysBeforeMonth(y, 10) == 245 + feb;
    assert DaysBeforeMonth(y, 11) == 276 + feb;
    assert DaysBeforeMonth(y, 12) == 306 + feb;
  }

  lemma MonthsOfYear(y: int)
    ensures DaysBeforeMonth(y, 13) == 337 + DaysInMonth(y, 2)
  {
    MonthStarts(y, 12);
  }

  lemma MultiplesApart(k: nat, q: int, d: nat)
    ensures k * (q + 1 + d) >= k * q + k
  {
    assert k * (q + 1 + d) == k * q + k + k * d;
  }

  lemma DivisionIsUnique(k: int, q: int, r: int, q': int, r': int)
    requires k > 0 && k * q + r == k * q' + r' && 0 <= r < k && 0 <= r' < k
    ensures q == q' && r == r'
  {
    if q > q' { MultiplesApart(k, q', q - q' - 1); }
    if q < q' { MultiplesApart(k, q, q' - q - 1); }
  }

  /** A whole number of years is passed exactly at the multiples. */
  lemma Passed(y: int, k: int)
    requires k > 0
    ensures y / k - (y - 1) / k == if y % k == 0 then 1 else 0
  {
    var q, r := y / k, y % k;
    if r == 0 {
      assert y - 1 == k * (q - 1) + (k - 1);
      DivisionIsUnique(k, (y - 1) / k, (y - 1) % k, q - 1, k - 1);
    } else {
      DivisionIsUnique(k, (y - 1) / k, (y - 1) % k, q, r - 1);
    }
  }

  lemma MultiplesNest(y: int)
    ensures y % 100 == 0 ==> y % 4 == 0
    ensures y % 400 == 0 ==> y % 100 == 0
  {
    if y % 100 == 0 { DivisionIsUnique(4, y / 4, y % 4, 25 * (y / 100), 0); }
    if y % 400 == 0 { DivisionIsUnique(100, y / 100, y % 100, 4 * (y / 400), 0); }
  }

  /** The sums of the three corrections, without their divisions. */
  lemma LeapSum(y: int, fourths: int, centuries: int, fourthCenturies: int)
    requires y % 400 == 0 ==> y % 100 == 0
    requires y % 100 == 0 ==> y % 4 == 0
    requires fourths == if y % 4 == 0 then 1 else 0
    requires centuries == if y % 100 == 0 then 1 else 0
    requires fourthCenturies == if y % 400 == 0 then 1 else 0
    ensures fourths - centuries + fourthCenturies == if IsLeap(y) then 1 else 0
  {
  }

  lemma YearLength(y: int)
    ensures DaysBeforeYear(y + 1) == DaysBeforeYear(y) + DaysBeforeMonth(y, 13)
    ensures DaysBeforeMonth(y, 13) == if IsLeap(y) then 366 else 365
  {
    hide IsLeap, DaysBeforeMonth;
    MonthsOfYear(y);
    Passed(y, 4);
    Passed(y, 100);
    Passed(y, 400);
    MultiplesNest(y);
    LeapSum(y, y / 4 - (y - 1) / 4, y / 100 - (y - 1) / 100, y / 400 - (y - 1) / 400);
  }

  lemma {:induction false} NextIsSuccessor(d: Date)
    requires Valid(d)
    ensures Ordinal(Next(d)) == Ordinal(d) + 1
  {
    if d.day == DaysInMonth(d.year, d.month) && d.month == 12 {
      YearLength(d.year);
      assert DaysBeforeMonth(d.year, 13) == DaysBeforeMonth(d.year, 12) + DaysInMonth(d.year, 12);
    }
  }

  lemma {:induction false} MonthsAccumulate(y: int, m: int, m': int)
    requires 1 <= m <= m' <= 13
    ensures DaysBeforeMonth(y, m') >= DaysBeforeMonth(y, m)
    ensures m < m' ==> DaysBeforeMonth(y, m') >= DaysBeforeMonth(y, m) + DaysInMonth(y, m)
    decreases m' - m
  {
    if m < m' { MonthsAccumulate(y, m, m' - 1); }
  }

  lemma {:induction false} YearsAccumulate(y: int, y': int)
    requires y < y'
    ensures DaysBeforeYear(y') >= DaysBeforeYear(y) + DaysBeforeMonth(y, 13)
    decreases y' - y
  {
    YearLength(y);
    if y + 1 < y' {
      YearLength(y + 1);
      YearsAccumulate(y + 1, y');
    }
  }

  lemma EarlierIsSmaller(a: Date, b: Date)
    requires Valid(a) && Valid(b) && Before(a, b)
    ensures Ordinal(a) < Ordinal(b)
  {
    MonthsAccumulate(b.year, 1, b.month);
    if a.year < b.year {
      YearsAccumulate(a.year, b.year);
      MonthsAccumulate(a.year, a.month, 13);
    } else if a.month < b.month {
      MonthsAccumulate(a.year, a.month, b.month);
    }
  }

  lemma DayOne()
    ensures Ordinal(Date(1, 1, 1)) == 1
  {
  }

  lemma OrdinalIsPositive(d: Date)
    requires Valid(d)
    ensures Ordinal(d) >= 1
  {
    hide Ordinal, DaysInMonth;
    var first := Date(1, 1, 1);
    DayOne();
    if Before(first, d) { EarlierIsSmaller(first, d); }
  }

  /** Day numbers order dates exactly as year, month and day do; in particular they name dates uniquely. */
  lemma OrdinalIsLexicographic(a: Date, b: Date)
    requires Valid(a) && Valid(b)
    ensures Ordinal(a) < Ordinal(b) <==> Before(a, b)
    ensures Ordinal(a) == Ordinal(b) <==> a == b
  {
    hide Ordinal, Valid;
    if Before(a, b) { EarlierIsSmaller(a, b); }
    if Before(b, a) { EarlierIsSmaller(b, a); }
  }

  /** The date with a given day number, reached by counting days. */
  function OfOrdinal(n: int): (d: Date)
    requires n >= 1
    ensures Valid(d) && Ordinal(d) == n
  {
    if n == 1 then Date(1, 1, 1) else
    var p := OfOrdinal(n - 1);
    NextIsSuccessor(p);
    Next(p)
  }

  lemma {:induction false} OfOrdinalInverts(d: Date)
    requires Valid(d)
    ensures Ordinal(d) >= 1 && OfOrdinal(Ordinal(d)) == d
  {
    OrdinalIsPositive(d);
    OrdinalIsLexicographic(d, OfOrdinal(Ordinal(d)));
  }

  function AddDays(d: Date, n: int): (r: Date)
    requires Valid(d) && Ordinal(d) + n >= 1
    ensures Valid(r) && Ordinal(r) == Ordinal(d) + n
  {
    OfOrdinal(Ordinal(d) + n)
  }

  /** Monday is 0. */
  function Weekday(d: Date): (w: int)
    requires Valid(d)
    ensures 0 <= w < 7
  {
    (Ordinal(d) + 6) % 7
  }

  datatype Granularity = Day | Week | Month

  predicate IsBucketStart(g: Granularity, d: Date)
    requires Valid(d)
  {
    match g
    case Day => true
    case Week => Weekday(d) == 0
    case Month => d.day == 1
  }

  function Trunc(g: Granularity, d: Date): (b: Date)
    requires Valid(d)
    ensures Valid(b)
  {
    match g
    case Day => d
    case Week =>
      OrdinalIsPositive(d);
      AddDays(d, -Weekday(d))
    case Month => Date(d.year, d.month, 1)
  }

  /** The last bucket start on or before a date: the meaning of date truncation. */
  ghost predicate IsLastStart(g: Granularity, d: Date, b: Date)
    requires Valid(d)
  {
    && Valid(b) && IsBucketStart(g, b) && Ordinal(b) <= Ordinal(d)
    && forall c :: Valid(c) && IsBucketStart(g, c) && Ordinal(c) <= Ordinal(d) ==> Ordinal(c) <= Ordinal(b)
  }

  lemma {:induction false} TruncIsLastStart(g: Granularity, d: Date)
    requires Valid(d)
    ensures IsLastStart(g, d, Trunc(g, d))
  {
    match g
    case Day =>
    case Week => TruncWeek(d);
    case Month => TruncMonth(d);
  }

  lemma TruncWeek(d: Date)
    requires Valid(d)
    ensures IsLastStart(Week, d, Trunc(Week, d))
  {
    hide Ordinal, Valid;
  }

  lemma TruncMonth(d: Date)
    requires Valid(d)
    ensures IsLastStart(Month, d, Trunc(Month, d))
  {
    hide Ordinal;
    var b := Trunc(Month, d);
    OrdinalIsLexicographic(d, b);
    forall c | Valid(c) && IsBucketStart(Month, c) && Ordinal(c) <= Ordinal(d) ensures Ordinal(c) <= Ordinal(b) {
      OrdinalIsLexicographic(b, c);
      OrdinalIsLexicographic(d, c);
    }
  }

  lemma {:induction false} TruncMonotone(g: Granularity, a: Date, b: Date)
    requires Valid(a) && Valid(b) && Ordinal(a) <= Ordinal(b)
    ensures Ordinal(Trunc(g, a)) <= Ordinal(Trunc(g, b))
  {
    TruncIsLastStart(g, a);
    TruncIsLastStart(g, b);
  }

  lemma TruncFixesStarts(g: Granularity, b: Date)
    requires Valid(b) && IsBucketStart(g, b)
    ensures Trunc(g, b) == b
  {
    TruncIsLastStart(g, b);
    OrdinalIsLexicographic(b, Trunc(g, b));
  }

  /** The civil formula: years counted from March, so that the leap day comes last, and months of 30.6 days on
      average. */
  function CivilDay(d: Date): int {
    var y := if d.month <= 2 then d.year - 1 else d.year;
    var m := (d.month + 9) % 12;
    365 * y + y / 4 - y / 100 + y / 400 + (153 * m + 2) / 5 + d.day - 306
  }

  /** The days before a year and its leap day are those of the years up to it. */
  lemma DaysThroughFebruary(y: int)
    requires y >= 1
    ensures DaysBeforeYear(y) + DaysInMonth(y, 2) == 365 * (y - 1) + 28 + y / 4 - y / 100 + y / 400
  {
    Passed(y, 4);
    Passed(y, 100);
    Passed(y, 400);
    MultiplesNest(y);
    LeapSum(y, y / 4 - (y - 1) / 4, y / 100 - (y - 1) / 100, y / 400 - (y - 1) / 400);
  }

  /** Day numbers are those of the Gregorian calendar, for every date. */
  lemma {:induction false} OrdinalIsCivil(d: Date)
    requires Valid(d)
    ensures Ordinal(d) == CivilDay(d)
  {
    MonthStarts(d.year, d.month);
    hide DaysBeforeMonth, IsLeap;
    if d.month <= 2 {
      assert (153 * ((d.month + 9) % 12) + 2) / 5 - 306 == 31 * (d.month - 1);
    } else {
      DaysThroughFebruary(d.year);
      hide DaysBeforeYear, DaysInMonth;
      assert (d.month + 9) % 12 == d.month - 3;
    }
  }

  lemma EpochNumber()
    ensures Ordinal(Date(1970, 1, 1)) == 719_163
  {
    OrdinalIsCivil(Date(1970, 1, 1));
    hide Ordinal;
  }

  /** Weekdays follow one another, and 1970-01-01 was a Thursday. */
  lemma {:induction false} WeekdaysAdvance(d: Date)
    requires Valid(d)
    ensures Weekday(Next(d)) == (Weekday(d) + 1) % 7
    ensures Weekday(Date(1970, 1, 1)) == 3
  {
    hide Ordinal, Next;
    NextIsSuccessor(d);
    EpochNumber();
  }

  /** The bucket of a date: itself, the Monday at most six days before, or the first of its month. */
  lemma {:induction false} TruncMeans(d: Date)
    requires Valid(d)
    ensures Trunc(Day, d) == d
    ensures Weekday(Trunc(Week, d)) == 0 && 0 <= Ordinal(d) - Ordinal(Trunc(Week, d)) < 7
    ensures Trunc(Month, d) == Date(d.year, d.month, 1)
  {
    hide Ordinal;
    TruncIsLastStart(Week, d);
  }
}
