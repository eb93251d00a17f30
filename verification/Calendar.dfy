/** The proleptic Gregorian calendar of Python's datetime, and two- and four-digit fields. */
module Calendar {
  datatype Date = Date(year: nat, month: nat, day: nat)

  const MAX_YEAR: nat := 9999

  predicate IsLeap(y: nat) {
    y % 4 == 0 && (y % 100 != 0 || y % 400 == 0)
  }

  function DaysInMonth(y: nat, m: nat): (d: nat)
    ensures 28 <= d <= 31
  {
    if m == 2 then (if IsLeap(y) then 29 else 28)
    else if m == 4 || m == 6 || m == 9 || m == 11 then 30 else 31
  }

  predicate ValidDate(d: Date) {
    1 <= d.year <= MAX_YEAR && 1 <= d.month <= 12 && 1 <= d.day <= DaysInMonth(d.year, d.month)
  }

  function DaysBeforeMonth(y: nat, m: nat): nat {
    if m <= 1 then 0 else DaysBeforeMonth(y, m - 1) + DaysInMonth(y, m - 1)
  }

  function DaysInYear(y: nat): nat {
    if IsLeap(y) then 366 else 365
  }

  function DaysBeforeYear(y: nat): nat {
    if y <= 1 then 0 else DaysBeforeYear(y - 1) + DaysInYear(y - 1)
  }

  /** Days since 0001-01-01. */
  function DayNumber(d: Date): nat
    requires ValidDate(d)
  {
    DaysBeforeYear(d.year) + DaysBeforeMonth(d.year, d.month) + (d.day - 1)
  }

  /** Days from 0001-01-01 to the end of 9999-12-31. */
  const MAX_DAYS: nat := 3652059

  /** The date `n` days after the first of month `m`. */
  function InYear(y: nat, m: nat, n: nat): Date
    requires m <= 12
    decreases 12 - m
  {
    if n < DaysInMonth(y, m) || m == 12 then Date(y, m, n + 1) else InYear(y, m + 1, n - DaysInMonth(y, m))
  }

  /** The date `n` days after the first of year `y`. */
  function SinceYear(y: nat, n: nat): Date
    decreases n
  {
    if n < DaysInYear(y) then InYear(y, 1, n) else SinceYear(y + 1, n - DaysInYear(y))
  }

  function DateOf(n: nat): Date {
    SinceYear(1, n)
  }

  /** Long and short months alternate, and again from August on. */
  lemma MonthLengths(y: nat, m: nat)
    requires 1 <= m <= 12 && m != 2
    ensures DaysInMonth(y, m) == 30 + (m + m / 8) % 2
  {
  }

  /** The months of a year make up its days. */
  lemma MonthsFillYear(y: nat)
    ensures DaysBeforeMonth(y, 13) == DaysInYear(y)
  {
    assert DaysBeforeMonth(y, 1) == 0;
    assert DaysBeforeMonth(y, 3) == 31 + DaysInMonth(y, 2);
    assert DaysBeforeMonth(y, 5) == 92 + DaysInMonth(y, 2);
    assert DaysBeforeMonth(y, 7) == 153 + DaysInMonth(y, 2);
    assert DaysBeforeMonth(y, 9) == 215 + DaysInMonth(y, 2);
    assert DaysBeforeMonth(y, 11) == 276 + DaysInMonth(y, 2);
  }

  lemma MultiplesUpTo(p: nat, k: nat)
    requires k in {4, 100, 400}
    ensures (p + 1) / k == p / k + if (p + 1) % k == 0 then 1 else 0
  {
  }

  /** Leap years up to `p`. */
  function Leaps(p: nat): int {
    p / 4 - p / 100 + p / 400
  }

  lemma FourTimes(q: nat)
    ensures (4 * q) % 4 == 0
  {
  }

  lemma HundredTimes(q: nat)
    ensures (100 * q) % 100 == 0
  {
  }

  lemma CenturiesAreFourths(n: nat)
    ensures n % 100 == 0 ==> n % 4 == 0
    ensures n % 400 == 0 ==> n % 100 == 0
  {
    if n % 100 == 0 {
      assert n == 4 * (25 * (n / 100));
      FourTimes(25 * (n / 100));
    }
    if n % 400 == 0 {
      assert n == 100 * (4 * (n / 400));
      HundredTimes(4 * (n / 400));
    }
  }

  lemma LeapsNext(p: nat)
    ensures Leaps(p + 1) == Leaps(p) + if IsLeap(p + 1) then 1 else 0
  {
    MultiplesUpTo(p, 4);
    MultiplesUpTo(p, 100);
    MultiplesUpTo(p, 400);
    CenturiesAreFourths(p + 1);
  }

  /** The closed form of the leap year rule. */
  lemma {:induction false} DaysBeforeYearFormula(y: nat)
    requires y >= 1
    ensures DaysBeforeYear(y) == 365 * (y - 1) + Leaps(y - 1)
    decreases y
  {
    if y > 1 {
      DaysBeforeYearFormula(y - 1);
      LeapsNext(y - 2);
    }
  }

  lemma {:induction false} InYearCounts(y: nat, m: nat, n: nat)
    requires 1 <= y <= MAX_YEAR && 1 <= m <= 12 && DaysBeforeMonth(y, m) + n < DaysInYear(y)
    ensures var d := InYear(y, m, n);
            ValidDate(d) && d.year == y && DayNumber(d) == DaysBeforeYear(y) + DaysBeforeMonth(y, m) + n
    decreases 12 - m
  {
    MonthsFillYear(y);
    if n >= DaysInMonth(y, m) {
      InYearCounts(y, m + 1, n - DaysInMonth(y, m));
    }
  }

  lemma {:induction false} SinceYearCounts(y: nat, n: nat)
    requires 1 <= y && DaysBeforeYear(y) + n < MAX_DAYS
    ensures var d := SinceYear(y, n); ValidDate(d) && DayNumber(d) == DaysBeforeYear(y) + n
    decreases n
  {
    DaysBeforeYearFormula(y);
    if n < DaysInYear(y) {
      InYearCounts(y, 1, n);
    } else {
      SinceYearCounts(y + 1, n - DaysInYear(y));
    }
  }

  /** Every day number below the last names the valid date with that number. */
  lemma DateOfDayNumber(n: nat)
    requires n < MAX_DAYS
    ensures ValidDate(DateOf(n)) && DayNumber(DateOf(n)) == n
  {
    SinceYearCounts(1, n);
  }
}
