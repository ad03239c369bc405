/** Calendar arithmetic shared by the monthly batch, the history query and the
    month navigator: (year, month) pairs, month steps, and the Monday that
    starts the current week. Days are counted from 1970-01-01, a Thursday. */
module Calendar {

  /** A calendar month; month runs 1..12 in a valid value. */
  datatype YearMonth = YM(year: int, month: int)

  predicate Valid(ym: YearMonth) {
    1 <= ym.month <= 12
  }

  /** The number of months since January of year 0, a total order on months. */
  function MonthIndex(ym: YearMonth): int {
    ym.year * 12 + (ym.month - 1)
  }

  /** The month with a given index. */
  function FromIndex(k: int): (ym: YearMonth)
    ensures Valid(ym) && MonthIndex(ym) == k
  {
    YM(k / 12, k % 12 + 1)
  }

  /** Valid months are determined by their index. */
  lemma IndexInjective(a: YearMonth, b: YearMonth)
    requires Valid(a) && Valid(b)
    ensures MonthIndex(a) == MonthIndex(b) <==> a == b
  {
    if MonthIndex(a) == MonthIndex(b) {
      assert (a.year - b.year) * 12 == b.month - a.month;
    }
  }

  /** The month after ym: December rolls over to January of the next year. */
  function NextMonth(ym: YearMonth): (r: YearMonth)
    ensures Valid(ym) ==> Valid(r) && MonthIndex(r) == MonthIndex(ym) + 1
  {
    if ym.month == 12 then YM(ym.year + 1, 1) else YM(ym.year, ym.month + 1)
  }

  /** The month before ym: January rolls back to December of the previous year. */
  function PrevMonth(ym: YearMonth): (r: YearMonth)
    ensures Valid(ym) ==> Valid(r) && MonthIndex(r) == MonthIndex(ym) - 1
  {
    if ym.month == 1 then YM(ym.year - 1, 12) else YM(ym.year, ym.month - 1)
  }

  /** Stepping forward then back, or back then forward, returns to ym. */
  lemma NextPrevInverse(ym: YearMonth)
    requires Valid(ym)
    ensures PrevMonth(NextMonth(ym)) == ym
    ensures NextMonth(PrevMonth(ym)) == ym
  {
    IndexInjective(PrevMonth(NextMonth(ym)), ym);
    IndexInjective(NextMonth(PrevMonth(ym)), ym);
  }

  /** The month k months after ym (before it, for negative k). */
  function AddMonths(ym: YearMonth, k: int): (r: YearMonth)
    ensures Valid(r) && MonthIndex(r) == MonthIndex(ym) + k
  {
    FromIndex(MonthIndex(ym) + k)
  }

  /** Month steps agree with adding one month or subtracting one. */
  lemma StepsAreAddMonths(ym: YearMonth)
    requires Valid(ym)
    ensures NextMonth(ym) == AddMonths(ym, 1)
    ensures PrevMonth(ym) == AddMonths(ym, -1)
  {
    IndexInjective(NextMonth(ym), AddMonths(ym, 1));
    IndexInjective(PrevMonth(ym), AddMonths(ym, -1));
  }

  /** Lexicographic order on (year, month). */
  predicate Before(a: YearMonth, b: YearMonth) {
    a.year < b.year || (a.year == b.year && a.month < b.month)
  }

  /** On valid months, the lexicographic order is the order of indices. */
  lemma BeforeIsIndexOrder(a: YearMonth, b: YearMonth)
    requires Valid(a) && Valid(b)
    ensures Before(a, b) <==> MonthIndex(a) < MonthIndex(b)
  {
    if a.year < b.year {
      assert a.year * 12 + 12 <= b.year * 12;
    } else if a.year > b.year {
      assert b.year * 12 + 12 <= a.year * 12;
    }
  }

  /** Milliseconds per day. */
  const MsPerDay: int := 86_400_000

  /** Day of the week of day number d, 0 for Sunday through 6 for Saturday;
      day 0 (1970-01-01) is a Thursday. */
  function DayOfWeek(d: int): (w: int)
    ensures 0 <= w < 7
  {
    (d + 4) % 7
  }

  /** The Monday of d's week, weeks running Monday to Sunday: the day moves back
      by its weekday and forward one, except Sunday, which moves back six. */
  function WeekStart(d: int): (r: int)
    ensures DayOfWeek(r) == 1
    ensures d - 6 <= r <= d
    ensures DayOfWeek(d) == 0 ==> r == d - 6
  {
    var w := DayOfWeek(d);
    var r := d - w + (if w == 0 then -6 else 1);
    assert (r + 4) % 7 == 1 by {
      assert r + 4 == d + 4 - w + (if w == 0 then -6 else 1);
      assert (d + 4) - w == 7 * ((d + 4) / 7);
    }
    r
  }

  /** The Monday of d's week is the only Monday among d and the six days
      before it. */
  lemma WeekStartUnique(d: int, m: int)
    requires d - 6 <= m <= d && DayOfWeek(m) == 1
    ensures m == WeekStart(d)
  {
    var r := WeekStart(d);
    assert (m + 4) - (m + 4) % 7 == 7 * ((m + 4) / 7);
    assert (r + 4) - (r + 4) % 7 == 7 * ((r + 4) / 7);
    var diff := (m + 4) / 7 - (r + 4) / 7;
    assert m - r == 7 * diff;
  }

  /** Midnight at the start of the Monday of the week containing instant t
      (milliseconds since the epoch). */
  function WeekStartMs(t: int): (r: int)
    ensures r <= t
    ensures t - r < 7 * MsPerDay
  {
    WeekStart(t / MsPerDay) * MsPerDay
  }
}
