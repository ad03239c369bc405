/** The month navigator of the diagnosis pages: step to the previous month, or
    to the next one unless that would pass the current month. The current
    month is a parameter here (the component reads it from the clock). */
module MonthNavigator {

  import opened Wrappers
  import opened Calendar

  /** The previous-month button always moves one month back. */
  function HandlePrev(shown: YearMonth): (r: YearMonth)
    ensures Valid(shown) ==> Valid(r) && MonthIndex(r) == MonthIndex(shown) - 1
  {
    PrevMonth(shown)
  }

  /** The next-month button does nothing when the shown month is the current one
      or later (compared as (year, month)); otherwise it moves one month on. */
  function HandleNext(shown: YearMonth, current: YearMonth): (r: Option<YearMonth>)
    ensures r.Some? <==> Before(shown, current)
    ensures r.Some? && Valid(shown) ==> Valid(r.value) && MonthIndex(r.value) == MonthIndex(shown) + 1
  {
    if shown.year > current.year || (shown.year == current.year && shown.month >= current.month) then None
    else Some(NextMonth(shown))
  }

  /** Whether the shown month is the current month; the next button is disabled
      exactly then. */
  predicate IsCurrentMonth(shown: YearMonth, current: YearMonth) {
    shown.year == current.year && shown.month == current.month
  }

  /** Next never reaches a month after the current one. */
  lemma NextNeverFuture(shown: YearMonth, current: YearMonth)
    requires Valid(shown) && Valid(current)
    requires HandleNext(shown, current).Some?
    ensures !Before(current, HandleNext(shown, current).value)
    ensures MonthIndex(HandleNext(shown, current).value) <= MonthIndex(current)
  {
    BeforeIsIndexOrder(shown, current);
    BeforeIsIndexOrder(current, HandleNext(shown, current).value);
  }

  /** When next is allowed, prev undoes it; from any month up to the current
      one, next undoes prev. */
  lemma NavigationRoundTrip(shown: YearMonth, current: YearMonth)
    requires Valid(shown) && Valid(current)
    ensures HandleNext(shown, current).Some? ==> HandlePrev(HandleNext(shown, current).value) == shown
    ensures MonthIndex(shown) <= MonthIndex(current) ==> HandleNext(HandlePrev(shown), current) == Some(shown)
  {
    NextPrevInverse(shown);
    BeforeIsIndexOrder(HandlePrev(shown), current);
  }

  /** For a shown month no later than the current one, next is refused exactly
      when the shown month is the current one, which is when the button is
      disabled; for later months the button stays enabled but does nothing. */
  lemma DisabledIffCurrent(shown: YearMonth, current: YearMonth)
    requires Valid(shown) && Valid(current)
    ensures IsCurrentMonth(shown, current) ==> HandleNext(shown, current).None?
    ensures MonthIndex(shown) <= MonthIndex(current) ==>
              (HandleNext(shown, current).None? <==> IsCurrentMonth(shown, current))
  {
    BeforeIsIndexOrder(shown, current);
    IndexInjective(shown, current);
  }
}
