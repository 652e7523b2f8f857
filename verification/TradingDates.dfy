/** `data_gateway/resolver.py`: the trading date a bar belongs to. Night-session bars, from 20:00 on,
    belong to the next trading day of the calendar. */
module TradingDates {
  import opened Wrappers
  import opened Clock
  import opened Sequences
  import opened Resolver

  predicate Night(t: Time) {
    Hour(t) >= 20
  }

  /** The least calendar date after `d`. */
  function NextAfter(calendar: seq<Date>, d: Date): (r: Option<Date>)
    ensures r.None? ==> forall c :: c in calendar ==> c <= d
    ensures r.Some? ==> r.value in calendar && r.value > d && forall c :: c in calendar && c > d ==> r.value <= c
  {
    if calendar == [] then None
    else
      var rest := NextAfter(calendar[1..], d);
      assert calendar == [calendar[0]] + calendar[1..];
      if calendar[0] > d && (rest.None? || calendar[0] <= rest.value) then Some(calendar[0]) else rest
  }

  function TradingDate(t: Time, calendar: seq<Date>): Date {
    if Night(t) then
      match NextAfter(calendar, Day(t))
      case Some(d) => d
      case None => Day(t) + 1
    else Day(t)
  }

  /** `_trading_date_for`: the first candidate of the sorted calendar after the bar's own date. */
  method TradingDateFor(timestamp: Time, calendar: seq<Date>) returns (d: Date)
    requires Increasing(calendar)
    ensures d == TradingDate(timestamp, calendar)
  {
    if Night(timestamp) {
      for i := 0 to |calendar|
        invariant forall j :: 0 <= j < i ==> calendar[j] <= Day(timestamp)
      {
        if calendar[i] > Day(timestamp) {
          forall c | c in calendar && c > Day(timestamp) ensures calendar[i] <= c {
            var j :| 0 <= j < |calendar| && calendar[j] == c;
          }
          assert calendar[i] in calendar;
          return calendar[i];
        }
      }
      return Day(timestamp) + 1;
    }
    return Day(timestamp);
  }

  /** Marks every bar with its trading date; an empty calendar is an error unless there are no bars. */
  method AssignTradingDates(bars: seq<Bar>, tradingDates: seq<Date>) returns (r: Result<seq<Bar>, BarError>)
    ensures r.Err? <==> bars != [] && tradingDates == []
    ensures r.Err? ==> r.error == EmptyCalendar
    ensures r.Ok? ==> |r.value| == |bars|
    ensures r.Ok? ==> forall i | 0 <= i < |bars| :: r.value[i] == bars[i].(tradingDate := Some(TradingDate(bars[i].timestamp, tradingDates)))
  {
    if bars == [] {
      return Ok([]);
    }
    if tradingDates == [] {
      return Err(EmptyCalendar);
    }
    var calendar := SortedDistinct(tradingDates);
    SortedDistinctIncreasing(tradingDates);
    var out: seq<Bar> := [];
    for i := 0 to |bars|
      invariant |out| == i
      invariant forall j :: 0 <= j < i ==> out[j] == bars[j].(tradingDate := Some(TradingDate(bars[j].timestamp, tradingDates)))
    {
      var d := TradingDateFor(bars[i].timestamp, calendar);
      NextDependsOnDates(calendar, tradingDates, Day(bars[i].timestamp));
      out := out + [bars[i].(tradingDate := Some(d))];
    }
    return Ok(out);
  }

  /** Sorting and deduplicating the calendar does not change the next date. */
  lemma {:induction false} NextDependsOnDates(xs: seq<Date>, ys: seq<Date>, d: Date)
    requires forall c :: c in xs <==> c in ys
    ensures NextAfter(xs, d) == NextAfter(ys, d)
  {
    var a, b := NextAfter(xs, d), NextAfter(ys, d);
    if a.Some? {
      assert a.value in ys;
    }
    if b.Some? {
      assert b.value in xs;
    }
  }

  /** A trading date never precedes the bar's own date, so marking keeps a valid bar valid; a night bar's
      trading date is later, and no calendar date lies strictly between the two. */
  lemma {:induction false} TradingDateBounds(t: Time, calendar: seq<Date>)
    ensures TradingDate(t, calendar) >= Day(t)
    ensures Night(t) ==> TradingDate(t, calendar) > Day(t)
    ensures Night(t) ==> forall c :: c in calendar ==> !(Day(t) < c < TradingDate(t, calendar))
    ensures Night(t) && (exists c :: c in calendar && c > Day(t)) ==> TradingDate(t, calendar) in calendar
  {
  }

  ghost predicate NonDecreasing(times: seq<Time>, calendar: seq<Date>) {
    forall i, j | 0 <= i < j < |times| :: TradingDate(times[i], calendar) <= TradingDate(times[j], calendar)
  }

  /** A night bar is followed by a day-session bar on a later date that is still before the next
      calendar date: the later bar falls on a non-trading day. */
  ghost predicate HolidayAfterNight(times: seq<Time>, calendar: seq<Date>, i: int, j: int) {
    && 0 <= i < j < |times| && Night(times[i]) && !Night(times[j]) && Day(times[i]) < Day(times[j])
    && (exists c :: c in calendar && c > Day(times[j]))
    && (forall c :: c in calendar ==> !(Day(times[i]) < c <= Day(times[j])))
  }

  lemma {:induction false} OrderedPair(s: Time, t: Time, calendar: seq<Date>)
    requires s <= t
    ensures TradingDate(s, calendar) > TradingDate(t, calendar) <==>
              && Night(s) && !Night(t) && Day(s) < Day(t)
              && (exists c :: c in calendar && c > Day(t))
              && (forall c :: c in calendar ==> !(Day(s) < c <= Day(t)))
  {
    DayMonotone(s, t);
    if Night(s) {
      if Day(s) == Day(t) {
        SameDayNight(s, t);
      }
      var n := NextAfter(calendar, Day(s));
      if n.Some? && n.value > Day(t) {
        assert n.value in calendar;
      }
    }
  }

  lemma {:induction false} SameDayNight(s: Time, t: Time)
    requires s <= t && Day(s) == Day(t) && Night(s)
    ensures Night(t)
  {
  }

  /** Trading dates along time never decrease iff no day-session bar falls on a non-trading day between
      an earlier night bar and that night bar's next trading day. */
  lemma {:induction false} TradingDatesOrderedIff(times: seq<Time>, calendar: seq<Date>)
    requires forall i, j | 0 <= i < j < |times| :: times[i] <= times[j]
    ensures NonDecreasing(times, calendar) <==> !exists i, j :: HolidayAfterNight(times, calendar, i, j)
  {
    forall i, j | 0 <= i < j < |times|
      ensures TradingDate(times[i], calendar) > TradingDate(times[j], calendar) <==> HolidayAfterNight(times, calendar, i, j)
    {
      OrderedPair(times[i], times[j], calendar);
    }
  }

  /** When every bar falls on a calendar day, trading dates never decrease. */
  lemma {:induction false} TradingDatesOrderedOnCalendar(times: seq<Time>, calendar: seq<Date>)
    requires forall i, j | 0 <= i < j < |times| :: times[i] <= times[j]
    requires forall i | 0 <= i < |times| :: Day(times[i]) in calendar
    ensures NonDecreasing(times, calendar)
  {
    TradingDatesOrderedIff(times, calendar);
    forall i, j ensures !HolidayAfterNight(times, calendar, i, j) {
      if 0 <= j < |times| {
        assert Day(times[j]) in calendar;
      }
    }
  }

  const FRIDAY_NIGHT: Time := 4 * DAY + 1260 * MINUTE
  const SUNDAY_MORNING: Time := 6 * DAY + 600 * MINUTE

  /** A night bar of Friday belongs to Monday, the next calendar date; a day bar on the Sunday in between keeps
      its own date, and so precedes it. */
  lemma {:induction false} HolidayBarIsOutOfOrder()
    ensures HolidayAfterNight([FRIDAY_NIGHT, SUNDAY_MORNING], [4, 7], 0, 1)
    ensures TradingDate(FRIDAY_NIGHT, [4, 7]) == 7 && TradingDate(SUNDAY_MORNING, [4, 7]) == 6
    ensures !NonDecreasing([FRIDAY_NIGHT, SUNDAY_MORNING], [4, 7])
  {
    assert Day(FRIDAY_NIGHT) == 4 && Night(FRIDAY_NIGHT);
    assert Day(SUNDAY_MORNING) == 6 && !Night(SUNDAY_MORNING);
    assert [4, 7][1] == 7;
    TradingDateBounds(FRIDAY_NIGHT, [4, 7]);
    var times := [FRIDAY_NIGHT, SUNDAY_MORNING];
    assert times[0] == FRIDAY_NIGHT && times[1] == SUNDAY_MORNING;
    assert TradingDate(times[0], [4, 7]) > TradingDate(times[1], [4, 7]);
  }

  /** The night session begins at eight in the evening. */
  lemma {:induction false} NightIff(t: Time)
    ensures Night(t) <==> t - Day(t) * 86_400_000_000 >= 72_000_000_000
  {
  }

  /** So a bar before that keeps its own date; from then on it gets the next calendar date, or the next day. */
  lemma {:induction false} TradingDateByClock(t: Time, calendar: seq<Date>, d: Date)
    ensures t - Day(t) * 86_400_000_000 < 72_000_000_000 ==> TradingDate(t, calendar) == Day(t)
    ensures t - Day(t) * 86_400_000_000 >= 72_000_000_000 && (forall c :: c in calendar ==> c <= Day(t)) ==>
              TradingDate(t, calendar) == Day(t) + 1
    ensures t - Day(t) * 86_400_000_000 >= 72_000_000_000 && d in calendar && d > Day(t) && (forall c :: c in calendar && c > Day(t) ==> d <= c) ==>
              TradingDate(t, calendar) == d
  {
    NightIff(t);
    var next := NextAfter(calendar, Day(t));
    if next.Some? {
      assert next.value in calendar && next.value > Day(t);
    }
  }
}
