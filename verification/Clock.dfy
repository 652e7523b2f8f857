/** Instants and calendar days. All datetimes of one computation carry the same fixed UTC offset,
    so an instant is its local count of microseconds and its date is a floor division. */
module Clock {

  type Time = int
  type Date = int

  const MINUTE: int := 60_000_000
  const DAY: int := 86_400_000_000

  function Day(t: Time): Date {
    t / DAY
  }

  /** `hour * 60 + minute` */
  function MinuteOfDay(t: Time): nat {
    (t % DAY) / MINUTE
  }

  function Hour(t: Time): nat {
    MinuteOfDay(t) / 60
  }

  lemma {:induction false} DayMonotone(s: Time, t: Time)
    requires s <= t
    ensures Day(s) <= Day(t)
  {
  }

  /** Days are counted in whole days and the minute of day in whole minutes since midnight. */
  lemma {:induction false} DayAndMinute(t: Time)
    ensures 0 <= MinuteOfDay(t) < 1440
    ensures 0 <= t - (Day(t) * 86_400_000_000 + MinuteOfDay(t) * 60_000_000) < 60_000_000
  {
  }
}
