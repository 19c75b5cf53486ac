/** Dates, times of day and the instants that `datetime.combine` builds from them.
    A date is an integer day number; a time of day is a whole number of minutes
    since midnight; an instant is the number of minutes since midnight of day 0. */
module Times {

  const MinutesPerDay: int := 1440

  /** A `datetime.time` at minute resolution. */
  type TimeOfDay = t: int | 0 <= t < 1440

  /** `time(h, m)` */
  function Clock(h: int, m: int): (t: TimeOfDay)
    requires 0 <= h < 24 && 0 <= m < 60
    ensures t / 60 == h && t % 60 == m
  {
    h * 60 + m
  }

  /** `datetime.combine(date, t)` */
  function Instant(date: int, t: int): int
  {
    date * MinutesPerDay + t
  }

  /** `.date()` of an instant */
  function DateOf(i: int): int
  {
    i / MinutesPerDay
  }

  /** `.time()` of an instant */
  function TimeOf(i: int): TimeOfDay
  {
    i % MinutesPerDay
  }

  /** An instant splits back into the date and the time it was combined from. */
  lemma InstantSplit(date: int, t: TimeOfDay)
    ensures DateOf(Instant(date, t)) == date
    ensures TimeOf(Instant(date, t)) == t
  {
    var i := Instant(date, t);
    DivModUnique(i, date, t);
  }

  /** Euclidean division by a day's length has one quotient and one remainder. */
  lemma DivModUnique(i: int, q: int, r: int)
    requires 0 <= r < MinutesPerDay
    requires i == q * MinutesPerDay + r
    ensures i / MinutesPerDay == q && i % MinutesPerDay == r
  {
    var q', r' := i / MinutesPerDay, i % MinutesPerDay;
    if q' != q {
      assert (q' - q) * MinutesPerDay == r - r';
    }
  }

  /** Comparing instants is comparing (date, time) pairs lexicographically, which is
      how the application orders and filters rows by `date` and then `start_time`.
      The second time may be the end of the day (1440), as a "now" rounded up can be. */
  lemma InstantLexicographic(d1: int, t1: TimeOfDay, d2: int, t2: int)
    requires 0 <= t2 <= MinutesPerDay
    ensures Instant(d1, t1) < Instant(d2, t2) <==> d1 < d2 || (d1 == d2 && t1 < t2)
    ensures t2 < MinutesPerDay ==> (Instant(d1, t1) == Instant(d2, t2) <==> d1 == d2 && t1 == t2)
  {
    if d1 < d2 {
      assert d1 * MinutesPerDay + MinutesPerDay <= d2 * MinutesPerDay;
    } else if d1 > d2 {
      assert d2 * MinutesPerDay + MinutesPerDay <= d1 * MinutesPerDay;
    }
  }
}
