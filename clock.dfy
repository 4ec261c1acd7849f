/**
 * The few `java.util.Calendar` steps the dashboards take, on local
 * wall-clock milliseconds: a time zone with a fixed offset and no
 * daylight-saving shifts, so every day is 86 400 000 ms long and day 0
 * starts at 0.
 */
module Clock {

  const SecondMs := 1000
  const MinuteMs := 60000
  const HourMs := 3600000
  const DayMs := 86400000

  /** The day a timestamp falls on (floor division, so also before day 0). */
  function DayOf(t: int): int { t / DayMs }

  function HourOfDay(t: int): int { (t % DayMs) / HourMs }

  function MinuteOfHour(t: int): int { (t % HourMs) / MinuteMs }

  function SecondOfMinute(t: int): int { (t % MinuteMs) / SecondMs }

  function MilliOfSecond(t: int): int { t % SecondMs }

  /** Division by one of the clock's units has one quotient and one remainder. */
  lemma Split(m: int, q: int, rem: int, t: int)
    requires m in {SecondMs, MinuteMs, HourMs, DayMs}
    requires 0 <= rem < m && t == q * m + rem
    ensures t / m == q && t % m == rem
  {
  }

  /** The instant with the given calendar fields. */
  function Compose(d: int, h: int, mi: int, s: int, ms: int): (t: int)
    requires 0 <= h < 24 && 0 <= mi < 60 && 0 <= s < 60 && 0 <= ms < 1000
    ensures DayOf(t) == d && HourOfDay(t) == h && MinuteOfHour(t) == mi
    ensures SecondOfMinute(t) == s && MilliOfSecond(t) == ms
  {
    var inSecond := ms;
    var inMinute := s * SecondMs + inSecond;
    var inHour := mi * MinuteMs + inMinute;
    var inDay := h * HourMs + inHour;
    var t := d * DayMs + inDay;
    Split(DayMs, d, inDay, t);
    Split(HourMs, h, inHour, inDay);
    Split(HourMs, d * 24 + h, inHour, t);
    Split(MinuteMs, mi, inMinute, inHour);
    Split(MinuteMs, d * 1440 + h * 60 + mi, inMinute, t);
    Split(SecondMs, s, inSecond, inMinute);
    Split(SecondMs, d * 86400 + h * 3600 + mi * 60 + s, inSecond, t);
    t
  }

  /** Every instant is the composition of its own calendar fields. */
  lemma Decompose(t: int)
    ensures 0 <= HourOfDay(t) < 24 && 0 <= MinuteOfHour(t) < 60 && 0 <= SecondOfMinute(t) < 60 && 0 <= MilliOfSecond(t) < 1000
    ensures t == Compose(DayOf(t), HourOfDay(t), MinuteOfHour(t), SecondOfMinute(t), MilliOfSecond(t))
  {
    var inDay := t % DayMs;
    Split(HourMs, DayOf(t) * 24 + HourOfDay(t), inDay % HourMs, t);
    var inHour := t % HourMs;
    Split(MinuteMs, (DayOf(t) * 24 + HourOfDay(t)) * 60 + MinuteOfHour(t), inHour % MinuteMs, t);
    var inMinute := t % MinuteMs;
    Split(SecondMs, ((DayOf(t) * 24 + HourOfDay(t)) * 60 + MinuteOfHour(t)) * 60 + SecondOfMinute(t), inMinute % SecondMs, t);
  }

  /** Two instants with the same calendar fields are the same instant. */
  lemma SameFields(a: int, b: int)
    requires DayOf(a) == DayOf(b) && HourOfDay(a) == HourOfDay(b) && MinuteOfHour(a) == MinuteOfHour(b)
    requires SecondOfMinute(a) == SecondOfMinute(b) && MilliOfSecond(a) == MilliOfSecond(b)
    ensures a == b
  {
    Decompose(a);
    Decompose(b);
  }

  /** `set(HOUR_OF_DAY, h)`: the hour changes; the day, minute, second and millisecond stay. */
  function SetHourOfDay(t: int, h: int): (r: int)
    requires 0 <= h < 24
    ensures HourOfDay(r) == h && DayOf(r) == DayOf(t)
    ensures MinuteOfHour(r) == MinuteOfHour(t) && SecondOfMinute(r) == SecondOfMinute(t) && MilliOfSecond(r) == MilliOfSecond(t)
  {
    Decompose(t);
    Compose(DayOf(t), h, MinuteOfHour(t), SecondOfMinute(t), MilliOfSecond(t))
  }

  /** `set(MINUTE, m)`: the minute changes; the day, hour, second and millisecond stay. */
  function SetMinute(t: int, m: int): (r: int)
    requires 0 <= m < 60
    ensures MinuteOfHour(r) == m && DayOf(r) == DayOf(t) && HourOfDay(r) == HourOfDay(t)
    ensures SecondOfMinute(r) == SecondOfMinute(t) && MilliOfSecond(r) == MilliOfSecond(t)
  {
    Decompose(t);
    Compose(DayOf(t), HourOfDay(t), m, SecondOfMinute(t), MilliOfSecond(t))
  }

  /** `set(SECOND, s)`: the second changes; the day, hour, minute and millisecond stay. */
  function SetSecond(t: int, s: int): (r: int)
    requires 0 <= s < 60
    ensures SecondOfMinute(r) == s && DayOf(r) == DayOf(t) && HourOfDay(r) == HourOfDay(t)
    ensures MinuteOfHour(r) == MinuteOfHour(t) && MilliOfSecond(r) == MilliOfSecond(t)
  {
    Decompose(t);
    Compose(DayOf(t), HourOfDay(t), MinuteOfHour(t), s, MilliOfSecond(t))
  }

  /** `add(DAY_OF_YEAR, n)`: the same time of day, `n` days on. */
  function AddDays(t: int, n: int): (r: int)
    ensures DayOf(r) == DayOf(t) + n && HourOfDay(r) == HourOfDay(t) && MinuteOfHour(r) == MinuteOfHour(t)
    ensures SecondOfMinute(r) == SecondOfMinute(t) && MilliOfSecond(r) == MilliOfSecond(t)
  {
    Decompose(t);
    Compose(DayOf(t) + n, HourOfDay(t), MinuteOfHour(t), SecondOfMinute(t), MilliOfSecond(t))
  }

  /** Local midnight of the day `t` falls on: no instant of that day comes before it. */
  function StartOfDay(t: int): (r: int)
    ensures DayOf(r) == DayOf(t) && r <= t
    ensures forall x :: DayOf(x) == DayOf(t) ==> r <= x
  {
    var r := Compose(DayOf(t), 0, 0, 0, 0);
    assert forall x :: DayOf(x) == DayOf(t) ==> r <= x by {
      forall x | DayOf(x) == DayOf(t) ensures r <= x {
        Decompose(x);
      }
    }
    r
  }

  /** Local midnight is the day number times the length of a day. */
  lemma StartOfDayValue(t: int)
    ensures StartOfDay(t) == DayOf(t) * DayMs
  {
  }

  /** Every instant lies in the day `DayOf` names, and every instant of that day has that day number. */
  lemma DayRange(t: int)
    ensures DayOf(t) * DayMs <= t < DayOf(t) * DayMs + DayMs
  {
  }

  /** Instants from local midnight of one day up to the next midnight belong to that day. */
  lemma InDay(d: int, t: int)
    requires d * DayMs <= t < d * DayMs + DayMs
    ensures DayOf(t) == d
  {
    Split(DayMs, d, t - d * DayMs, t);
  }

  /** The instants from `startDate` to `endDate`, both included, that a stats query covers. */
  datatype Window = Window(startDate: int, endDate: int)

  predicate InRange(t: int, w: Window) {
    w.startDate <= t <= w.endDate
  }
}
