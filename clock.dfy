/**
 * Instants and durations as Go's `time` package computes with them, in
 * integer nanoseconds. Overflow and saturation of int64 durations are not
 * modelled.
 */
module Clock {

  const Second: int := 1_000_000_000
  const Hour: int := 3600 * Second
  const SecondsPerDay: int := 86400

  /**
   * A `time.Time`: nanoseconds since the Unix epoch, plus the fixed offset
   * (in seconds east of UTC) of the zone the text was parsed in. The offset
   * only affects calendar fields, never comparisons or differences.
   */
  datatype Time = Time(unixNanos: int, offset: int)

  /** `t.Sub(u)`: the Duration from u to t. */
  function Sub(t: Time, u: Time): int {
    t.unixNanos - u.unixNanos
  }

  /** `t.Add(d)`: keeps the zone. */
  function Add(t: Time, d: int): Time {
    Time(t.unixNanos + d, t.offset)
  }

  /** `t.Before(u)`: strictly earlier, whatever the zones. */
  predicate Before(t: Time, u: Time) {
    t.unixNanos < u.unixNanos
  }

  /**
   * `int(d / time.Hour)`: Go's integer division truncates toward zero,
   * unlike Dafny's Euclidean `/`, so negative durations round up.
   */
  function TruncHours(d: int): (q: int)
    ensures d >= 0 ==> 0 <= q && q * Hour <= d < q * Hour + Hour
    ensures d < 0 ==> q <= 0 && q * Hour - Hour < d <= q * Hour
  {
    if d >= 0 then d / Hour else -((-d) / Hour)
  }

  /** The number of hours the import loop runs: `int(end.Sub(start) / time.Hour) + 1`. */
  function HourCount(start: Time, end: Time): int {
    TruncHours(Sub(end, start)) + 1
  }

  /** The i-th hour visited: `start.Add(time.Duration(i) * time.Hour)`. */
  function HourAt(start: Time, i: nat): Time {
    Add(start, i * Hour)
  }

  /** The hours the loop visits, in order. */
  function Hours(start: Time, end: Time): (hs: seq<Time>)
    ensures |hs| == if HourCount(start, end) > 0 then HourCount(start, end) else 0
    ensures forall i :: 0 <= i < |hs| ==> hs[i] == HourAt(start, i)
  {
    var n := if HourCount(start, end) > 0 then HourCount(start, end) else 0;
    seq(n, i requires 0 <= i < n => HourAt(start, i))
  }

  /** A single date argument (end == start) processes exactly one hour. */
  lemma SingleHour(t: Time)
    ensures Hours(t, t) == [t]
  {
  }

  /**
   * When end is not before start, the hours visited are exactly the whole
   * hours after start that are not later than end.
   */
  lemma HoursCoverRange(start: Time, end: Time, i: nat)
    requires Sub(end, start) >= 0
    ensures i < |Hours(start, end)| <==> !Before(end, HourAt(start, i))
  {
  }

  /** An end at least one hour before the start visits no hour at all. */
  lemma BackwardRangeIsEmpty(start: Time, end: Time)
    requires Sub(end, start) <= -Hour
    ensures Hours(start, end) == []
  {
  }

  /**
   * An end less than an hour before the start still visits the start hour:
   * truncation makes the quotient 0, where floor division (Dafny's `/`
   * on a negative duration) would give -1 and no hour at all.
   */
  lemma SlightlyBackwardRangeVisitsStart(start: Time, end: Time)
    requires -Hour < Sub(end, start) < 0
    ensures Hours(start, end) == [start]
  {
  }

  /** The calendar fields of a time: year, month (1-12), day, hour of day. */
  datatype CivilHour = CivilHour(year: int, month: int, day: int, hour: int)

  /**
   * `date.Year()`, `date.Month()`, `date.Day()`, `date.Hour()` in the
   * time's own zone, on the proleptic Gregorian calendar (days to civil
   * date by Hinnant's era algorithm).
   */
  function Civil(t: Time): (c: CivilHour)
    ensures 0 <= c.hour < 24
    ensures 1 <= c.month <= 12
    ensures 1 <= c.day <= 31
  {
    var secs := LocalSeconds(t);
    var days := secs / SecondsPerDay;
    var hour := (secs % SecondsPerDay) / 3600;
    var (y, m, d) := CivilFromDays(days);
    CivilHour(y, m, d, hour)
  }

  /** Whole seconds since the epoch, shifted into the time's zone. */
  function LocalSeconds(t: Time): int {
    t.unixNanos / Second + t.offset
  }

  /** Year, month and day of the given day number (0 is 1970-01-01). */
  function CivilFromDays(days: int): (ymd: (int, int, int))
    ensures 1 <= ymd.1 <= 12
    ensures 1 <= ymd.2 <= 31
  {
    var z := days + 719468;
    var era := z / 146097;
    var doe := z - era * 146097;
    var yoe := (doe - doe / 1460 + doe / 36524 - doe / 146096) / 365;
    var doy := doe - (365 * yoe + yoe / 4 - yoe / 100);
    var mp := (5 * doy + 2) / 153;
    var d := doy - (153 * mp + 2) / 5 + 1;
    var m := if mp < 10 then mp + 3 else mp - 9;
    var y := yoe + era * 400;
    (if m <= 2 then y + 1 else y, m, d)
  }

  /** Adding an hour of seconds advances the hour of day by one, modulo 24. */
  lemma {:induction false} HourOfDayStep(secs: int)
    ensures ((secs + 3600) % SecondsPerDay) / 3600 == ((secs % SecondsPerDay) / 3600 + 1) % 24
  {
    var q, r := secs / SecondsPerDay, secs % SecondsPerDay;
    assert secs == q * SecondsPerDay + r && 0 <= r < SecondsPerDay;
    if r < SecondsPerDay - 3600 {
      assert secs + 3600 == q * SecondsPerDay + (r + 3600);
      assert (secs + 3600) % SecondsPerDay == r + 3600;
      assert (r + 3600) / 3600 == r / 3600 + 1;
    } else {
      assert secs + 3600 == (q + 1) * SecondsPerDay + (r + 3600 - SecondsPerDay);
      assert (secs + 3600) % SecondsPerDay == r + 3600 - SecondsPerDay;
      assert r / 3600 == 23;
    }
  }

  /** Each step of the import loop moves the hour of day on by one, modulo 24. */
  lemma NextHourOfDay(t: Time)
    ensures Civil(Add(t, Hour)).hour == (Civil(t).hour + 1) % 24
  {
    assert (t.unixNanos + Hour) / Second == t.unixNanos / Second + 3600;
    assert LocalSeconds(Add(t, Hour)) == LocalSeconds(t) + 3600;
    HourOfDayStep(LocalSeconds(t));
  }

  /** Day 15706 after the epoch is 2013-01-01, as on the Gregorian calendar. */
  lemma CivilExample()
    ensures CivilFromDays(0) == (1970, 1, 1)
    ensures CivilFromDays(15706) == (2013, 1, 1)
  {
    assert (0 + 719468) / 146097 == 4;
    assert 719468 - 4 * 146097 == 135080;
    assert 135080 / 1460 == 92 && 135080 / 36524 == 3 && 135080 / 146096 == 0;
    assert (135080 - 92 + 3) / 365 == 369;
    assert 369 / 4 == 92 && 369 / 100 == 3;
    assert 135080 - (365 * 369 + 92 - 3) == 306;
    assert 15706 + 719468 == 735174;
    assert 735174 / 146097 == 5;
    assert 735174 - 5 * 146097 == 4689;
    assert 4689 / 1460 == 3 && 4689 / 36524 == 0 && 4689 / 146096 == 0;
    assert (4689 - 3) / 365 == 12;
    assert 12 / 4 == 3 && 12 / 100 == 0;
    assert 4689 - (365 * 12 + 3) == 306;
    assert (5 * 306 + 2) / 153 == 10;
    assert (153 * 10 + 2) / 5 == 306;
  }
}
