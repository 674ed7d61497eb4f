/**
 * Reset instant of a quota message: src/runners/claude-cli-stream-parser.ts.
 * Instants and offsets are whole milliseconds; a zone is its offset function, wall clock
 * minus UTC, or None when the platform does not know the zone.
 */
module QuotaReset {
  import opened Wrappers

  const SECOND := 1_000
  const MINUTE := 60_000
  const HOUR := 3_600_000
  const DAY := 86_400_000

  type Zone = int -> int

  datatype Meridiem = AM | PM

  /** Drops the milliseconds of an instant. */
  function FloorSecond(t: int): (r: int)
    ensures r <= t < r + SECOND && r % SECOND == 0
  {
    t - t % SECOND
  }

  /** Midnight of the calendar day of an instant. */
  function FloorDay(t: int): (r: int)
    ensures r <= t < r + DAY && r % DAY == 0
  {
    t - t % DAY
  }

  /** `getTimeZoneOffsetMs`: the formatter shows whole seconds, so the instant's milliseconds are subtracted back in. */
  function OffsetMs(zone: Zone, instant: int): int {
    FloorSecond(instant + zone(instant)) - instant
  }

  /** The 12-hour clock of the message as an hour 0..23. */
  function Hour24(hour: int, meridiem: Meridiem): int {
    hour % 12 + if meridiem.PM? then 12 else 0
  }

  /** The reset candidate of the zoned calendar day containing `now`, before any roll-over. */
  function Candidate(zone: Zone, now: int, hour24: int, minute: int): int {
    var offsetAtNow := OffsetMs(zone, now);
    var wallAsUTC := FloorDay(now + offsetAtNow) + hour24 * HOUR + minute * MINUTE;
    wallAsUTC - OffsetMs(zone, wallAsUTC - offsetAtNow)
  }

  /** `parseQuotaLimitMessage` on the matched groups. */
  function ResetAt(zone: Option<Zone>, now: int, hour: int, minute: int, meridiem: Meridiem): Option<int> {
    if hour < 1 || hour > 12 || minute < 0 || minute > 59 then None
    else if zone.None? then None
    else
      var resetMs := Candidate(zone.value, now, Hour24(hour, meridiem), minute);
      Some(if resetMs <= now then resetMs + DAY else resetMs)
  }

  ghost predicate WholeSeconds(zone: Zone) {
    forall t :: zone(t) % SECOND == 0
  }

  /** Milliseconds since midnight on the zone's wall clock. */
  function WallClock(zone: Zone, t: int): (r: int)
    ensures 0 <= r < DAY
  {
    (t + zone(t)) % DAY
  }

  /** The instant at which the code asks for the offset a second time. */
  function SecondLookup(zone: Zone, now: int, hour24: int, minute: int): int {
    FloorDay(now + OffsetMs(zone, now)) + hour24 * HOUR + minute * MINUTE - OffsetMs(zone, now)
  }

  /** A multiple of the second and what is left of it. */
  lemma FloorSecondIs(k: int, slack: int)
    requires 0 <= slack < SECOND
    ensures FloorSecond(k * SECOND + slack) == k * SECOND
  {
  }

  lemma FloorSecondPlus(whole: int, slack: int)
    requires whole % SECOND == 0 && 0 <= slack < SECOND
    ensures FloorSecond(whole + slack) == whole
  {
    FloorSecondIs(whole / SECOND, slack);
  }

  lemma FloorDayIs(k: int, rest: int)
    requires 0 <= rest < DAY
    ensures FloorDay(k * DAY + rest) == k * DAY
  {
  }

  /** Dropping the milliseconds never crosses midnight. */
  lemma FloorDayOfWholeSecond(t: int, slack: int)
    requires slack == t % SECOND
    ensures FloorDay(t - slack) == FloorDay(t)
  {
    var k, q := t / DAY, t / SECOND;
    assert t == k * DAY + t % DAY && t == q * SECOND + slack;
    assert q >= k * 86_400;
    FloorDayIs(k, t - slack - k * DAY);
    FloorDayIs(k, t % DAY);
  }

  /** The first lookup: the offset less the milliseconds of `now`, and today's midnight. */
  lemma FirstLookup(zone: Zone, now: int)
    requires WholeSeconds(zone)
    ensures OffsetMs(zone, now) == zone(now) - now % SECOND
    ensures FloorDay(now + OffsetMs(zone, now)) == FloorDay(now + zone(now))
  {
    var slack := now % SECOND;
    WholePlusWhole(now - slack, zone(now));
    FloorSecondPlus(now - slack + zone(now), slack);
    SlackOfSum(now, zone(now));
    FloorDayOfWholeSecond(now + zone(now), slack);
  }

  lemma WholePlusWhole(a: int, b: int)
    requires a % SECOND == 0 && b % SECOND == 0
    ensures (a + b) % SECOND == 0
  {
  }

  lemma SlackOfSum(t: int, whole: int)
    requires whole % SECOND == 0
    ensures (t + whole) % SECOND == t % SECOND
  {
  }

  /** The second lookup, at an instant with the same milliseconds. */
  lemma NextLookup(zone: Zone, whole: int, slack: int)
    requires WholeSeconds(zone) && whole % SECOND == 0 && 0 <= slack < SECOND
    ensures OffsetMs(zone, whole + slack) == zone(whole + slack) - slack
  {
    WholePlusWhole(whole, zone(whole + slack));
    FloorSecondPlus(whole + zone(whole + slack), slack);
  }

  lemma DayAndTimeAreWhole(t: int, hour24: int, minute: int)
    ensures (FloorDay(t) + hour24 * HOUR + minute * MINUTE) % SECOND == 0
  {
    var k := t / DAY;
    assert FloorDay(t) == k * DAY;
    assert FloorDay(t) + hour24 * HOUR + minute * MINUTE == (k * 86_400 + hour24 * 3_600 + minute * 60) * SECOND;
    Multiple(k * 86_400 + hour24 * 3_600 + minute * 60);
  }

  lemma Multiple(n: int)
    ensures (n * SECOND) % SECOND == 0
  {
  }

  /**
   * What the arithmetic comes to: with `slack` the milliseconds of `now` and `d` the offset
   * change between the two lookups, the candidate is the stated wall time of today plus the
   * slack, moved back by the first offset and by `d`.
   */
  lemma CandidateValue(zone: Zone, now: int, hour24: int, minute: int)
    requires WholeSeconds(zone) && 0 <= hour24 <= 23 && 0 <= minute <= 59
    ensures var today := FloorDay(now + zone(now));
            var stated := hour24 * HOUR + minute * MINUTE;
            var slack := now % SECOND;
            var lookup := SecondLookup(zone, now, hour24, minute);
            && lookup == today + stated - zone(now) + slack
            && Candidate(zone, now, hour24, minute) == lookup - (zone(lookup) - zone(now))
  {
    var off, slack := zone(now), now % SECOND;
    var today, stated := FloorDay(now + off), hour24 * HOUR + minute * MINUTE;
    FirstLookup(zone, now);
    DayAndTimeAreWhole(now + off, hour24, minute);
    var whole := today + stated - off;
    WholeMinusWhole(today + stated, off);
    NextLookup(zone, whole, slack);
  }

  lemma WholeMinusWhole(a: int, b: int)
    requires a % SECOND == 0 && b % SECOND == 0
    ensures (a - b) % SECOND == 0
  {
  }

  /** The reset in closed form, whatever the zone does between the two lookups. */
  lemma ResetValue(zone: Zone, now: int, hour: int, minute: int, meridiem: Meridiem)
    requires WholeSeconds(zone) && 1 <= hour <= 12 && 0 <= minute <= 59
    ensures var lookup := SecondLookup(zone, now, Hour24(hour, meridiem), minute);
            var d := zone(lookup) - zone(now);
            && now - DAY < lookup < now + DAY
            && ResetAt(Some(zone), now, hour, minute, meridiem)
               == Some(if lookup - d <= now then lookup - d + DAY else lookup - d)
  {
    CandidateValue(zone, now, Hour24(hour, meridiem), minute);
  }

  /**
   * A zone with a fixed offset: the reset lies in (now, now + 24h] and its wall clock is the
   * stated time plus the milliseconds of `now`, always under a second.
   */
  lemma FixedOffsetReset(zone: Zone, now: int, hour: int, minute: int, meridiem: Meridiem)
    requires WholeSeconds(zone) && (forall s, t :: zone(s) == zone(t))
    requires 1 <= hour <= 12 && 0 <= minute <= 59
    ensures var r := ResetAt(Some(zone), now, hour, minute, meridiem);
            && r.Some?
            && now < r.value <= now + DAY
            && WallClock(zone, r.value) == Hour24(hour, meridiem) * HOUR + minute * MINUTE + now % SECOND
  {
    var hour24 := Hour24(hour, meridiem);
    CandidateValue(zone, now, hour24, minute);
    ResetValue(zone, now, hour, minute, meridiem);
    var r := ResetAt(Some(zone), now, hour, minute, meridiem).value;
    var stated := hour24 * HOUR + minute * MINUTE + now % SECOND;
    StatedWithinDay(hour24, minute, now % SECOND);
    assert zone(r) == zone(now);
    WallClockAfterMidnight(zone, r, FloorDay(now + zone(now)), stated);
  }

  lemma StatedWithinDay(hour24: int, minute: int, slack: int)
    requires 0 <= hour24 <= 23 && 0 <= minute <= 59 && 0 <= slack < SECOND
    ensures 0 <= hour24 * HOUR + minute * MINUTE + slack < DAY
  {
  }

  /** What the wall clock shows some time after a midnight, or after the next one. */
  lemma WallClockAfterMidnight(zone: Zone, t: int, midnight: int, time: int)
    requires midnight % DAY == 0 && 0 <= time < DAY
    requires t + zone(t) == midnight + time || t + zone(t) == midnight + DAY + time
    ensures WallClock(zone, t) == time
  {
    FloorDayIs(midnight / DAY, time);
    FloorDayIs(midnight / DAY + 1, time);
    assert WallClock(zone, t) == t + zone(t) - FloorDay(t + zone(t));
  }

  lemma ShowsIff(days: int, time: int, shift: int)
    requires 0 <= time < DAY
    ensures (days * DAY + time + shift) % DAY == time <==> shift % DAY == 0
  {
    var q, rest := shift / DAY, shift % DAY;
    assert shift == q * DAY + rest;
    if rest == 0 {
      WithinDay(days + q, time);
    } else if time + rest < DAY {
      WithinDay(days + q, time + rest);
    } else {
      WithinDay(days + q + 1, time + rest - DAY);
    }
    assert days * DAY + time + shift == (days + q) * DAY + time + rest;
  }

  lemma WithinDay(days: int, time: int)
    requires 0 <= time < DAY
    ensures (days * DAY + time) % DAY == time
  {
    FloorDayIs(days, time);
  }

  /**
   * Whatever the zone does, the reset can be in the past exactly when the candidate falls a full
   * day or more behind `now`, and then by less than the size of the change between the two
   * lookups; and the zone's clock shows the stated time at the reset exactly when the offset
   * there is the one of the second lookup, up to whole days.
   */
  lemma ChangedOffsetReset(zone: Zone, now: int, hour: int, minute: int, meridiem: Meridiem)
    requires WholeSeconds(zone) && 1 <= hour <= 12 && 0 <= minute <= 59
    ensures var lookup := SecondLookup(zone, now, Hour24(hour, meridiem), minute);
            var d := zone(lookup) - zone(now);
            var r := ResetAt(Some(zone), now, hour, minute, meridiem);
            && r.Some?
            && r.value > now - (if d < 0 then -d else d)
            && (r.value <= now <==> d >= lookup + DAY - now)
            && (WallClock(zone, r.value) == Hour24(hour, meridiem) * HOUR + minute * MINUTE + now % SECOND
                <==> (zone(r.value) - zone(lookup)) % DAY == 0)
  {
    var hour24 := Hour24(hour, meridiem);
    CandidateValue(zone, now, hour24, minute);
    ResetValue(zone, now, hour, minute, meridiem);
    var stated := hour24 * HOUR + minute * MINUTE + now % SECOND;
    var lookup := SecondLookup(zone, now, hour24, minute);
    var r := ResetAt(Some(zone), now, hour, minute, meridiem).value;
    var days, shift := (now + zone(now)) / DAY, zone(r) - zone(lookup);
    StatedWithinDay(hour24, minute, now % SECOND);
    assert FloorDay(now + zone(now)) == days * DAY;
    ShowsIff(days, stated, shift);
    ShowsIff(days + 1, stated, shift);
    assert r + zone(r) == days * DAY + stated + shift || r + zone(r) == (days + 1) * DAY + stated + shift;
  }

  /** On a day with a one-hour fall-back, "resets 12am" read just before midnight gives 11pm, already past. */
  lemma FallBackResetsInThePast()
    ensures var zone := (t: int) => if t < 2 * HOUR then HOUR else 0;
            ResetAt(Some(zone), DAY - 1, 12, 0, AM) == Some(DAY - HOUR + 999)
  {
    var zone := (t: int) => if t < 2 * HOUR then HOUR else 0;
    assert OffsetMs(zone, DAY - 1) == -999;
    assert OffsetMs(zone, 999) == HOUR - 999;
    assert Candidate(zone, DAY - 1, 0, 0) == -HOUR + 999;
  }

  /** 12am is midnight and 12pm noon; every hour of the day has exactly one 12-hour spelling. */
  lemma Hour24Bijective(h: int)
    requires 0 <= h <= 23
    ensures exists hour, m: Meridiem :: 1 <= hour <= 12 && Hour24(hour, m) == h
    ensures forall a, b, m: Meridiem, n: Meridiem ::
              1 <= a <= 12 && 1 <= b <= 12 && Hour24(a, m) == h && Hour24(b, n) == h ==> a == b && m == n
  {
    var m := if h < 12 then AM else PM;
    var hour := if h % 12 == 0 then 12 else h % 12;
    assert Hour24(hour, m) == h;
  }

  const MINUTES_PER_DAY := 1_440

  datatype ClockTime = ClockTime(hour: int, minute: int, meridiem: Meridiem)

  /** A 12-hour clock at the given minute of the day. */
  function ClockText(m: int): ClockTime
    requires 0 <= m < MINUTES_PER_DAY
  {
    var hour24 := m / 60;
    ClockTime(if hour24 % 12 == 0 then 12 else hour24 % 12, m % 60, if hour24 < 12 then AM else PM)
  }

  /** The minute of the day that a clock time means. */
  function MinuteOfDay(c: ClockTime): int { Hour24(c.hour, c.meridiem) * 60 + c.minute }

  lemma MinuteOfClockText(m: int)
    requires 0 <= m < MINUTES_PER_DAY
    ensures MinuteOfDay(ClockText(m)) == m
    ensures 1 <= ClockText(m).hour <= 12 && 0 <= ClockText(m).minute <= 59
  {
    var hour24 := m / 60;
    assert 0 <= hour24 <= 23 && m == hour24 * 60 + m % 60;
    assert Hour24(ClockText(m).hour, ClockText(m).meridiem) == hour24;
  }

  lemma ClockTextOfMinute(c: ClockTime)
    requires 1 <= c.hour <= 12 && 0 <= c.minute <= 59
    ensures 0 <= MinuteOfDay(c) < MINUTES_PER_DAY && ClockText(MinuteOfDay(c)) == c
  {
    var hour24 := Hour24(c.hour, c.meridiem);
    assert MinuteOfDay(c) / 60 == hour24 && MinuteOfDay(c) % 60 == c.minute;
  }

  /** No reset is reported exactly when the zone is unknown or no minute of the day is shown as the stated time. */
  lemma NoResetIff(zone: Option<Zone>, now: int, c: ClockTime)
    ensures ResetAt(zone, now, c.hour, c.minute, c.meridiem).None?
            <==> zone.None? || forall m :: 0 <= m < MINUTES_PER_DAY ==> ClockText(m) != c
  {
    if 1 <= c.hour <= 12 && 0 <= c.minute <= 59 { ClockTextOfMinute(c); }
    forall m | 0 <= m < MINUTES_PER_DAY && ClockText(m) == c ensures 1 <= c.hour <= 12 && 0 <= c.minute <= 59 {
      MinuteOfClockText(m);
    }
  }

  /** Stating any minute of the day in 12-hour time gives a reset at which the zone's clock shows that minute. */
  lemma ClockRoundTrip(zone: Zone, now: int, m: int)
    requires WholeSeconds(zone) && (forall s, t :: zone(s) == zone(t)) && 0 <= m < MINUTES_PER_DAY
    ensures var c := ClockText(m);
            var r := ResetAt(Some(zone), now, c.hour, c.minute, c.meridiem);
            r.Some? && WallClock(zone, r.value) / MINUTE == m
  {
    var c := ClockText(m);
    MinuteOfClockText(m);
    FixedOffsetReset(zone, now, c.hour, c.minute, c.meridiem);
    MinuteOfWallClock(Hour24(c.hour, c.meridiem), c.minute, now % SECOND);
  }

  lemma MinuteOfWallClock(hour24: int, minute: int, slack: int)
    requires 0 <= slack < SECOND
    ensures (hour24 * HOUR + minute * MINUTE + slack) / MINUTE == hour24 * 60 + minute
  {
    assert hour24 * HOUR + minute * MINUTE + slack == (hour24 * 60 + minute) * MINUTE + slack;
  }
}
