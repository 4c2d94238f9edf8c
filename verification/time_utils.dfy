/** Clock values and the `HH:MM` helpers of `utils/time.rs`: instants,
    local date-times, chrono's `%H:%M` formatting and parsing, and
    `minutes_until`. */
module TimeUtils {
  import opened Wrappers
  import opened Calendar
  import opened Text

  /** A UTC instant, in whole minutes since the Unix epoch. */
  type Instant = int

  /** A local wall-clock reading truncated to the minute. */
  datatype LocalDateTime = LocalDateTime(date: Date, hour: int, minute: int)

  predicate ValidLocal(t: LocalDateTime) {
    Representable(t.date) && 0 <= t.hour < 24 && 0 <= t.minute < 60
  }

  /** The machine's time zone: the local reading of a UTC instant
      (chrono's `with_timezone(&Local)`). */
  type Zone = Instant -> LocalDateTime

  const MinutesPerDay: int := 24 * 60

  /** A time of day as chrono's `NaiveTime` holds it after `%H:%M` parsing. */
  datatype TimeOfDay = TimeOfDay(hour: int, minute: int) {
    predicate Valid() {
      0 <= hour < 24 && 0 <= minute < 60
    }

    /** `num_seconds_from_midnight() / 60`. */
    function MinuteOfDay(): (n: int)
      requires Valid()
      ensures 0 <= n < MinutesPerDay
    {
      hour * 60 + minute
    }
  }

  predicate IsDigit(c: char) {
    '0' <= c <= '9'
  }

  function DigitValue(c: char): (n: int)
    requires IsDigit(c)
    ensures 0 <= n < 10
  {
    c as int - '0' as int
  }

  /** Two-digit zero-padded rendering of `0 <= n < 100`. */
  function Pad2(n: int): (s: string)
    requires 0 <= n < 100
    ensures |s| == 2 && IsDigit(s[0]) && IsDigit(s[1])
    ensures 10 * DigitValue(s[0]) + DigitValue(s[1]) == n
  {
    [DigitChar(n / 10), DigitChar(n % 10)]
  }

  /** chrono's `format("%H:%M")` of a local time. */
  function FormatHHMM(hour: int, minute: int): (s: string)
    requires 0 <= hour < 24 && 0 <= minute < 60
    ensures |s| == 5 && s[2] == ':'
  {
    Pad2(hour) + ":" + Pad2(minute)
  }

  /** chrono's `scan::number(s, 1, 2)`: one or two leading ASCII digits
      (greedy) and the unread rest. */
  function ScanNumber(s: string): (r: Option<(int, string)>)
    ensures r.Some? ==> 0 <= r.value.0 < 100 && |r.value.1| < |s|
    ensures r.Some? <==> |s| > 0 && IsDigit(s[0])
    ensures r.Some? ==> 1 <= |s| - |r.value.1| <= 2 && r.value.1 == s[|s| - |r.value.1|..]
  {
    if |s| == 0 || !IsDigit(s[0]) then None
    else if |s| >= 2 && IsDigit(s[1]) then Some((10 * DigitValue(s[0]) + DigitValue(s[1]), s[2..]))
    else Some((DigitValue(s[0]), s[1..]))
  }

  /** The field read is greedy, two digits whenever two are there, and its
      value is the number the consumed digits denote. */
  lemma ScanNumberReads(s: string)
    requires ScanNumber(s).Some?
    ensures var (v, rest) := ScanNumber(s).value; var n := |s| - |rest|;
      && (forall k :: 0 <= k < n ==> '0' <= s[k] <= '9')
      && v == DecimalValue(s[..n])
      && (n == 1 <==> |s| == 1 || !IsDigit(s[1]))
  {
    assert s[..1][..0] == [];
    assert DecimalValue(s[..1]) == DigitValue(s[0]);
    if |s| >= 2 && IsDigit(s[1]) {
      assert s[..2][..1] == s[..1];
      assert DecimalValue(s[..2]) == DecimalValue(s[..1]) * 10 + DigitValue(s[1]);
    }
  }

  /** `parse_time`: `NaiveTime::parse_from_str(s, "%H:%M").ok()`. Each field
      takes one or two digits, the hour must be at most 23 and the minute at
      most 59, and nothing may follow the minute. */
  function ParseTime(s: string): (r: Option<TimeOfDay>)
    ensures r.Some? ==> r.value.Valid()
    ensures r.Some? ==> 3 <= |s| <= 5 && (s[1] == ':' || s[2] == ':')
  {
    match ScanNumber(s)
    case None => None
    case Some((h, rest)) =>
      if h > 23 || |rest| == 0 || rest[0] != ':' then None
      else
        match ScanNumber(rest[1..])
        case None => None
        case Some((m, tail)) =>
          if m > 59 || |tail| != 0 then None else Some(TimeOfDay(h, m))
  }

  /** Every `HH:MM` the scheduler formats parses back to the same time. */
  lemma ParseFormatRoundTrip(t: TimeOfDay)
    requires t.Valid()
    ensures ParseTime(FormatHHMM(t.hour, t.minute)) == Some(t)
  {
    var s := FormatHHMM(t.hour, t.minute);
    assert s[..2] == Pad2(t.hour);
    assert s[3..] == Pad2(t.minute);
    assert ScanNumber(s) == Some((t.hour, s[2..]));
    assert s[2..][1..] == s[3..];
  }

  /** Distinct times of day format to distinct strings. */
  lemma FormatInjective(a: TimeOfDay, b: TimeOfDay)
    requires a.Valid() && b.Valid()
    requires FormatHHMM(a.hour, a.minute) == FormatHHMM(b.hour, b.minute)
    ensures a == b
  {
    ParseFormatRoundTrip(a);
    ParseFormatRoundTrip(b);
  }

  /** The parser also takes unpadded fields and rejects out-of-range ones. */
  lemma ParseTimeExamples()
    ensures ParseTime("9:05") == Some(TimeOfDay(9, 5))
    ensures ParseTime("23:59") == Some(TimeOfDay(23, 59))
    ensures ParseTime("24:00").None?
    ensures ParseTime("12:60").None?
    ensures ParseTime("12:345").None?
    ensures ParseTime("").None?
  {
    assert ScanNumber("9:05") == Some((9, ":05"));
    assert ":05"[1..] == "05";
    assert ScanNumber("05") == Some((5, ""));
    assert ScanNumber("23:59") == Some((23, ":59"));
    assert ":59"[1..] == "59";
    assert ScanNumber("59") == Some((59, ""));
    assert ScanNumber("24:00") == Some((24, ":00"));
    assert ScanNumber("12:60") == Some((12, ":60"));
    assert ":60"[1..] == "60";
    assert ScanNumber("60") == Some((60, ""));
    assert ScanNumber("12:345") == Some((12, ":345"));
    assert ":345"[1..] == "345";
    assert ScanNumber("345") == Some((34, "5"));
  }

  /** `minutes_until(s)` with the local minute of the day passed in: the
      minutes from now to the next occurrence of `s`, a whole day when `s`
      is the current minute. */
  function MinutesUntil(s: string, nowMinute: int): (r: Option<int>)
    requires 0 <= nowMinute < MinutesPerDay
    ensures r.None? <==> ParseTime(s).None?
    ensures r.Some? ==> 1 <= r.value <= MinutesPerDay
    ensures r.Some? ==> (nowMinute + r.value) % MinutesPerDay == ParseTime(s).value.MinuteOfDay()
    ensures r.Some? && ParseTime(s).value.MinuteOfDay() == nowMinute ==> r.value == MinutesPerDay
    ensures r.Some? && ParseTime(s).value.MinuteOfDay() > nowMinute ==>
              r.value == ParseTime(s).value.MinuteOfDay() - nowMinute
  {
    match ParseTime(s)
    case None => None
    case Some(target) => Some(MinutesAhead(target.MinuteOfDay(), nowMinute))
  }

  /** The arithmetic of `minutes_until`: the difference to the target
      minute, plus a day when it is not positive. */
  function MinutesAhead(target: int, nowMinute: int): (d: int)
    requires 0 <= target < MinutesPerDay && 0 <= nowMinute < MinutesPerDay
    ensures 1 <= d <= MinutesPerDay
    ensures (nowMinute + d) % MinutesPerDay == target
    ensures target == nowMinute ==> d == MinutesPerDay
    ensures target > nowMinute ==> d == target - nowMinute
  {
    var diff := target - nowMinute;
    if diff > 0 then diff else diff + MinutesPerDay
  }
}
