/** The recurrence rule of `check_reminders` in `scheduler/manager.rs`:
    whether a stored reminder fires on the regular path at a given local
    minute. */
module DueCheck {
  import opened Wrappers
  import opened Calendar
  import opened TimeUtils
  import opened ReminderModel
  import ReminderRepo

  /** The reminder's last firing fell on local date `today` (the source
      compares the two dates formatted `%Y-%m-%d`). */
  predicate TriggeredOn(r: Reminder, zone: Zone, today: Date) {
    r.lastTriggeredAt.Some? && zone(r.lastTriggeredAt.value).date == today
  }

  /** The monthly rule: today's day is configured, or today is the last
      day of the month and some configured day lies beyond it. */
  predicate MonthlyDue(days: seq<u8>, today: Date)
    requires ValidDate(today)
  {
    var last := LastDayOfMonth(today.year, today.month);
    today.day in days || (today.day == last && exists i :: 0 <= i < |days| && days[i] > last)
  }

  /** The rule of each reminder type, once the time and the once-a-day
      guard have passed. */
  predicate TypeRule(r: Reminder, today: Date)
    requires ValidDate(today)
  {
    match r.remindType
    case Daily => true
    case Once => r.lastTriggeredAt.None?
    case Weekday => r.weekdays.Some? && IsoWeekday(today) in r.weekdays.value
    case Monthly => r.monthdays.Some? && MonthlyDue(r.monthdays.value, today)
  }

  /** The reminder fires on the regular path at local time `now`: its
      `remind_time` text equals now's `%H:%M`, it has not fired earlier on
      the same local date, and its type's rule holds. */
  predicate IsDue(r: Reminder, now: LocalDateTime, zone: Zone)
    requires ValidLocal(now)
  {
    && r.remindTime == FormatHHMM(now.hour, now.minute)
    && !TriggeredOn(r, zone, now.date)
    && TypeRule(r, now.date)
  }

  /** The stamp `update_triggered_at` puts on a regular firing. */
  function Stamp(r: Reminder, now: Instant): (r': Reminder)
    ensures r'.lastTriggeredAt == Some(now)
  {
    r.(lastTriggeredAt := Some(now), updatedAt := now)
  }

  // ---------------------------------------------------------------------
  // Properties of the rule

  /** A due reminder's time parses to the current minute, and the next
      occurrence `minutes_until` reports is a whole day away. */
  lemma DueAtItsTime(r: Reminder, now: LocalDateTime, zone: Zone)
    requires ValidLocal(now) && IsDue(r, now, zone)
    ensures ParseTime(r.remindTime) == Some(TimeOfDay(now.hour, now.minute))
    ensures MinutesUntil(r.remindTime, now.hour * 60 + now.minute) == Some(MinutesPerDay)
  {
    ParseFormatRoundTrip(TimeOfDay(now.hour, now.minute));
  }

  /** The comparison is on text: a time stored without zero padding, such
      as "9:05", parses but never fires. */
  lemma UnpaddedTimeNeverDue(r: Reminder, now: LocalDateTime, zone: Zone)
    requires ValidLocal(now) && |r.remindTime| != 5
    ensures !IsDue(r, now, zone)
  {
  }

  lemma UnpaddedExample()
    ensures ParseTime("9:05") == Some(TimeOfDay(9, 5))
    ensures forall r: Reminder, now: LocalDateTime, zone: Zone ::
              r.remindTime == "9:05" && ValidLocal(now) ==> !IsDue(r, now, zone)
  {
    ParseTimeExamples();
  }

  /** Once stamped at `t`, a reminder is not due again at any minute of the
      local date of `t`. */
  lemma StampClosesDay(r: Reminder, zone: Zone, t: Instant, later: LocalDateTime)
    requires ValidLocal(later) && later.date == zone(t).date
    ensures !IsDue(Stamp(r, t), later, zone)
  {
  }

  /** The monthly rule clamps: a configured day `d` fires on day
      `min(d, days in month)`. */
  lemma {:induction false} MonthlyDueClamped(days: seq<u8>, today: Date)
    requires Representable(today) && today.year < MaxYear
    ensures MonthlyDue(days, today) <==>
              exists i :: 0 <= i < |days| && today.day == Min(days[i], DaysInMonth(today.year, today.month))
  {
    var last := LastDayOfMonth(today.year, today.month);
    assert last == DaysInMonth(today.year, today.month);
    if MonthlyDue(days, today) {
      if today.day in days {
        var i :| 0 <= i < |days| && days[i] == today.day;
        assert today.day == Min(days[i], last);
      } else {
        var i :| 0 <= i < |days| && days[i] > last;
        assert today.day == Min(days[i], last);
      }
    }
    if exists i :: 0 <= i < |days| && today.day == Min(days[i], last) {
      var i :| 0 <= i < |days| && today.day == Min(days[i], last);
      if days[i] <= last {
        assert days[i] == today.day;
      }
    }
  }

  /** A single configured day fires on at most one day of each month. */
  lemma MonthlyOncePerMonth(d: u8, a: Date, b: Date)
    requires Representable(a) && Representable(b) && a.year < MaxYear
    requires a.year == b.year && a.month == b.month
    requires MonthlyDue([d], a) && MonthlyDue([d], b)
    ensures a == b
  {
    MonthlyDueClamped([d], a);
    MonthlyDueClamped([d], b);
  }

  /** A single configured day `d >= 1` fires in every month, on day
      `min(d, days in month)`; day 0, which the `u8` column admits, never
      fires. */
  lemma MonthlyFiresEachMonth(d: u8, a: Date)
    requires Representable(a) && a.year < MaxYear
    ensures 1 <= d ==> var t := a.(day := Min(d, DaysInMonth(a.year, a.month)));
              Representable(t) && MonthlyDue([d], t)
    ensures d == 0 ==> !MonthlyDue([d], a)
  {
    if 1 <= d {
      var t := a.(day := Min(d, DaysInMonth(a.year, a.month)));
      assert Representable(t);
      MonthlyDueClamped([d], t);
      assert [d][0] == d;
    } else {
      MonthlyDueClamped([d], a);
    }
  }

  /** Day 31 falls back to the last day of shorter months, and only to it. */
  lemma MonthlyExamples()
    ensures MonthlyDue([31], Date(2023, 4, 30))
    ensures !MonthlyDue([31], Date(2023, 4, 29))
    ensures MonthlyDue([31], Date(2023, 2, 28))
    ensures MonthlyDue([31], Date(2024, 2, 29))
    ensures !MonthlyDue([31], Date(2024, 2, 28))
    ensures MonthlyDue([31], Date(2024, 1, 31))
    ensures !MonthlyDue([30], Date(2024, 1, 31))
  {
    assert [31][0] == 31;
    assert !IsLeapYear(2023) && IsLeapYear(2024);
  }

  /** A Monday-to-Friday reminder passes its type rule exactly on ISO
      weekdays 1 to 5. */
  lemma WorkdaysRule(r: Reminder, d: Date, w: int)
    requires ValidDate(d) && IsoWeekday(d) == w
    requires r.remindType == Weekday && r.weekdays == Some([1, 2, 3, 4, 5])
    ensures TypeRule(r, d) <==> 1 <= w <= 5
  {
  }

  /** A missing day list never fires. */
  lemma MissingDaysNeverDue(r: Reminder, now: LocalDateTime, zone: Zone)
    requires ValidLocal(now)
    requires (r.remindType == Weekday && r.weekdays.None?) || (r.remindType == Monthly && r.monthdays.None?)
    ensures !IsDue(r, now, zone)
  {
  }

  /** Changing `remind_time` through `update` clears the once-a-day guard:
      a daily reminder is then due exactly when the new time comes round,
      and a once reminder becomes eligible again. */
  lemma UpdateTimeReopens(store: ReminderRepo.Store, req: UpdateRequest, t: Instant, now: LocalDateTime, zone: Zone)
    requires ReminderRepo.WellKeyed(store) && ValidLocal(now)
    requires req.remindTime.Some? && ReminderRepo.Update(store, req, t).Success?
    ensures var r := ReminderRepo.Update(store, req, t).value.1;
      && !TriggeredOn(r, zone, now.date)
      && (r.remindType == Daily ==> (IsDue(r, now, zone) <==> req.remindTime.value == FormatHHMM(now.hour, now.minute)))
      && (r.remindType == Once ==> (IsDue(r, now, zone) <==> req.remindTime.value == FormatHHMM(now.hour, now.minute)))
  {
  }
}
