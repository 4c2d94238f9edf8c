/** `get_next_reminder` of `services/settings_service.rs`: the reminder the
    tray shows as coming next, chosen by comparing `remind_time` texts with
    the current local `%H:%M`. */
module SettingsService {
  import opened Wrappers
  import opened Text
  import opened TimeUtils
  import opened ReminderModel
  import ReminderRepo

  /** The reminder's time text sorts strictly after `current`. */
  predicate Later(r: Reminder, current: string) {
    StrLt(current, r.remindTime)
  }

  /** `filter(..).min_by_key(..)` over the first `n` reminders: the index of
      the first one holding the least time among those later than
      `current`. The fold keeps the element it has on ties, as Rust's
      `min_by_key` does. */
  function EarliestLater(rs: seq<Reminder>, current: string, n: nat): (e: Option<nat>)
    requires n <= |rs|
    ensures e.None? <==> forall i :: 0 <= i < n ==> !Later(rs[i], current)
    ensures e.Some? ==> e.value < n && Later(rs[e.value], current)
    ensures e.Some? ==> forall i :: 0 <= i < n && Later(rs[i], current) ==> StrLe(rs[e.value].remindTime, rs[i].remindTime)
    ensures e.Some? ==> forall i :: 0 <= i < e.value && Later(rs[i], current) ==> StrLt(rs[e.value].remindTime, rs[i].remindTime)
    decreases n
  {
    if n == 0 then None
    else
      var e := EarliestLater(rs, current, n - 1);
      var r := rs[n - 1];
      StrLeReflexive(r.remindTime);
      if !Later(r, current) then e
      else if e.None? then Some(n - 1)
      else
        var best := rs[e.value].remindTime;
        StrLtIsStrict(r.remindTime, best);
        StrLeTotal(r.remindTime, best);
        if StrLt(r.remindTime, best) then
          assert forall i :: 0 <= i < n - 1 && Later(rs[i], current) ==> StrLe(r.remindTime, rs[i].remindTime) by {
            forall i | 0 <= i < n - 1 && Later(rs[i], current)
              ensures StrLe(r.remindTime, rs[i].remindTime)
            {
              StrLeTransitive(r.remindTime, best, rs[i].remindTime);
            }
          }
          assert forall i :: 0 <= i < n - 1 && Later(rs[i], current) ==> StrLt(r.remindTime, rs[i].remindTime) by {
            forall i | 0 <= i < n - 1 && Later(rs[i], current)
              ensures StrLt(r.remindTime, rs[i].remindTime)
            {
              if StrLe(rs[i].remindTime, r.remindTime) {
                StrLeTransitive(best, rs[i].remindTime, r.remindTime);
              }
            }
          }
          Some(n - 1)
        else
          e
  }

  /** `get_next_reminder` on the enabled reminders `rs` at local time text
      `current`: the earliest reminder later today, or else the first of the
      list. */
  function NextReminder(rs: seq<Reminder>, current: string): (next: Option<Reminder>)
    ensures next.None? <==> |rs| == 0
    ensures next.Some? ==> next.value in rs
    ensures (exists i :: 0 <= i < |rs| && Later(rs[i], current)) ==>
              && next.Some? && Later(next.value, current)
              && forall i :: 0 <= i < |rs| && Later(rs[i], current) ==> StrLe(next.value.remindTime, rs[i].remindTime)
    ensures (forall i :: 0 <= i < |rs| ==> !Later(rs[i], current)) && |rs| > 0 ==> next == Some(rs[0])
  {
    match EarliestLater(rs, current, |rs|)
    case Some(i) => Some(rs[i])
    case None => if |rs| == 0 then None else Some(rs[0])
  }

  /** A reminder whose time equals the current minute is never preferred:
      the filter is strict. */
  lemma {:induction false} CurrentMinuteSkipped(rs: seq<Reminder>, current: string, j: nat)
    requires j < |rs| && rs[j].remindTime == current
    ensures Later(rs[j], current) == false
  {
    StrLeReflexive(current);
  }

  /** On the time-ordered listing of `get_enabled_reminders`, the next
      reminder is the first one later than `current`. */
  lemma NextOnSortedListing(rs: seq<Reminder>, current: string, j: nat)
    requires forall a, b :: 0 <= a < b < |rs| ==> StrLe(rs[a].remindTime, rs[b].remindTime)
    requires j < |rs| && Later(rs[j], current)
    requires forall i :: 0 <= i < j ==> !Later(rs[i], current)
    ensures NextReminder(rs, current) == Some(rs[j])
  {
    var k := EarliestLater(rs, current, |rs|).value;
    assert k >= j;
    assert forall i :: j < i < |rs| ==> StrLe(rs[j].remindTime, rs[i].remindTime);
  }

  /** With nothing left later today, the first of the time-ordered listing
      is shown: the earliest time, which comes round tomorrow. */
  lemma NextWrapsAround(rs: seq<Reminder>, current: string)
    requires |rs| > 0
    requires forall a, b :: 0 <= a < b < |rs| ==> StrLe(rs[a].remindTime, rs[b].remindTime)
    requires forall i :: 0 <= i < |rs| ==> !Later(rs[i], current)
    ensures NextReminder(rs, current).Some?
    ensures forall i :: 0 <= i < |rs| ==> StrLe(NextReminder(rs, current).value.remindTime, rs[i].remindTime)
  {
    forall i | 0 <= i < |rs|
      ensures StrLe(rs[0].remindTime, rs[i].remindTime)
    {
      if i == 0 {
        StrLeReflexive(rs[0].remindTime);
      }
    }
  }

  /** A reminder `get_enabled_reminders` lists: stored, live and enabled. */
  predicate Listed(store: ReminderRepo.Store, k: Uuid) {
    k in store && ReminderRepo.Live(store[k]) && store[k].isEnabled
  }

  /** `get_next_reminder` at local time `now`: list the live enabled
      reminders in time order and pick the next one. When some listed
      reminder is later than the current minute the result is the earliest
      of those; otherwise it is the earliest of all, which comes round
      tomorrow. */
  method GetNextReminder(store: ReminderRepo.Store, now: LocalDateTime) returns (next: Option<Reminder>)
    requires ReminderRepo.WellKeyed(store) && ValidLocal(now)
    ensures next.None? <==> forall k :: k in store ==> !Listed(store, k)
    ensures next.Some? ==> var r := next.value;
      r.uuid in store && store[r.uuid] == r && Listed(store, r.uuid)
    ensures (exists k :: Listed(store, k) && Later(store[k], FormatHHMM(now.hour, now.minute))) ==>
              && next.Some? && Later(next.value, FormatHHMM(now.hour, now.minute))
              && forall k :: Listed(store, k) && Later(store[k], FormatHHMM(now.hour, now.minute)) ==>
                   StrLe(next.value.remindTime, store[k].remindTime)
    ensures next.Some? && (forall k :: Listed(store, k) ==> !Later(store[k], FormatHHMM(now.hour, now.minute))) ==>
              forall k :: Listed(store, k) ==> StrLe(next.value.remindTime, store[k].remindTime)
  {
    var rs := ReminderRepo.GetEnabledReminders(store);
    var current := FormatHHMM(now.hour, now.minute);
    next := NextReminder(rs, current);
    assert forall k :: Listed(store, k) ==> k in ReminderRepo.UuidsOf(rs);
    if next.None? {
      assert ReminderRepo.UuidsOf(rs) == {};
    } else if exists i :: 0 <= i < |rs| && Later(rs[i], current) {
      assert Listed(store, rs[0].uuid);
      forall k | Listed(store, k) && Later(store[k], current)
        ensures StrLe(next.value.remindTime, store[k].remindTime)
      {
        assert k in ReminderRepo.UuidsOf(rs);
        var i :| 0 <= i < |rs| && rs[i].uuid == k;
      }
    } else {
      assert Listed(store, rs[0].uuid);
      NextWrapsAround(rs, current);
      forall k | Listed(store, k)
        ensures StrLe(next.value.remindTime, store[k].remindTime)
      {
        assert k in ReminderRepo.UuidsOf(rs);
        var i :| 0 <= i < |rs| && rs[i].uuid == k;
      }
    }
  }
}
