/** The occurrence lifecycle of `scheduler/manager.rs`: firing a reminder,
    the per-minute tick (regular check, then the snooze, loop and timeout
    queues) and the complete / snooze / dismiss commands, over one
    sequential state record. */
module Scheduler {
  import opened Wrappers
  import opened Text
  import opened Calendar
  import opened TimeUtils
  import opened ReminderModel
  import opened ReminderLogModel
  import opened WakeQueues
  import opened DueCheck
  import ReminderRepo
  import ReminderLogRepo

  /** What the engine does outside its own state: flash the tray, open the
      popup, attempt a push notification (title, body), or emit a frontend
      event about a reminder. */
  datatype Effect =
    | TrayFlash(uuid: Uuid)
    | ShowPopup(uuid: Uuid)
    | Notify(title: string, body: string)
    | Emit(event: string, uuid: Uuid)

  datatype Queues = Queues(snooze: Queue<SnoozeItem>, loops: Queue<LoopItem>, timeouts: Queue<TimeoutItem>)

  datatype World = World(store: ReminderRepo.Store, logs: ReminderLogRepo.LogStore, queues: Queues, effects: seq<Effect>)

  /** Queue entries sit under the uuid they name. */
  predicate QueuesKeyed(qs: Queues) {
    && (forall k :: k in qs.snooze ==> qs.snooze[k].reminderUuid == k)
    && (forall k :: k in qs.loops ==> qs.loops[k].reminderUuid == k)
  }

  predicate ValidWorld(w: World) {
    ReminderRepo.WellKeyed(w.store) && ReminderLogRepo.ValidLog(w.logs) && QueuesKeyed(w.queues)
  }

  /** Two queues hold the same entry (or none) under `k`. */
  predicate AgreeAt<T(==)>(a: Queue<T>, b: Queue<T>, k: Uuid) {
    (k in a <==> k in b) && (k in a ==> a[k] == b[k])
  }

  const RepeatNote: string := "重复提醒"
  const TimeoutEvent: string := "reminder-timeout"
  const CompletedEvent: string := "reminder-completed"
  const DismissedEvent: string := "reminder-dismissed"

  function TriggerTitle(r: Reminder): string { "提醒触发: " + r.title }

  function SnoozeNote(minutes: int): string { "延迟 " + IntToDecimal(minutes) + " 分钟" }

  /** The reminder uuids of a log, oldest record first. */
  function UuidsFrom(rs: seq<ReminderLog>): seq<Uuid> {
    if |rs| == 0 then [] else UuidsFrom(rs[..|rs| - 1]) + [rs[|rs| - 1].reminderUuid]
  }

  /** `after` is `before` with records appended. */
  predicate Extends(before: ReminderLogRepo.LogStore, after: ReminderLogRepo.LogStore) {
    |before.records| <= |after.records| && after.records[..|before.records|] == before.records
  }

  /** Every record appended after the first `n` is a `triggered` record for
      `now` carrying `note`. */
  predicate TriggeredTail(rs: seq<ReminderLog>, n: nat, now: Instant, note: Option<string>) {
    forall j :: n <= j < |rs| ==> rs[j].action == Triggered && rs[j].triggeredAt == now && rs[j].note == note
  }

  /** The timeout check armed by a firing, if any. */
  predicate ArmsTimeout(r: Reminder) {
    r.timeoutMinutes.Some? && r.timeoutMinutes.value > 0 && r.notifyOnTimeout
  }

  predicate ArmsLoop(r: Reminder) {
    r.isLoop && r.loopInterval.Some?
  }

  // ---------------------------------------------------------------------
  // Firing

  /** The note a firing logs: none on the regular path, a repeat marker on
      the queue paths. */
  function NoteFor(isRepeat: bool): Option<string> {
    if isRepeat then Some(RepeatNote) else None
  }

  /** The store after a firing: only a regular firing stamps the reminder. */
  function FireStore(store: ReminderRepo.Store, r: Reminder, isRepeat: bool, now: Instant): (store': ReminderRepo.Store)
    requires ReminderRepo.WellKeyed(store)
    ensures ReminderRepo.WellKeyed(store') && store'.Keys == store.Keys
    ensures isRepeat ==> store' == store
    ensures !isRepeat && r.uuid in store ==> store'[r.uuid] == Stamp(store[r.uuid], now)
    ensures forall k :: k in store && k != r.uuid ==> store'[k] == store[k]
  {
    if isRepeat then store else ReminderRepo.UpdateTriggeredAt(store, r.uuid, now)
  }

  /** The log after a firing: one `triggered` record appended. */
  function FireLogs(logs: ReminderLogRepo.LogStore, r: Reminder, isRepeat: bool, now: Instant): (logs': ReminderLogRepo.LogStore)
    requires ReminderLogRepo.ValidLog(logs)
    ensures ReminderLogRepo.ValidLog(logs') && Extends(logs, logs') && |logs'.records| == |logs.records| + 1
    ensures UuidsFrom(logs'.records) == UuidsFrom(logs.records) + [r.uuid]
    ensures TriggeredTail(logs'.records, |logs.records|, now, NoteFor(isRepeat))
  {
    var (logs', rec) := ReminderLogRepo.CreateTriggered(logs, r.uuid, NoteFor(isRepeat), now);
    assert logs'.records[..|logs'.records| - 1] == logs.records;
    logs'
  }

  /** The queues after a firing: a timeout check and a loop repetition are
      armed when the reminder asks for them; nothing else moves. */
  function FireQueues(qs: Queues, r: Reminder, now: Instant): (qs': Queues)
    requires QueuesKeyed(qs)
    ensures QueuesKeyed(qs') && qs'.snooze == qs.snooze
    ensures ArmsTimeout(r) ==> r.uuid in qs'.timeouts && qs'.timeouts[r.uuid] == TimeoutItem(now, r.timeoutMinutes.value)
    ensures !ArmsTimeout(r) ==> qs'.timeouts == qs.timeouts
    ensures ArmsLoop(r) ==> r.uuid in qs'.loops && qs'.loops[r.uuid] == LoopItem(r.uuid, now + r.loopInterval.value, now)
    ensures !ArmsLoop(r) ==> qs'.loops == qs.loops
    ensures forall k :: k != r.uuid ==> AgreeAt(qs'.loops, qs.loops, k) && AgreeAt(qs'.timeouts, qs.timeouts, k)
  {
    var timeouts := if ArmsTimeout(r) then AddTimeoutCheck(qs.timeouts, r.uuid, r.timeoutMinutes.value, now) else qs.timeouts;
    var loops := if ArmsLoop(r) then AddLoop(qs.loops, r.uuid, r.loopInterval.value, now, now) else qs.loops;
    Queues(qs.snooze, loops, timeouts)
  }

  /** The effects of a firing: tray flash, popup, and the push notification
      when asked. */
  function FireEffects(es: seq<Effect>, r: Reminder): (es': seq<Effect>)
    ensures |es| <= |es'| && es'[..|es|] == es
    ensures TrayFlash(r.uuid) in es'[|es|..] && ShowPopup(r.uuid) in es'[|es|..]
    ensures Notify(TriggerTitle(r), r.content) in es'[|es|..] <==> r.notifyOnTrigger
  {
    var added := [TrayFlash(r.uuid), ShowPopup(r.uuid)] + if r.notifyOnTrigger then [Notify(TriggerTitle(r), r.content)] else [];
    assert (es + added)[|es|..] == added;
    es + added
  }

  /** `trigger_reminder_internal`: flash the tray; on a regular firing stamp
      `last_triggered_at`; log a `triggered` record (noted as a repeat on
      the queue paths); open the popup; arm the timeout check when a
      positive timeout is set and timeout notification is on; arm the loop
      when looping with an interval; push a notification when asked. */
  function Fire(w: World, r: Reminder, isRepeat: bool, now: Instant): (w': World)
    requires ValidWorld(w)
    ensures ValidWorld(w') && w'.store.Keys == w.store.Keys
    ensures isRepeat ==> w'.store == w.store
    ensures !isRepeat && r.uuid in w.store ==> w'.store[r.uuid] == Stamp(w.store[r.uuid], now)
    ensures forall k :: k in w.store && k != r.uuid ==> w'.store[k] == w.store[k]
    ensures Extends(w.logs, w'.logs) && |w'.logs.records| == |w.logs.records| + 1
    ensures UuidsFrom(w'.logs.records) == UuidsFrom(w.logs.records) + [r.uuid]
    ensures TriggeredTail(w'.logs.records, |w.logs.records|, now, NoteFor(isRepeat))
    ensures w'.queues.snooze == w.queues.snooze
    ensures ArmsTimeout(r) ==> r.uuid in w'.queues.timeouts && w'.queues.timeouts[r.uuid] == TimeoutItem(now, r.timeoutMinutes.value)
    ensures !ArmsTimeout(r) ==> w'.queues.timeouts == w.queues.timeouts
    ensures ArmsLoop(r) ==> r.uuid in w'.queues.loops && w'.queues.loops[r.uuid] == LoopItem(r.uuid, now + r.loopInterval.value, now)
    ensures !ArmsLoop(r) ==> w'.queues.loops == w.queues.loops
    ensures forall k :: k != r.uuid ==> AgreeAt(w'.queues.loops, w.queues.loops, k) && AgreeAt(w'.queues.timeouts, w.queues.timeouts, k)
    ensures |w.effects| <= |w'.effects| && w'.effects[..|w.effects|] == w.effects
    ensures TrayFlash(r.uuid) in w'.effects[|w.effects|..] && ShowPopup(r.uuid) in w'.effects[|w.effects|..]
    ensures Notify(TriggerTitle(r), r.content) in w'.effects[|w.effects|..] <==> r.notifyOnTrigger
  {
    World(FireStore(w.store, r, isRepeat, now), FireLogs(w.logs, r, isRepeat, now),
          FireQueues(w.queues, r, now), FireEffects(w.effects, r))
  }

  // ---------------------------------------------------------------------
  // The regular check

  /** The uuid of `r` when it is due at `now`, else nothing. */
  function DueHead(r: Reminder, zone: Zone, now: Instant): seq<Uuid>
    requires ValidLocal(zone(now))
  {
    if IsDue(r, zone(now), zone) then [r.uuid] else []
  }

  /** The uuids of the reminders of `rs` that are due at `now`, in order. */
  function DueUuids(rs: seq<Reminder>, zone: Zone, now: Instant): (us: seq<Uuid>)
    requires ValidLocal(zone(now))
    ensures forall k :: k in us <==> exists i :: 0 <= i < |rs| && rs[i].uuid == k && IsDue(rs[i], zone(now), zone)
  {
    if |rs| == 0 then []
    else
      var rest := DueUuids(rs[1..], zone, now);
      assert forall k :: k in rest <==> exists i :: 1 <= i < |rs| && rs[i].uuid == k && IsDue(rs[i], zone(now), zone) by {
        forall k | k in rest
          ensures exists i :: 1 <= i < |rs| && rs[i].uuid == k && IsDue(rs[i], zone(now), zone)
        {
          var i :| 0 <= i < |rs[1..]| && rs[1..][i].uuid == k && IsDue(rs[1..][i], zone(now), zone);
          assert rs[i + 1] == rs[1..][i];
        }
        forall k | exists i :: 1 <= i < |rs| && rs[i].uuid == k && IsDue(rs[i], zone(now), zone)
          ensures k in rest
        {
          var i :| 1 <= i < |rs| && rs[i].uuid == k && IsDue(rs[i], zone(now), zone);
          assert rs[1..][i - 1] == rs[i];
        }
      }
      DueHead(rs[0], zone, now) + rest
  }

  predicate Distinct(us: seq<Uuid>) {
    forall i, j :: 0 <= i < j < |us| ==> us[i] != us[j]
  }

  /** A snapshot without repeated uuids yields no repeated due uuid. */
  lemma {:induction false} DueUuidsDistinct(rs: seq<Reminder>, zone: Zone, now: Instant)
    requires ValidLocal(zone(now))
    requires forall i, j :: 0 <= i < j < |rs| ==> rs[i].uuid != rs[j].uuid
    ensures Distinct(DueUuids(rs, zone, now))
    decreases |rs|
  {
    if |rs| > 0 {
      var rest := DueUuids(rs[1..], zone, now);
      assert forall i, j :: 0 <= i < j < |rs[1..]| ==> rs[1..][i].uuid != rs[1..][j].uuid by {
        forall i, j | 0 <= i < j < |rs[1..]|
          ensures rs[1..][i].uuid != rs[1..][j].uuid
        {
          assert rs[1..][i] == rs[i + 1] && rs[1..][j] == rs[j + 1];
        }
      }
      DueUuidsDistinct(rs[1..], zone, now);
      if IsDue(rs[0], zone(now), zone) {
        assert rs[0].uuid !in rest by {
          forall i | 0 <= i < |rs[1..]|
            ensures rs[1..][i].uuid != rs[0].uuid
          {
            assert rs[1..][i] == rs[i + 1];
          }
        }
        var us := DueUuids(rs, zone, now);
        assert us == [rs[0].uuid] + rest;
        assert Distinct(rest);
        forall i, j | 0 <= i < j < |us|
          ensures us[i] != us[j]
        {
          if i == 0 {
            assert us[j] == rest[j - 1] && rest[j - 1] in rest;
          } else {
            assert us[i] == rest[i - 1] && us[j] == rest[j - 1];
          }
        }
      } else {
        assert DueUuids(rs, zone, now) == rest;
      }
    }
  }

  /** The snapshot `rs` lists records of the store under distinct uuids. */
  predicate SnapshotOf(store: ReminderRepo.Store, rs: seq<Reminder>) {
    && (forall i :: 0 <= i < |rs| ==> rs[i].uuid in store && store[rs[i].uuid] == rs[i])
    && (forall i, j :: 0 <= i < j < |rs| ==> rs[i].uuid != rs[j].uuid)
  }

  /** `after` is `before` with exactly the reminders under `due` stamped
      at `now`. */
  predicate StampedExactly(before: ReminderRepo.Store, after: ReminderRepo.Store, due: seq<Uuid>, now: Instant) {
    && after.Keys == before.Keys
    && forall k :: k in before ==> after[k] == if k in due then Stamp(before[k], now) else before[k]
  }

  /** Stamping two disjoint groups one after the other stamps both. */
  lemma StampedCompose(a: ReminderRepo.Store, b: ReminderRepo.Store, c: ReminderRepo.Store,
                       head: seq<Uuid>, rest: seq<Uuid>, now: Instant)
    requires StampedExactly(a, b, head, now) && StampedExactly(b, c, rest, now)
    requires forall k :: k in head ==> k !in rest
    ensures StampedExactly(a, c, head + rest, now)
  {
  }

  /** One round of the loop of `check_reminders`: fire `r` on the regular
      path when it is due, else do nothing. */
  function DueStep(w: World, r: Reminder, zone: Zone, now: Instant): (w1: World)
    requires ValidWorld(w) && ValidLocal(zone(now))
    ensures ValidWorld(w1)
    ensures StampedExactly(w.store, w1.store, DueHead(r, zone, now), now)
    ensures Extends(w.logs, w1.logs) && TriggeredTail(w1.logs.records, |w.logs.records|, now, None)
    ensures UuidsFrom(w1.logs.records) == UuidsFrom(w.logs.records) + DueHead(r, zone, now)
    ensures w1.queues.snooze == w.queues.snooze
    ensures forall k :: k !in DueHead(r, zone, now) ==>
              AgreeAt(w1.queues.loops, w.queues.loops, k) && AgreeAt(w1.queues.timeouts, w.queues.timeouts, k)
  {
    if IsDue(r, zone(now), zone) then
      FireStamps(w, r, now);
      Fire(w, r, false, now)
    else
      assert UuidsFrom(w.logs.records) + [] == UuidsFrom(w.logs.records);
      w
  }

  /** A regular firing stamps exactly the fired reminder. */
  lemma FireStamps(w: World, r: Reminder, now: Instant)
    requires ValidWorld(w)
    ensures StampedExactly(w.store, Fire(w, r, false, now).store, [r.uuid], now)
  {
    var store' := Fire(w, r, false, now).store;
    forall k | k in w.store
      ensures store'[k] == if k in [r.uuid] then Stamp(w.store[k], now) else w.store[k]
    {
      if k == r.uuid {
        assert k in [r.uuid];
      } else {
        assert k !in [r.uuid];
      }
    }
  }

  /** The loop of `check_reminders` over its snapshot: fire each due one,
      in order, on the regular path. */
  function FireDue(w: World, rs: seq<Reminder>, zone: Zone, now: Instant): (w': World)
    requires ValidWorld(w) && ValidLocal(zone(now))
    ensures ValidWorld(w')
    decreases |rs|
  {
    if |rs| == 0 then w
    else FireDue(DueStep(w, rs[0], zone, now), rs[1..], zone, now)
  }

  /** After the head of the snapshot is handled, the tail is still a
      snapshot of the store, and the head's uuid does not come up again. */
  lemma SnapshotTail(store: ReminderRepo.Store, store1: ReminderRepo.Store, rs: seq<Reminder>, zone: Zone, now: Instant)
    requires |rs| > 0 && SnapshotOf(store, rs) && ValidLocal(zone(now))
    requires StampedExactly(store, store1, DueHead(rs[0], zone, now), now)
    ensures SnapshotOf(store1, rs[1..])
    ensures forall k :: k in DueHead(rs[0], zone, now) ==> k !in DueUuids(rs[1..], zone, now)
  {
    forall i | 0 <= i < |rs[1..]|
      ensures rs[1..][i].uuid in store1 && store1[rs[1..][i].uuid] == rs[1..][i] && rs[1..][i].uuid != rs[0].uuid
    {
      assert rs[1..][i] == rs[i + 1];
    }
  }

  /** `FireDue` stamps exactly the due reminders of the snapshot. */
  lemma {:induction false} FireDueStore(w: World, rs: seq<Reminder>, zone: Zone, now: Instant)
    requires ValidWorld(w) && ValidLocal(zone(now)) && SnapshotOf(w.store, rs)
    ensures StampedExactly(w.store, FireDue(w, rs, zone, now).store, DueUuids(rs, zone, now), now)
    decreases |rs|
  {
    if |rs| > 0 {
      var w1 := DueStep(w, rs[0], zone, now);
      SnapshotTail(w.store, w1.store, rs, zone, now);
      FireDueStore(w1, rs[1..], zone, now);
      StampedCompose(w.store, w1.store, FireDue(w1, rs[1..], zone, now).store,
                     DueHead(rs[0], zone, now), DueUuids(rs[1..], zone, now), now);
    }
  }

  /** `FireDue` only appends `triggered` records for `now` on the regular
      path. */
  lemma {:induction false} FireDueTail(w: World, rs: seq<Reminder>, zone: Zone, now: Instant)
    requires ValidWorld(w) && ValidLocal(zone(now))
    ensures var w' := FireDue(w, rs, zone, now);
      Extends(w.logs, w'.logs) && TriggeredTail(w'.logs.records, |w.logs.records|, now, None)
    decreases |rs|
  {
    if |rs| > 0 {
      var w1 := DueStep(w, rs[0], zone, now);
      FireDueTail(w1, rs[1..], zone, now);
      TailsCompose(w.logs, w1.logs, FireDue(w1, rs[1..], zone, now).logs, now, None);
    }
  }

  /** `FireDue` logs one record per due reminder, in snapshot order. */
  lemma {:induction false} FireDueLogs(w: World, rs: seq<Reminder>, zone: Zone, now: Instant)
    requires ValidWorld(w) && ValidLocal(zone(now))
    ensures UuidsFrom(FireDue(w, rs, zone, now).logs.records) == UuidsFrom(w.logs.records) + DueUuids(rs, zone, now)
    decreases |rs|
  {
    if |rs| > 0 {
      var w1 := DueStep(w, rs[0], zone, now);
      FireDueLogs(w1, rs[1..], zone, now);
      ConcatAssoc(UuidsFrom(w.logs.records), DueHead(rs[0], zone, now), DueUuids(rs[1..], zone, now));
    }
  }

  lemma ConcatAssoc(a: seq<Uuid>, b: seq<Uuid>, c: seq<Uuid>)
    ensures a + b + c == a + (b + c)
  {
  }

  /** `FireDue` leaves the snooze queue alone and touches the loop and
      timeout queues only under due uuids. */
  lemma {:induction false} FireDueQueues(w: World, rs: seq<Reminder>, zone: Zone, now: Instant)
    requires ValidWorld(w) && ValidLocal(zone(now))
    ensures var w' := FireDue(w, rs, zone, now);
      && w'.queues.snooze == w.queues.snooze
      && forall k :: k !in DueUuids(rs, zone, now) ==>
           AgreeAt(w'.queues.loops, w.queues.loops, k) && AgreeAt(w'.queues.timeouts, w.queues.timeouts, k)
    decreases |rs|
  {
    if |rs| > 0 {
      var w1 := DueStep(w, rs[0], zone, now);
      FireDueQueues(w1, rs[1..], zone, now);
    }
  }

  /** Two log extensions whose appended records are all `triggered` records
      for `now` with the same note compose. */
  lemma TailsCompose(a: ReminderLogRepo.LogStore, b: ReminderLogRepo.LogStore, c: ReminderLogRepo.LogStore,
                     now: Instant, note: Option<string>)
    requires Extends(a, b) && Extends(b, c)
    requires TriggeredTail(b.records, |a.records|, now, note)
    requires TriggeredTail(c.records, |b.records|, now, note)
    ensures Extends(a, c)
    ensures TriggeredTail(c.records, |a.records|, now, note)
  {
    var n, n1 := |a.records|, |b.records|;
    assert c.records[..n] == c.records[..n1][..n];
    forall j | n <= j < n1
      ensures c.records[j] == b.records[j]
    {
      assert c.records[..n1][j] == c.records[j];
    }
  }

  /** The reminder is stored, live, enabled and due at `now`. */
  predicate DueNow(store: ReminderRepo.Store, k: Uuid, zone: Zone, now: Instant)
    requires ValidLocal(zone(now))
  {
    k in store && ReminderRepo.Live(store[k]) && store[k].isEnabled && IsDue(store[k], zone(now), zone)
  }

  /** `check_reminders` at instant `now`: read the enabled reminders and fire
      every one that is due, on the regular path. `fired` lists them in
      firing order. */
  method CheckReminders(w: World, zone: Zone, now: Instant) returns (w': World, fired: seq<Uuid>)
    requires ValidWorld(w) && ValidLocal(zone(now))
    ensures ValidWorld(w') && w'.store.Keys == w.store.Keys
    ensures forall k :: k in fired <==> DueNow(w.store, k, zone, now)
    ensures Distinct(fired)
    ensures forall k :: k in w.store ==>
              w'.store[k] == if DueNow(w.store, k, zone, now) then Stamp(w.store[k], now) else w.store[k]
    ensures Extends(w.logs, w'.logs)
    ensures UuidsFrom(w'.logs.records) == UuidsFrom(w.logs.records) + fired
    ensures TriggeredTail(w'.logs.records, |w.logs.records|, now, None)
    ensures w'.queues.snooze == w.queues.snooze
    ensures forall k :: k !in fired ==>
              AgreeAt(w'.queues.loops, w.queues.loops, k) && AgreeAt(w'.queues.timeouts, w.queues.timeouts, k)
  {
    var rs := ReminderRepo.GetEnabledReminders(w.store);
    fired := DueUuids(rs, zone, now);
    w' := FireDue(w, rs, zone, now);
    DueUuidsDistinct(rs, zone, now);
    FireDueStore(w, rs, zone, now);
    FireDueTail(w, rs, zone, now);
    FireDueLogs(w, rs, zone, now);
    FireDueQueues(w, rs, zone, now);
    forall k
      ensures k in fired <==> DueNow(w.store, k, zone, now)
    {
      if DueNow(w.store, k, zone, now) {
        assert k in ReminderRepo.UuidsOf(rs);
        var i :| 0 <= i < |rs| && rs[i].uuid == k;
      }
    }
  }

  /** The once-a-day guard at the level of the whole state: a second check
      in the same minute fires nothing. */
  lemma CheckTwiceFiresNothing(w: World, w1: World, zone: Zone, now: Instant)
    requires ValidLocal(zone(now)) && w1.store.Keys == w.store.Keys
    requires forall k :: k in w.store ==>
               k in w1.store && w1.store[k] == if DueNow(w.store, k, zone, now) then Stamp(w.store[k], now) else w.store[k]
    ensures forall k :: !DueNow(w1.store, k, zone, now)
  {
    forall k | k in w1.store
      ensures !DueNow(w1.store, k, zone, now)
    {
      if DueNow(w.store, k, zone, now) {
        StampClosesDay(w.store[k], zone, now, zone(now));
      }
    }
  }

  // ---------------------------------------------------------------------
  // Replaying the queues

  /** The reminder a queue entry names can fire again: it is stored, live
      and enabled. */
  predicate Revivable(store: ReminderRepo.Store, u: Uuid) {
    u in store && ReminderRepo.Live(store[u]) && store[u].isEnabled
  }

  /** The uuids of the entries whose reminder can fire again, in order. */
  function Revived(store: ReminderRepo.Store, us: seq<Uuid>): (out: seq<Uuid>)
    ensures forall k :: k in out <==> k in us && Revivable(store, k)
  {
    if |us| == 0 then []
    else (if Revivable(store, us[0]) then [us[0]] else []) + Revived(store, us[1..])
  }

  /** The reminder uuids of drained entries, in drain order. */
  function ItemUuids<T>(items: seq<T>, key: T -> Uuid): (us: seq<Uuid>)
    ensures |us| == |items| && forall i :: 0 <= i < |items| ==> us[i] == key(items[i])
  {
    if |items| == 0 then [] else [key(items[0])] + ItemUuids(items[1..], key)
  }

  /** The second half of `check_snooze_queue`: each drained entry whose
      reminder is live and enabled fires again as a repeat; the others are
      dropped. A repeat never stamps `last_triggered_at`. */
  function ReplaySnooze(w: World, items: seq<SnoozeItem>, now: Instant): (w': World)
    requires ValidWorld(w)
    ensures ValidWorld(w') && w'.store == w.store && w'.queues.snooze == w.queues.snooze
    decreases |items|
  {
    if |items| == 0 then w
    else
      var u := items[0].reminderUuid;
      var w1 := if Revivable(w.store, u) then Fire(w, w.store[u], true, now) else w;
      ReplaySnooze(w1, items[1..], now)
  }

  /** The snooze replay only appends `triggered` records marked as repeats. */
  lemma {:induction false} ReplaySnoozeTail(w: World, items: seq<SnoozeItem>, now: Instant)
    requires ValidWorld(w)
    ensures var w' := ReplaySnooze(w, items, now);
      Extends(w.logs, w'.logs) && TriggeredTail(w'.logs.records, |w.logs.records|, now, Some(RepeatNote))
    decreases |items|
  {
    if |items| > 0 {
      var u := items[0].reminderUuid;
      var w1 := if Revivable(w.store, u) then Fire(w, w.store[u], true, now) else w;
      ReplaySnoozeTail(w1, items[1..], now);
      TailsCompose(w.logs, w1.logs, ReplaySnooze(w1, items[1..], now).logs, now, Some(RepeatNote));
    }
  }

  /** The snooze replay logs one record per revivable entry, in drain
      order. */
  lemma {:induction false} ReplaySnoozeLogs(w: World, items: seq<SnoozeItem>, now: Instant)
    requires ValidWorld(w)
    ensures UuidsFrom(ReplaySnooze(w, items, now).logs.records) == UuidsFrom(w.logs.records) + Revived(w.store, ItemUuids(items, SnoozeKey))
    decreases |items|
  {
    if |items| > 0 {
      var u := items[0].reminderUuid;
      var head := if Revivable(w.store, u) then [u] else [];
      var w1 := if Revivable(w.store, u) then Fire(w, w.store[u], true, now) else w;
      assert UuidsFrom(w1.logs.records) == UuidsFrom(w.logs.records) + head;
      assert ReplaySnooze(w, items, now) == ReplaySnooze(w1, items[1..], now);
      ReplaySnoozeLogs(w1, items[1..], now);
      assert ItemUuids(items, SnoozeKey) == [u] + ItemUuids(items[1..], SnoozeKey);
      assert Revived(w.store, ItemUuids(items, SnoozeKey)) == head + Revived(w.store, ItemUuids(items[1..], SnoozeKey));
      ConcatAssoc(UuidsFrom(w.logs.records), head, Revived(w.store, ItemUuids(items[1..], SnoozeKey)));
    }
  }

  /** The snooze replay touches the loop and timeout queues only under the
      revived uuids. */
  lemma {:induction false} ReplaySnoozeQueues(w: World, items: seq<SnoozeItem>, now: Instant)
    requires ValidWorld(w)
    ensures var w' := ReplaySnooze(w, items, now);
      forall k :: k !in Revived(w.store, ItemUuids(items, SnoozeKey)) ==>
        AgreeAt(w'.queues.loops, w.queues.loops, k) && AgreeAt(w'.queues.timeouts, w.queues.timeouts, k)
    decreases |items|
  {
    if |items| > 0 {
      var u := items[0].reminderUuid;
      var w1 := if Revivable(w.store, u) then Fire(w, w.store[u], true, now) else w;
      assert ReplaySnooze(w, items, now) == ReplaySnooze(w1, items[1..], now);
      ReplaySnoozeQueues(w1, items[1..], now);
      assert ItemUuids(items, SnoozeKey) == [u] + ItemUuids(items[1..], SnoozeKey);
    }
  }

  /** After a loop entry fires again, the entry is re-armed for another
      interval, keeping the occurrence it started from. */
  predicate Rearms(store: ReminderRepo.Store, u: Uuid) {
    Revivable(store, u) && ArmsLoop(store[u])
  }

  /** One drained loop entry: fire again as a repeat if the reminder is live
      and enabled, then re-arm it when it still loops. */
  function ReplayLoopItem(w: World, item: LoopItem, now: Instant): (w': World)
    requires ValidWorld(w)
    ensures ValidWorld(w') && w'.store == w.store && w'.queues.snooze == w.queues.snooze
    ensures !Revivable(w.store, item.reminderUuid) ==> w' == w
  {
    var u := item.reminderUuid;
    if !Revivable(w.store, u) then w
    else
      var r := w.store[u];
      var w1 := Fire(w, r, true, now);
      if ArmsLoop(r) then
        w1.(queues := w1.queues.(loops := AddLoop(w1.queues.loops, r.uuid, r.loopInterval.value, item.originalTriggeredAt, now)))
      else w1
  }

  /** The queues after one loop entry: a looping reminder is re-armed one
      interval from `now` for the same occurrence; a reminder that no longer
      loops keeps whatever loop entry it has. */
  lemma ReplayLoopItemQueues(w: World, item: LoopItem, now: Instant)
    requires ValidWorld(w)
    ensures var w', u := ReplayLoopItem(w, item, now), item.reminderUuid;
      && (Rearms(w.store, u) ==>
            u in w'.queues.loops && w'.queues.loops[u] == LoopItem(u, now + w.store[u].loopInterval.value, item.originalTriggeredAt))
      && (!Rearms(w.store, u) ==> w'.queues.loops == w.queues.loops)
  {
    var u := item.reminderUuid;
    if Revivable(w.store, u) {
      assert w.store[u].uuid == u;
    }
  }

  /** One loop entry touches no other uuid's loop or timeout entry. */
  lemma ReplayLoopItemOthers(w: World, item: LoopItem, now: Instant)
    requires ValidWorld(w)
    ensures var w', u := ReplayLoopItem(w, item, now), item.reminderUuid;
      forall k :: k != u ==> AgreeAt(w'.queues.loops, w.queues.loops, k) && AgreeAt(w'.queues.timeouts, w.queues.timeouts, k)
  {
    var u := item.reminderUuid;
    if Revivable(w.store, u) {
      assert w.store[u].uuid == u;
    }
  }

  /** The log after one loop entry: one repeat record when the reminder is
      live and enabled, none otherwise. */
  lemma ReplayLoopItemLogs(w: World, item: LoopItem, now: Instant)
    requires ValidWorld(w)
    ensures var w', u := ReplayLoopItem(w, item, now), item.reminderUuid;
      && Extends(w.logs, w'.logs)
      && UuidsFrom(w'.logs.records) == UuidsFrom(w.logs.records) + (if Revivable(w.store, u) then [u] else [])
      && TriggeredTail(w'.logs.records, |w.logs.records|, now, Some(RepeatNote))
  {
  }

  /** The second half of `check_loop_queue`. */
  function ReplayLoop(w: World, items: seq<LoopItem>, now: Instant): (w': World)
    requires ValidWorld(w)
    ensures ValidWorld(w') && w'.store == w.store && w'.queues.snooze == w.queues.snooze
    decreases |items|
  {
    if |items| == 0 then w
    else ReplayLoop(ReplayLoopItem(w, items[0], now), items[1..], now)
  }

  /** The loop replay only appends `triggered` records marked as repeats,
      one per revivable entry, in drain order. */
  lemma {:induction false} ReplayLoopLogs(w: World, items: seq<LoopItem>, now: Instant)
    requires ValidWorld(w)
    ensures var w' := ReplayLoop(w, items, now);
      && Extends(w.logs, w'.logs)
      && TriggeredTail(w'.logs.records, |w.logs.records|, now, Some(RepeatNote))
      && UuidsFrom(w'.logs.records) == UuidsFrom(w.logs.records) + Revived(w.store, ItemUuids(items, LoopKey))
    decreases |items|
  {
    if |items| > 0 {
      var u := items[0].reminderUuid;
      var head := if Revivable(w.store, u) then [u] else [];
      var w1 := ReplayLoopItem(w, items[0], now);
      ReplayLoopItemLogs(w, items[0], now);
      assert ReplayLoop(w, items, now) == ReplayLoop(w1, items[1..], now);
      ReplayLoopLogs(w1, items[1..], now);
      TailsCompose(w.logs, w1.logs, ReplayLoop(w1, items[1..], now).logs, now, Some(RepeatNote));
      assert ItemUuids(items, LoopKey) == [u] + ItemUuids(items[1..], LoopKey);
      assert Revived(w.store, ItemUuids(items, LoopKey)) == head + Revived(w.store, ItemUuids(items[1..], LoopKey));
      ConcatAssoc(UuidsFrom(w.logs.records), head, Revived(w.store, ItemUuids(items[1..], LoopKey)));
    }
  }

  /** Loop entries naming distinct reminders. */
  predicate DistinctItems(items: seq<LoopItem>) {
    forall i, j :: 0 <= i < j < |items| ==> items[i].reminderUuid != items[j].reminderUuid
  }

  lemma DistinctItemsTail(items: seq<LoopItem>)
    requires |items| > 0 && DistinctItems(items)
    ensures DistinctItems(items[1..])
    ensures forall j :: 0 <= j < |items[1..]| ==> items[1..][j].reminderUuid != items[0].reminderUuid
  {
    forall i, j | 0 <= i < j < |items[1..]|
      ensures items[1..][i].reminderUuid != items[1..][j].reminderUuid
    {
      assert items[1..][i] == items[i + 1] && items[1..][j] == items[j + 1];
    }
    forall j | 0 <= j < |items[1..]|
      ensures items[1..][j].reminderUuid != items[0].reminderUuid
    {
      assert items[1..][j] == items[j + 1];
    }
  }

  /** The first drained entry, once re-armed, keeps its new entry through
      the rest of the replay. */
  lemma ReplayLoopHead(w: World, items: seq<LoopItem>, now: Instant)
    requires ValidWorld(w) && |items| > 0 && DistinctItems(items)
    requires Rearms(w.store, items[0].reminderUuid)
    ensures var w', u := ReplayLoop(w, items, now), items[0].reminderUuid;
      u in w'.queues.loops && w'.queues.loops[u] == LoopItem(u, now + w.store[u].loopInterval.value, items[0].originalTriggeredAt)
  {
    var w1 := ReplayLoopItem(w, items[0], now);
    assert ReplayLoop(w, items, now) == ReplayLoop(w1, items[1..], now);
    ReplayLoopItemQueues(w, items[0], now);
    DistinctItemsTail(items);
    ReplayLoopUntouched(w1, items[1..], now, items[0].reminderUuid);
  }

  /** The loop replay re-arms every drained entry whose reminder still
      loops, one interval from `now`, for the occurrence it started from. */
  lemma {:induction false} ReplayLoopRearms(w: World, items: seq<LoopItem>, now: Instant)
    requires ValidWorld(w) && DistinctItems(items)
    ensures var w' := ReplayLoop(w, items, now);
      forall i :: 0 <= i < |items| && Rearms(w.store, items[i].reminderUuid) ==>
        var u := items[i].reminderUuid;
        u in w'.queues.loops && w'.queues.loops[u] == LoopItem(u, now + w.store[u].loopInterval.value, items[i].originalTriggeredAt)
    decreases |items|
  {
    if |items| > 0 {
      var w1 := ReplayLoopItem(w, items[0], now);
      var w' := ReplayLoop(w1, items[1..], now);
      assert ReplayLoop(w, items, now) == w';
      DistinctItemsTail(items);
      ReplayLoopRearms(w1, items[1..], now);
      forall i | 0 <= i < |items| && Rearms(w.store, items[i].reminderUuid)
        ensures var u := items[i].reminderUuid;
          u in w'.queues.loops && w'.queues.loops[u] == LoopItem(u, now + w.store[u].loopInterval.value, items[i].originalTriggeredAt)
      {
        if i > 0 {
          assert items[i] == items[1..][i - 1];
        } else {
          ReplayLoopHead(w, items, now);
        }
      }
    }
  }

  /** The loop replay leaves the loop queue alone under every uuid whose
      reminder cannot be re-armed. */
  lemma {:induction false} ReplayLoopKeeps(w: World, items: seq<LoopItem>, now: Instant)
    requires ValidWorld(w)
    ensures forall k :: !Rearms(w.store, k) ==> AgreeAt(ReplayLoop(w, items, now).queues.loops, w.queues.loops, k)
    decreases |items|
  {
    if |items| > 0 {
      var w1 := ReplayLoopItem(w, items[0], now);
      assert ReplayLoop(w, items, now) == ReplayLoop(w1, items[1..], now);
      ReplayLoopItemQueues(w, items[0], now);
      ReplayLoopItemOthers(w, items[0], now);
      ReplayLoopKeeps(w1, items[1..], now);
    }
  }

  /** A uuid no later entry names keeps its loop entry through the rest of
      the replay. */
  lemma {:induction false} ReplayLoopUntouched(w: World, items: seq<LoopItem>, now: Instant, u: Uuid)
    requires ValidWorld(w)
    requires forall j :: 0 <= j < |items| ==> items[j].reminderUuid != u
    ensures AgreeAt(ReplayLoop(w, items, now).queues.loops, w.queues.loops, u)
    ensures AgreeAt(ReplayLoop(w, items, now).queues.timeouts, w.queues.timeouts, u)
    decreases |items|
  {
    if |items| > 0 {
      var w1 := ReplayLoopItem(w, items[0], now);
      ReplayLoopItemOthers(w, items[0], now);
      assert forall j :: 0 <= j < |items[1..]| ==> items[1..][j].reminderUuid != u by {
        forall j | 0 <= j < |items[1..]|
          ensures items[1..][j].reminderUuid != u
        {
          assert items[1..][j] == items[j + 1];
        }
      }
      ReplayLoopUntouched(w1, items[1..], now, u);
    }
  }

  /** The loop replay touches the timeout queue only under revived uuids. */
  lemma {:induction false} ReplayLoopTimeouts(w: World, items: seq<LoopItem>, now: Instant)
    requires ValidWorld(w)
    ensures forall k :: k !in Revived(w.store, ItemUuids(items, LoopKey)) ==>
              AgreeAt(ReplayLoop(w, items, now).queues.timeouts, w.queues.timeouts, k)
    decreases |items|
  {
    if |items| > 0 {
      var w1 := ReplayLoopItem(w, items[0], now);
      ReplayLoopItemOthers(w, items[0], now);
      ReplayLoopTimeouts(w1, items[1..], now);
      assert ItemUuids(items, LoopKey) == [items[0].reminderUuid] + ItemUuids(items[1..], LoopKey);
    }
  }

  /** `handle_timeout`: emit the timeout event and, when asked, push a
      notification. */
  function HandleTimeout(w: World, r: Reminder): (w': World)
    ensures w'.store == w.store && w'.logs == w.logs && w'.queues == w.queues
    ensures |w.effects| <= |w'.effects| && w'.effects[..|w.effects|] == w.effects
    ensures forall k :: Emit(TimeoutEvent, k) in w'.effects[|w.effects|..] <==> k == r.uuid
    ensures Notify("提醒超时: " + r.title, "提醒「" + r.title + "」已超时未完成") in w'.effects[|w.effects|..] <==> r.notifyOnTimeout
  {
    var notify := if r.notifyOnTimeout then [Notify("提醒超时: " + r.title, "提醒「" + r.title + "」已超时未完成")] else [];
    var added := [Emit(TimeoutEvent, r.uuid)] + notify;
    assert (w.effects + added)[|w.effects|..] == added;
    w.(effects := w.effects + added)
  }

  /** The second half of `check_timeout_queue`: every drained uuid whose
      reminder is still live gets its timeout handled, enabled or not. */
  function ReplayTimeout(w: World, us: seq<Uuid>): (w': World)
    ensures w'.store == w.store && w'.logs == w.logs && w'.queues == w.queues
    ensures |w.effects| <= |w'.effects| && w'.effects[..|w.effects|] == w.effects
    decreases |us|
  {
    if |us| == 0 then w
    else
      var w1 := match ReminderRepo.GetByUuid(w.store, us[0])
                case Some(r) => HandleTimeout(w, r)
                case None => w;
      var w' := ReplayTimeout(w1, us[1..]);
      assert w'.effects[..|w.effects|] == w'.effects[..|w1.effects|][..|w.effects|];
      w'
  }

  /** The effects appended over two extensions are those of the first
      followed by those of the second. */
  lemma SuffixSplit(a: seq<Effect>, b: seq<Effect>, c: seq<Effect>)
    requires |a| <= |b| <= |c| && b[..|a|] == a && c[..|b|] == b
    ensures c[|a|..] == b[|a|..] + c[|b|..]
  {
    assert c[..|b|][|a|..] == b[|a|..];
  }

  /** The timeout replay emits a timeout event for exactly the drained uuids
      whose reminder is still live. */
  lemma {:induction false} ReplayTimeoutEvents(w: World, us: seq<Uuid>)
    requires ReminderRepo.WellKeyed(w.store)
    ensures var w' := ReplayTimeout(w, us);
      forall k :: Emit(TimeoutEvent, k) in w'.effects[|w.effects|..] <==> k in us && ReminderRepo.GetByUuid(w.store, k).Some?
    decreases |us|
  {
    if |us| > 0 {
      var w1 := match ReminderRepo.GetByUuid(w.store, us[0])
                case Some(r) => HandleTimeout(w, r)
                case None => w;
      ReplayTimeoutEvents(w1, us[1..]);
      var w' := ReplayTimeout(w1, us[1..]);
      SuffixSplit(w.effects, w1.effects, w'.effects);
      assert us == [us[0]] + us[1..];
    }
  }

  function Values<T>(es: seq<(Uuid, T)>): (vs: seq<T>)
    ensures |vs| == |es| && forall i :: 0 <= i < |es| ==> vs[i] == es[i].1
  {
    if |es| == 0 then [] else [es[0].1] + Values(es[1..])
  }

  function Keys<T>(es: seq<(Uuid, T)>): (ks: seq<Uuid>)
    ensures |ks| == |es| && forall i :: 0 <= i < |es| ==> ks[i] == es[i].0
  {
    if |es| == 0 then [] else [es[0].0] + Keys(es[1..])
  }

  // ---------------------------------------------------------------------
  // The tick

  /** One scheduler tick at instant `now`: the regular check, then the
      snooze, loop and timeout queues in that order. `fired` lists the
      regular firings. */
  method Tick(w: World, zone: Zone, now: Instant) returns (w': World, fired: seq<Uuid>)
    requires ValidWorld(w) && ValidLocal(zone(now))
    ensures ValidWorld(w') && w'.store.Keys == w.store.Keys
    ensures forall k :: k in fired <==> DueNow(w.store, k, zone, now)
    ensures Distinct(fired)
    ensures forall k :: k in w.store ==>
              w'.store[k] == if DueNow(w.store, k, zone, now) then Stamp(w.store[k], now) else w.store[k]
    ensures Extends(w.logs, w'.logs)
    ensures forall k :: k in w'.queues.snooze <==> k in w.queues.snooze && now < SnoozeWake(w.queues.snooze[k])
    ensures forall k :: k in w'.queues.snooze ==> w'.queues.snooze[k] == w.queues.snooze[k]
    ensures ExpiredKeys(w'.queues.timeouts, TimeoutWake, now) == {}
  {
    var w1;
    w1, fired := CheckReminders(w, zone, now);

    var snoozed, snoozeRest := DrainExpired(w1.queues.snooze, SnoozeWake, now);
    var w2 := w1.(queues := w1.queues.(snooze := snoozeRest));
    ReplaySnoozeTail(w2, Values(snoozed), now);
    w2 := ReplaySnooze(w2, Values(snoozed), now);

    var looped, loopRest := DrainExpired(w2.queues.loops, LoopWake, now);
    var w3 := w2.(queues := w2.queues.(loops := loopRest));
    DrainedLoopsDistinct(w2.queues.loops, looped, now);
    ReplayLoopLogs(w3, Values(looped), now);
    w3 := ReplayLoop(w3, Values(looped), now);

    var timedOut, timeoutRest := DrainExpired(w3.queues.timeouts, TimeoutWake, now);
    var w4 := w3.(queues := w3.queues.(timeouts := timeoutRest));
    w' := ReplayTimeout(w4, Keys(timedOut));

    assert w'.store == w1.store;
    assert w'.queues.snooze == snoozeRest;
    LogsExtendThrough(w.logs, w1.logs, w2.logs, w3.logs, w'.logs);
  }

  /** Drained loop entries name distinct reminders. */
  lemma DrainedLoopsDistinct(q: Queue<LoopItem>, es: seq<(Uuid, LoopItem)>, now: Instant)
    requires forall k :: k in q ==> q[k].reminderUuid == k
    requires DistinctKeys(es) && DrainedFrom(q, LoopWake, now, es)
    ensures DistinctItems(Values(es))
  {
  }

  lemma LogsExtendThrough(a: ReminderLogRepo.LogStore, b: ReminderLogRepo.LogStore, c: ReminderLogRepo.LogStore,
                          d: ReminderLogRepo.LogStore, e: ReminderLogRepo.LogStore)
    requires Extends(a, b) && Extends(b, c) && Extends(c, d) && d == e
    ensures Extends(a, e)
  {
    assert c.records[..|a.records|] == c.records[..|b.records|][..|a.records|];
    assert d.records[..|a.records|] == d.records[..|c.records|][..|a.records|];
  }

  // ---------------------------------------------------------------------
  // User commands

  datatype CommandError = NotFound

  /** `reminder_log_repo::create` seen from the engine: one record appended
      for `uuid`, with the given action, occurrence instant, snooze target
      and note. */
  function AppendLog(logs: ReminderLogRepo.LogStore, uuid: Uuid, action: LogAction, at: Instant,
                     snoozeUntil: Option<Instant>, note: Option<string>, now: Instant): (logs': ReminderLogRepo.LogStore)
    requires ReminderLogRepo.ValidLog(logs)
    ensures ReminderLogRepo.ValidLog(logs') && Extends(logs, logs') && |logs'.records| == |logs.records| + 1
    ensures var rec := logs'.records[|logs.records|];
      && rec.reminderUuid == uuid && rec.action == action && rec.triggeredAt == at
      && rec.snoozeUntil == snoozeUntil && rec.note == note
  {
    var (logs', rec) := ReminderLogRepo.Create(logs, uuid, action, at, snoozeUntil, note, now);
    assert logs'.records[..|logs.records|] == logs.records;
    logs'
  }

  /** The queues with `uuid` taken off all three. */
  function RemoveEverywhere(qs: Queues, uuid: Uuid): (qs': Queues)
    requires QueuesKeyed(qs)
    ensures QueuesKeyed(qs')
    ensures uuid !in qs'.snooze && uuid !in qs'.loops && uuid !in qs'.timeouts
    ensures forall k :: k != uuid ==>
              (AgreeAt(qs'.snooze, qs.snooze, k) && AgreeAt(qs'.loops, qs.loops, k) && AgreeAt(qs'.timeouts, qs.timeouts, k))
  {
    Queues(Remove(qs.snooze, uuid), Remove(qs.loops, uuid), Remove(qs.timeouts, uuid))
  }

  /** `complete_reminder_action`: for a live reminder, stamp
      `last_completed_at`, log a `completed` record, take it off all three
      queues, notify when asked and emit the completed event. */
  function Complete(w: World, uuid: Uuid, now: Instant): (res: Result<World, CommandError>)
    requires ValidWorld(w)
    ensures res.Failure? <==> ReminderRepo.GetByUuid(w.store, uuid).None?
    ensures res.Success? ==> var w' := res.value;
      && ValidWorld(w') && w'.store.Keys == w.store.Keys
      && w'.store[uuid] == w.store[uuid].(lastCompletedAt := Some(now), updatedAt := now)
      && (forall k :: k in w.store && k != uuid ==> w'.store[k] == w.store[k])
      && w'.queues == RemoveEverywhere(w.queues, uuid)
      && Extends(w.logs, w'.logs) && |w'.logs.records| == |w.logs.records| + 1
      && w'.logs.records[|w.logs.records|].action == Completed
      && w'.logs.records[|w.logs.records|].reminderUuid == uuid
      && w'.logs.records[|w.logs.records|].triggeredAt == now
      && |w.effects| <= |w'.effects| && w'.effects[..|w.effects|] == w.effects
      && Emit(CompletedEvent, uuid) in w'.effects[|w.effects|..]
      && (w.store[uuid].notifyOnComplete <==>
            Notify("提醒完成: " + w.store[uuid].title, "提醒「" + w.store[uuid].title + "」已完成") in w'.effects[|w.effects|..])
  {
    match ReminderRepo.GetByUuid(w.store, uuid)
    case None => Failure(NotFound)
    case Some(r) =>
      var store := ReminderRepo.UpdateCompletedAt(w.store, uuid, now);
      var logs := AppendLog(w.logs, uuid, Completed, now, None, None, now);
      var notify := if r.notifyOnComplete then [Notify("提醒完成: " + r.title, "提醒「" + r.title + "」已完成")] else [];
      var added := notify + [Emit(CompletedEvent, uuid)];
      assert (w.effects + added)[|w.effects|..] == added;
      Success(World(store, logs, RemoveEverywhere(w.queues, uuid), w.effects + added))
  }

  /** `snooze_reminder_action`: log a `snoozed` record, take the uuid off the
      loop and timeout queues and snooze it for `minutes`. The uuid is not
      looked up. */
  function Snooze(w: World, uuid: Uuid, minutes: int, now: Instant): (w': World)
    requires ValidWorld(w)
    ensures ValidWorld(w') && w'.store == w.store
    ensures uuid !in w'.queues.loops && uuid !in w'.queues.timeouts
    ensures uuid in w'.queues.snooze && w'.queues.snooze[uuid] == SnoozeItem(uuid, now + minutes, now)
    ensures forall k :: k != uuid ==>
              (AgreeAt(w'.queues.snooze, w.queues.snooze, k) && AgreeAt(w'.queues.loops, w.queues.loops, k)
               && AgreeAt(w'.queues.timeouts, w.queues.timeouts, k))
    ensures Extends(w.logs, w'.logs) && |w'.logs.records| == |w.logs.records| + 1
    ensures var rec := w'.logs.records[|w.logs.records|];
      rec.action == Snoozed && rec.reminderUuid == uuid && rec.triggeredAt == now
      && rec.snoozeUntil == Some(now + minutes) && rec.note == Some(SnoozeNote(minutes))
    ensures w'.effects == w.effects
  {
    var logs := AppendLog(w.logs, uuid, Snoozed, now, Some(now + minutes), Some(SnoozeNote(minutes)), now);
    var qs := Queues(AddSnooze(w.queues.snooze, uuid, minutes, now, now),
                     Remove(w.queues.loops, uuid), Remove(w.queues.timeouts, uuid));
    World(w.store, logs, qs, w.effects)
  }

  /** The queues after a dismissal of `r`: off the snooze and timeout
      queues; with `repeat_on_close` and an interval snoozed again for that
      interval, the loop entry kept; with `repeat_on_close` and no interval
      the loop entry kept; without `repeat_on_close` off the loop queue. */
  function DismissQueues(qs: Queues, r: Reminder, now: Instant): (qs': Queues)
    requires QueuesKeyed(qs)
    ensures QueuesKeyed(qs')
    ensures r.uuid !in qs'.timeouts
    ensures r.repeatOnClose && r.repeatInterval.Some? ==>
              && r.uuid in qs'.snooze && qs'.snooze[r.uuid] == SnoozeItem(r.uuid, now + r.repeatInterval.value, now)
              && AgreeAt(qs'.loops, qs.loops, r.uuid)
    ensures r.repeatOnClose && r.repeatInterval.None? ==>
              r.uuid !in qs'.snooze && AgreeAt(qs'.loops, qs.loops, r.uuid)
    ensures !r.repeatOnClose ==> r.uuid !in qs'.snooze && r.uuid !in qs'.loops
    ensures forall k :: k != r.uuid ==>
              (AgreeAt(qs'.snooze, qs.snooze, k) && AgreeAt(qs'.loops, qs.loops, k) && AgreeAt(qs'.timeouts, qs.timeouts, k))
  {
    var snooze := Remove(qs.snooze, r.uuid);
    var timeouts := Remove(qs.timeouts, r.uuid);
    if r.repeatOnClose then
      if r.repeatInterval.Some? then Queues(AddSnooze(snooze, r.uuid, r.repeatInterval.value, now, now), qs.loops, timeouts)
      else Queues(snooze, qs.loops, timeouts)
    else Queues(snooze, Remove(qs.loops, r.uuid), timeouts)
  }

  /** `dismiss_reminder_action`: for a live reminder, log a `dismissed`
      record, update the queues as `DismissQueues` says and emit the
      dismissed event. */
  function Dismiss(w: World, uuid: Uuid, now: Instant): (res: Result<World, CommandError>)
    requires ValidWorld(w)
    ensures res.Failure? <==> ReminderRepo.GetByUuid(w.store, uuid).None?
    ensures res.Success? ==> var w' := res.value;
      && ValidWorld(w') && w'.store == w.store
      && w'.queues == DismissQueues(w.queues, w.store[uuid], now)
      && Extends(w.logs, w'.logs) && |w'.logs.records| == |w.logs.records| + 1
      && w'.logs.records[|w.logs.records|].action == Dismissed
      && w'.logs.records[|w.logs.records|].reminderUuid == uuid
      && w'.logs.records[|w.logs.records|].triggeredAt == now
      && w'.effects == w.effects + [Emit(DismissedEvent, uuid)]
  {
    match ReminderRepo.GetByUuid(w.store, uuid)
    case None => Failure(NotFound)
    case Some(r) =>
      var logs := AppendLog(w.logs, uuid, Dismissed, now, None, None, now);
      Success(World(w.store, logs, DismissQueues(w.queues, r, now), w.effects + [Emit(DismissedEvent, uuid)]))
  }

  /** A snoozed reminder comes due on the snooze queue exactly `minutes`
      after the command, and not before. */
  lemma SnoozeWakesAt(w: World, uuid: Uuid, minutes: int, now: Instant, t: Instant)
    requires ValidWorld(w)
    ensures uuid in ExpiredKeys(Snooze(w, uuid, minutes, now).queues.snooze, SnoozeWake, t) <==> now + minutes <= t
  {
  }

  /** A dismissal of a reminder that repeats on close with an interval
      brings it back on the snooze queue one interval later. */
  lemma DismissRepeatWakesAt(w: World, uuid: Uuid, now: Instant, t: Instant)
    requires ValidWorld(w)
    requires Dismiss(w, uuid, now).Success?
    ensures var r := w.store[uuid]; var q := Dismiss(w, uuid, now).value.queues.snooze;
      uuid in ExpiredKeys(q, SnoozeWake, t) <==> r.repeatOnClose && r.repeatInterval.Some? && now + r.repeatInterval.value <= t
  {
  }
}
