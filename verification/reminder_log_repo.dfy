/** The occurrence log of `storage/reminder_log_repo.rs`: an append-only
    sequence of records plus the counter that hands out fresh record ids. */
module ReminderLogRepo {
  import opened Wrappers
  import opened Calendar
  import opened TimeUtils
  import opened ReminderModel
  import opened ReminderLogModel

  datatype LogStore = LogStore(records: seq<ReminderLog>, nextId: LogId)

  /** Every stored id was handed out before `nextId`, so a new one is fresh. */
  predicate ValidLog(ls: LogStore) {
    forall r :: r in ls.records ==> r.id < ls.nextId
  }

  // ---------------------------------------------------------------------
  // Filtering

  /** The records `keep` accepts, in their stored order. */
  function Filter(rs: seq<ReminderLog>, keep: ReminderLog -> bool): (out: seq<ReminderLog>)
    ensures forall r :: r in out <==> r in rs && keep(r)
    ensures |out| <= |rs|
  {
    if |rs| == 0 then []
    else
      assert rs == [rs[0]] + rs[1..];
      (if keep(rs[0]) then [rs[0]] else []) + Filter(rs[1..], keep)
  }

  lemma {:induction false} FilterAppend(rs: seq<ReminderLog>, x: ReminderLog, keep: ReminderLog -> bool)
    ensures Filter(rs + [x], keep) == Filter(rs, keep) + (if keep(x) then [x] else [])
    decreases |rs|
  {
    var tail := if keep(x) then [x] else [];
    if |rs| == 0 {
      assert rs + [x] == [x] && [x][1..] == [];
      assert Filter([x], keep) == tail + [];
    } else {
      var t := rs + [x];
      var h := if keep(rs[0]) then [rs[0]] else [];
      assert t[0] == rs[0] && t[1..] == rs[1..] + [x];
      FilterAppend(rs[1..], x, keep);
      calc {
        Filter(t, keep);
        h + Filter(rs[1..] + [x], keep);
        h + (Filter(rs[1..], keep) + tail);
        (h + Filter(rs[1..], keep)) + tail;
        Filter(rs, keep) + tail;
      }
    }
  }

  /** Filtering keeps every accepted record as often as it occurs and
      drops every other one. */
  lemma {:induction false} FilterCount(rs: seq<ReminderLog>, keep: ReminderLog -> bool)
    ensures forall x :: multiset(Filter(rs, keep))[x] == if keep(x) then multiset(rs)[x] else 0
    decreases |rs|
  {
    if |rs| > 0 {
      var h := if keep(rs[0]) then [rs[0]] else [];
      assert rs == [rs[0]] + rs[1..];
      assert multiset(rs) == multiset{rs[0]} + multiset(rs[1..]);
      assert Filter(rs, keep) == h + Filter(rs[1..], keep);
      assert multiset(Filter(rs, keep)) == multiset(h) + multiset(Filter(rs[1..], keep));
      FilterCount(rs[1..], keep);
    }
  }

  lemma FilterPrefixStep(rs: seq<ReminderLog>, n: nat, keep: ReminderLog -> bool)
    requires n < |rs|
    ensures |Filter(rs[..n + 1], keep)| == |Filter(rs[..n], keep)| + (if keep(rs[n]) then 1 else 0)
  {
    assert rs[..n + 1] == rs[..n] + [rs[n]];
    FilterAppend(rs[..n], rs[n], keep);
  }

  // ---------------------------------------------------------------------
  // Writes

  /** `create`: appends one record with the given action, occurrence time,
      snooze target and note, stamped `action_at = now`. */
  function Create(ls: LogStore, reminderUuid: Uuid, action: LogAction, triggeredAt: Instant,
                  snoozeUntil: Option<Instant>, note: Option<string>, now: Instant): (res: (LogStore, ReminderLog))
    requires ValidLog(ls)
    ensures var (ls', rec) := res;
      && ls'.records == ls.records + [rec]
      && ValidLog(ls')
      && GetByUuid(ls', rec.id) == Some(rec)
      && rec.reminderUuid == reminderUuid && rec.action == action && rec.triggeredAt == triggeredAt
      && rec.actionAt == Some(now) && rec.snoozeUntil == snoozeUntil && rec.note == note
      && rec.createdAt == now && rec.syncStatus == Pending
  {
    var rec := ReminderLog(ls.nextId, reminderUuid, action, triggeredAt, Some(now), snoozeUntil, note, now, Pending, None);
    var ls' := LogStore(ls.records + [rec], ls.nextId + 1);
    GetByUuidAfterAppend(ls, rec);
    (ls', rec)
  }

  /** `create_triggered`: appends one `triggered` record for the current
      instant, with neither `action_at` nor `snooze_until`. */
  function CreateTriggered(ls: LogStore, reminderUuid: Uuid, note: Option<string>, now: Instant): (res: (LogStore, ReminderLog))
    requires ValidLog(ls)
    ensures var (ls', rec) := res;
      && ls'.records == ls.records + [rec]
      && ValidLog(ls')
      && GetByUuid(ls', rec.id) == Some(rec)
      && rec.reminderUuid == reminderUuid && rec.action == Triggered && rec.triggeredAt == now
      && rec.actionAt.None? && rec.snoozeUntil.None? && rec.note == note && rec.createdAt == now
  {
    var rec := ReminderLog(ls.nextId, reminderUuid, Triggered, now, None, None, note, now, Pending, None);
    GetByUuidAfterAppend(ls, rec);
    (LogStore(ls.records + [rec], ls.nextId + 1), rec)
  }

  /** The DELETE statements: the records `keep` accepts stay, in order and
      with their multiplicity; the rest are gone. */
  function DeleteWhere(ls: LogStore, keep: ReminderLog -> bool): (ls': LogStore)
    requires ValidLog(ls)
    ensures ValidLog(ls') && ls'.nextId == ls.nextId
    ensures forall r :: multiset(ls'.records)[r] == if keep(r) then multiset(ls.records)[r] else 0
  {
    FilterCount(ls.records, keep);
    ls.(records := Filter(ls.records, keep))
  }

  /** `delete`: removes the record with that id and keeps every other one. */
  function Delete(ls: LogStore, id: LogId): (ls': LogStore)
    requires ValidLog(ls)
    ensures ValidLog(ls') && ls'.nextId == ls.nextId
    ensures forall r :: r in ls'.records <==> r in ls.records && r.id != id
    ensures forall r: ReminderLog :: r.id != id ==> multiset(ls'.records)[r] == multiset(ls.records)[r]
  {
    DeleteWhere(ls, (r: ReminderLog) => r.id != id)
  }

  /** `delete_by_reminder_uuid`: removes all and only that reminder's
      records. */
  function DeleteByReminderUuid(ls: LogStore, reminderUuid: Uuid): (ls': LogStore)
    requires ValidLog(ls)
    ensures ValidLog(ls') && ls'.nextId == ls.nextId
    ensures forall r :: r in ls'.records <==> r in ls.records && r.reminderUuid != reminderUuid
    ensures forall r: ReminderLog :: r.reminderUuid != reminderUuid ==> multiset(ls'.records)[r] == multiset(ls.records)[r]
  {
    DeleteWhere(ls, (r: ReminderLog) => r.reminderUuid != reminderUuid)
  }

  // ---------------------------------------------------------------------
  // Reads

  /** `get_by_uuid`: the record with that id. */
  function GetByUuid(ls: LogStore, id: LogId): (r: Option<ReminderLog>)
    ensures r.Some? ==> r.value in ls.records && r.value.id == id
    ensures r.None? <==> forall i :: 0 <= i < |ls.records| ==> ls.records[i].id != id
    decreases |ls.records|
  {
    if |ls.records| == 0 then None
    else if ls.records[0].id == id then Some(ls.records[0])
    else
      var r := GetByUuid(ls.(records := ls.records[1..]), id);
      assert forall i :: 1 <= i < |ls.records| ==> ls.records[i] == ls.records[1..][i - 1];
      r
  }

  lemma GetByUuidAfterAppend(ls: LogStore, rec: ReminderLog)
    requires ValidLog(ls) && rec.id == ls.nextId
    ensures GetByUuid(LogStore(ls.records + [rec], ls.nextId + 1), rec.id) == Some(rec)
    decreases |ls.records|
  {
    var ls' := LogStore(ls.records + [rec], ls.nextId + 1);
    if |ls.records| > 0 {
      assert ls'.records[1..] == ls.records[1..] + [rec];
      GetByUuidAfterAppend(ls.(records := ls.records[1..]), rec);
    }
  }

  predicate IsTriggeredOf(r: ReminderLog, reminderUuid: Uuid) {
    r.reminderUuid == reminderUuid && r.action == Triggered
  }

  /** `get_latest_triggered`: a `triggered` record of that reminder with the
      greatest `triggered_at`, or none when there is none. */
  function GetLatestTriggered(rs: seq<ReminderLog>, reminderUuid: Uuid): (r: Option<ReminderLog>)
    ensures r.Some? ==> r.value in rs && IsTriggeredOf(r.value, reminderUuid)
    ensures r.Some? ==> forall x :: x in rs && IsTriggeredOf(x, reminderUuid) ==> x.triggeredAt <= r.value.triggeredAt
    ensures r.None? <==> forall x :: x in rs ==> !IsTriggeredOf(x, reminderUuid)
    decreases |rs|
  {
    if |rs| == 0 then None
    else
      assert rs == [rs[0]] + rs[1..];
      var rest := GetLatestTriggered(rs[1..], reminderUuid);
      if IsTriggeredOf(rs[0], reminderUuid) && (rest.None? || rest.value.triggeredAt <= rs[0].triggeredAt)
      then Some(rs[0])
      else rest
  }

  /** Which column a listing sorts on, descending. */
  datatype LogOrder = ByTriggeredAt | ByCreatedAt

  function KeyOf(o: LogOrder, r: ReminderLog): int {
    match o
    case ByTriggeredAt => r.triggeredAt
    case ByCreatedAt => r.createdAt
  }

  /** SQLite's `LIMIT n` caps the row count only for `n >= 0`. */
  predicate Limited(limit: Option<int>) {
    limit.Some? && limit.value >= 0
  }

  /** A finite non-empty multiset of records has one with the greatest key. */
  lemma {:induction false} GreatestExists(o: LogOrder, m: multiset<ReminderLog>)
    requires m != multiset{}
    ensures exists x :: x in m && forall y :: y in m ==> KeyOf(o, y) <= KeyOf(o, x)
    decreases |m|
  {
    var x :| x in m;
    var rest := m - multiset{x};
    assert m == rest + multiset{x};
    if rest == multiset{} {
      assert m == multiset{x};
    } else {
      GreatestExists(o, rest);
      var g :| g in rest && forall y :: y in rest ==> KeyOf(o, y) <= KeyOf(o, g);
      assert forall y :: y in m ==> y == x || y in rest;
      if KeyOf(o, g) <= KeyOf(o, x) {
        assert forall y :: y in m ==> KeyOf(o, y) <= KeyOf(o, x);
      } else {
        assert g in m;
      }
    }
  }

  predicate SortedDesc(o: LogOrder, out: seq<ReminderLog>) {
    forall i, j :: 0 <= i < j < |out| ==> KeyOf(o, out[i]) >= KeyOf(o, out[j])
  }

  /** No record of `rest` has a greater key than any record of `out`. */
  predicate Dominates(o: LogOrder, rest: multiset<ReminderLog>, out: seq<ReminderLog>) {
    forall x, i :: x in rest && 0 <= i < |out| ==> KeyOf(o, x) <= KeyOf(o, out[i])
  }

  predicate TakeInv(pool: seq<ReminderLog>, o: LogOrder, out: seq<ReminderLog>, remaining: multiset<ReminderLog>) {
    && multiset(out) + remaining == multiset(pool)
    && SortedDesc(o, out)
    && Dominates(o, remaining, out)
  }

  lemma TakeStep(pool: seq<ReminderLog>, o: LogOrder, out: seq<ReminderLog>, remaining: multiset<ReminderLog>, g: ReminderLog)
    requires TakeInv(pool, o, out, remaining)
    requires g in remaining && forall y :: y in remaining ==> KeyOf(o, y) <= KeyOf(o, g)
    ensures TakeInv(pool, o, out + [g], remaining - multiset{g})
  {
    var out', rem' := out + [g], remaining - multiset{g};
    assert multiset(out') == multiset(out) + multiset{g};
    assert remaining == rem' + multiset{g};
    assert SortedDesc(o, out') by {
      forall i, j | 0 <= i < j < |out'|
        ensures KeyOf(o, out'[i]) >= KeyOf(o, out'[j])
      {
        if j == |out| {
          assert out'[i] == out[i];
        }
      }
    }
    assert Dominates(o, rem', out') by {
      forall x, i | x in rem' && 0 <= i < |out'|
        ensures KeyOf(o, x) <= KeyOf(o, out'[i])
      {
        assert x in remaining;
        if i < |out| {
          assert out'[i] == out[i];
        }
      }
    }
  }

  lemma MultisetCancel(a: multiset<ReminderLog>, b: multiset<ReminderLog>)
    ensures (a + b) - a == b
  {
    assert forall x :: ((a + b) - a)[x] == b[x];
  }

  lemma SubMultisetSameSize(a: multiset<ReminderLog>, b: multiset<ReminderLog>)
    requires a <= b && |a| == |b|
    ensures a == b
  {
    var d := b - a;
    assert b == a + d by {
      assert forall x :: b[x] == (a + d)[x];
    }
    assert |d| == 0;
  }

  /** `ORDER BY <key> DESC [LIMIT n]` over `pool`: the records with the
      greatest keys, at most `n` of them, greatest first; ties in any order. */
  method TakeDescending(pool: seq<ReminderLog>, o: LogOrder, limit: Option<int>) returns (out: seq<ReminderLog>)
    ensures multiset(out) <= multiset(pool)
    ensures SortedDesc(o, out)
    ensures |out| == if Limited(limit) then Min(limit.value, |pool|) else |pool|
    ensures Dominates(o, multiset(pool) - multiset(out), out)
  {
    var remaining := multiset(pool);
    out := [];
    while remaining != multiset{} && (!Limited(limit) || |out| < limit.value)
      invariant TakeInv(pool, o, out, remaining)
      invariant Limited(limit) ==> |out| <= limit.value
      decreases |remaining|
    {
      GreatestExists(o, remaining);
      var g :| g in remaining && forall y :: y in remaining ==> KeyOf(o, y) <= KeyOf(o, g);
      TakeStep(pool, o, out, remaining, g);
      out := out + [g];
      remaining := remaining - multiset{g};
    }
    MultisetCancel(multiset(out), remaining);
    assert |multiset(out)| + |remaining| == |pool|;
  }

  /** The filters of `query`: optional reminder, optional earliest and
      latest occurrence time. */
  predicate QueryMatch(r: ReminderLog, reminderUuid: Option<Uuid>, start: Option<Instant>, end: Option<Instant>) {
    && (reminderUuid.Some? ==> r.reminderUuid == reminderUuid.value)
    && (start.Some? ==> r.triggeredAt >= start.value)
    && (end.Some? ==> r.triggeredAt <= end.value)
  }

  function QueryKeep(reminderUuid: Option<Uuid>, start: Option<Instant>, end: Option<Instant>): ReminderLog -> bool {
    r => QueryMatch(r, reminderUuid, start, end)
  }

  /** `query`: the records meeting every supplied filter, latest occurrence
      first, at most `limit` of them when a non-negative limit is given. */
  method Query(ls: LogStore, reminderUuid: Option<Uuid>, start: Option<Instant>, end: Option<Instant>,
               limit: Option<int>) returns (out: seq<ReminderLog>)
    ensures forall i :: 0 <= i < |out| ==> out[i] in ls.records && QueryMatch(out[i], reminderUuid, start, end)
    ensures forall i, j :: 0 <= i < j < |out| ==> out[i].triggeredAt >= out[j].triggeredAt
    ensures Limited(limit) ==> |out| == Min(limit.value, |Filter(ls.records, QueryKeep(reminderUuid, start, end))|)
    ensures multiset(out) <= multiset(Filter(ls.records, QueryKeep(reminderUuid, start, end)))
    ensures !Limited(limit) ==> multiset(out) == multiset(Filter(ls.records, QueryKeep(reminderUuid, start, end)))
    ensures forall x, i :: x in ls.records && QueryMatch(x, reminderUuid, start, end) && x !in out && 0 <= i < |out| ==>
              x.triggeredAt <= out[i].triggeredAt
  {
    var keep := QueryKeep(reminderUuid, start, end);
    var pool := Filter(ls.records, keep);
    out := TakeDescending(pool, ByTriggeredAt, limit);
    FromPool(ls.records, keep, pool, out);
    forall x, i | x in ls.records && QueryMatch(x, reminderUuid, start, end) && x !in out && 0 <= i < |out|
      ensures x.triggeredAt <= out[i].triggeredAt
    {
      LeftBehind(ls.records, keep, pool, out, x, i);
    }
    if !Limited(limit) {
      SubMultisetSameSize(multiset(out), multiset(pool));
    }
  }

  /** A descending take from a filtered pool only returns records the
      filter accepted. */
  lemma FromPool(rs: seq<ReminderLog>, keep: ReminderLog -> bool, pool: seq<ReminderLog>, out: seq<ReminderLog>)
    requires pool == Filter(rs, keep)
    requires multiset(out) <= multiset(pool)
    ensures forall i :: 0 <= i < |out| ==> out[i] in rs && keep(out[i])
  {
    forall i | 0 <= i < |out|
      ensures out[i] in rs && keep(out[i])
    {
      assert out[i] in multiset(out);
      assert out[i] in multiset(pool);
    }
  }

  /** A record the filter accepted but the take left behind has a key no
      greater than any record it returned. */
  lemma LeftBehind(rs: seq<ReminderLog>, keep: ReminderLog -> bool, pool: seq<ReminderLog>, out: seq<ReminderLog>,
                   x: ReminderLog, i: int)
    requires pool == Filter(rs, keep)
    requires Dominates(ByTriggeredAt, multiset(pool) - multiset(out), out)
    requires x in rs && keep(x) && x !in out && 0 <= i < |out|
    ensures x.triggeredAt <= out[i].triggeredAt
  {
    assert x in pool;
    assert multiset(out)[x] == 0;
    assert x in multiset(pool) - multiset(out);
    assert KeyOf(ByTriggeredAt, x) <= KeyOf(ByTriggeredAt, out[i]);
  }

  /** `get_by_reminder_uuid`: all records of one reminder, newest first. */
  method GetByReminderUuid(ls: LogStore, reminderUuid: Uuid) returns (out: seq<ReminderLog>)
    ensures forall i :: 0 <= i < |out| ==> out[i] in ls.records && out[i].reminderUuid == reminderUuid
    ensures forall x :: x in ls.records && x.reminderUuid == reminderUuid ==> x in out
    ensures forall x: ReminderLog :: x.reminderUuid == reminderUuid ==> multiset(out)[x] == multiset(ls.records)[x]
    ensures forall i, j :: 0 <= i < j < |out| ==> out[i].createdAt >= out[j].createdAt
  {
    var keep := (r: ReminderLog) => r.reminderUuid == reminderUuid;
    var pool := Filter(ls.records, keep);
    out := TakeDescending(pool, ByCreatedAt, None);
    SubMultisetSameSize(multiset(out), multiset(pool));
    FilterCount(ls.records, keep);
    forall i | 0 <= i < |out|
      ensures out[i] in ls.records && out[i].reminderUuid == reminderUuid
    {
      assert out[i] in multiset(pool);
    }
    forall x | x in ls.records && x.reminderUuid == reminderUuid
      ensures x in out
    {
      assert x in multiset(pool);
    }
  }

  predicate CompletedOn(r: ReminderLog, reminderUuid: Uuid, dateOf: Instant -> Date, day: Date) {
    r.reminderUuid == reminderUuid && r.action == Completed && dateOf(r.triggeredAt) == day
  }

  function CompletedKeep(reminderUuid: Uuid, dateOf: Instant -> Date, day: Date): ReminderLog -> bool {
    r => CompletedOn(r, reminderUuid, dateOf, day)
  }

  /** `get_today_completed_count`: SQLite's `COUNT(*)` over the `completed`
      records of one reminder whose stored `triggered_at` falls on `today`.
      `dateOf` is the calendar date SQLite's `date()` reads from the stored
      timestamp text. */
  method GetTodayCompletedCount(ls: LogStore, reminderUuid: Uuid, dateOf: Instant -> Date, today: Date)
    returns (count: nat)
    ensures count == |Filter(ls.records, CompletedKeep(reminderUuid, dateOf, today))|
    ensures count <= |ls.records|
  {
    var keep := CompletedKeep(reminderUuid, dateOf, today);
    count := 0;
    var n := 0;
    while n < |ls.records|
      invariant 0 <= n <= |ls.records|
      invariant count == |Filter(ls.records[..n], keep)|
    {
      FilterPrefixStep(ls.records, n, keep);
      if keep(ls.records[n]) {
        count := count + 1;
      }
      n := n + 1;
    }
    assert ls.records[..n] == ls.records;
  }
}
