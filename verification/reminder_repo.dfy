/** The reminder table of `storage/reminder_repo.rs` as a map from uuid to
    record. Soft-deleted records stay in the map with `deletedAt` set; every
    read filters them out. */
module ReminderRepo {
  import opened Wrappers
  import opened Text
  import opened TimeUtils
  import opened ReminderModel

  type Store = map<Uuid, Reminder>

  /** Each record sits under its own uuid (the table's `uuid` column). */
  predicate WellKeyed(store: Store) {
    forall k :: k in store ==> store[k].uuid == k
  }

  predicate Live(r: Reminder) {
    r.deletedAt.None?
  }

  /** Raised where the source calls `.expect(..)` on a record it has just
      written and finds none (the uuid was unknown or soft-deleted). */
  datatype RepoError = MissingAfterWrite

  /** `get_by_uuid`: the live record with that uuid. */
  function GetByUuid(store: Store, uuid: Uuid): (r: Option<Reminder>)
    ensures r.Some? <==> uuid in store && Live(store[uuid])
    ensures r.Some? ==> r.value == store[uuid] && Live(r.value)
  {
    if uuid in store && store[uuid].deletedAt.None? then Some(store[uuid]) else None
  }

  // ---------------------------------------------------------------------
  // Ordered listings

  /** Which records a listing returns. */
  datatype Selection = AllLive | EnabledLive

  predicate Selected(sel: Selection, r: Reminder) {
    match sel
    case AllLive => Live(r)
    case EnabledLive => Live(r) && r.isEnabled
  }

  /** The ORDER BY clause of a listing. */
  datatype Ordering =
    | ByRemindTime          // ORDER BY remind_time ASC
    | BySortOrderNewest     // ORDER BY sort_order ASC, created_at DESC

  /** `a` may be listed before `b`. */
  predicate Precedes(o: Ordering, a: Reminder, b: Reminder) {
    match o
    case ByRemindTime => StrLe(a.remindTime, b.remindTime)
    case BySortOrderNewest => a.sortOrder < b.sortOrder || (a.sortOrder == b.sortOrder && a.createdAt >= b.createdAt)
  }

  lemma PrecedesTotal(o: Ordering, a: Reminder, b: Reminder)
    ensures Precedes(o, a, b) || Precedes(o, b, a)
  {
    if o == ByRemindTime {
      StrLeTotal(a.remindTime, b.remindTime);
    }
  }

  lemma PrecedesTransitive(o: Ordering, a: Reminder, b: Reminder, c: Reminder)
    requires Precedes(o, a, b) && Precedes(o, b, c)
    ensures Precedes(o, a, c)
  {
    if o == ByRemindTime {
      StrLeTransitive(a.remindTime, b.remindTime, c.remindTime);
    }
  }

  predicate IsLeast(o: Ordering, store: Store, s: set<Uuid>, k: Uuid)
    requires s <= store.Keys
  {
    k in s && forall j :: j in s ==> Precedes(o, store[k], store[j])
  }

  /** A finite non-empty set of records has a first one in every ordering. */
  lemma {:induction false} LeastExists(o: Ordering, store: Store, s: set<Uuid>)
    requires s != {} && s <= store.Keys
    ensures exists k :: IsLeast(o, store, s, k)
    decreases |s|
  {
    var x :| x in s;
    if s == {x} {
      PrecedesTotal(o, store[x], store[x]);
      assert IsLeast(o, store, s, x);
    } else {
      var rest := s - {x};
      LeastExists(o, store, rest);
      var m :| IsLeast(o, store, rest, m);
      PrecedesTotal(o, store[x], store[m]);
      if Precedes(o, store[x], store[m]) {
        forall j | j in s
          ensures Precedes(o, store[x], store[j])
        {
          if j == x {
            PrecedesTotal(o, store[x], store[x]);
          } else {
            PrecedesTransitive(o, store[x], store[m], store[j]);
          }
        }
        assert IsLeast(o, store, s, x);
      } else {
        assert IsLeast(o, store, s, m);
      }
    }
  }

  function UuidsOf(rs: seq<Reminder>): set<Uuid> {
    set i | 0 <= i < |rs| :: rs[i].uuid
  }

  /** Loop invariant of `ListingKeys`: `ks` is the sorted prefix already
      listed, `remaining` the selected uuids still to come, none of them
      ahead of the prefix. */
  predicate ListingInv(store: Store, sel: Selection, o: Ordering, ks: seq<Uuid>, remaining: set<Uuid>) {
    && (forall k :: k in remaining ==> k in store && Selected(sel, store[k]))
    && (forall i :: 0 <= i < |ks| ==> ks[i] in store && Selected(sel, store[ks[i]]) && ks[i] !in remaining)
    && (forall k :: k in store && Selected(sel, store[k]) ==> k in remaining || k in ks)
    && (forall i, j :: 0 <= i < j < |ks| ==> ks[i] != ks[j])
    && (forall i, j :: 0 <= i < j < |ks| ==> Precedes(o, store[ks[i]], store[ks[j]]))
    && (forall i, k :: 0 <= i < |ks| && k in remaining ==> Precedes(o, store[ks[i]], store[k]))
  }

  lemma ListingSortedStep(store: Store, o: Ordering, ks: seq<Uuid>, remaining: set<Uuid>, k: Uuid)
    requires forall i :: 0 <= i < |ks| ==> ks[i] in store
    requires remaining <= store.Keys && k in remaining
    requires forall i, j :: 0 <= i < j < |ks| ==> Precedes(o, store[ks[i]], store[ks[j]])
    requires forall i, j :: 0 <= i < |ks| && j in remaining ==> Precedes(o, store[ks[i]], store[j])
    ensures var ks' := ks + [k]; forall i, j :: 0 <= i < j < |ks'| ==> Precedes(o, store[ks'[i]], store[ks'[j]])
  {
    var ks' := ks + [k];
    forall i, j | 0 <= i < j < |ks'|
      ensures Precedes(o, store[ks'[i]], store[ks'[j]])
    {
      if j < |ks| {
        assert ks'[i] == ks[i] && ks'[j] == ks[j];
      } else {
        assert ks'[j] == k && ks'[i] == ks[i];
      }
    }
  }

  lemma ListingDistinctStep(ks: seq<Uuid>, remaining: set<Uuid>, k: Uuid)
    requires k in remaining && forall i :: 0 <= i < |ks| ==> ks[i] !in remaining
    requires forall i, j :: 0 <= i < j < |ks| ==> ks[i] != ks[j]
    ensures var ks' := ks + [k]; forall i, j :: 0 <= i < j < |ks'| ==> ks'[i] != ks'[j]
  {
    var ks' := ks + [k];
    forall i, j | 0 <= i < j < |ks'|
      ensures ks'[i] != ks'[j]
    {
      if j == |ks| {
        assert ks'[i] == ks[i] && ks[i] !in remaining;
      } else {
        assert ks'[i] == ks[i] && ks'[j] == ks[j];
      }
    }
  }

  lemma ListingStep(store: Store, sel: Selection, o: Ordering, ks: seq<Uuid>, remaining: set<Uuid>, k: Uuid)
    requires ListingInv(store, sel, o, ks, remaining)
    requires remaining <= store.Keys && IsLeast(o, store, remaining, k)
    ensures ListingInv(store, sel, o, ks + [k], remaining - {k})
  {
    ListingSortedStep(store, o, ks, remaining, k);
    ListingDistinctStep(ks, remaining, k);
    var ks' := ks + [k];
    assert forall i :: 0 <= i < |ks| ==> ks'[i] == ks[i];
  }

  /** The uuids of the records `sel` picks, listed in order `o`; ties come
      in any order, as SQLite leaves them unspecified. */
  method ListingKeys(store: Store, sel: Selection, o: Ordering) returns (ks: seq<Uuid>)
    ensures forall i :: 0 <= i < |ks| ==> ks[i] in store && Selected(sel, store[ks[i]])
    ensures forall k :: k in store && Selected(sel, store[k]) ==> k in ks
    ensures forall i, j :: 0 <= i < j < |ks| ==> ks[i] != ks[j]
    ensures forall i, j :: 0 <= i < j < |ks| ==> Precedes(o, store[ks[i]], store[ks[j]])
  {
    var remaining := set k | k in store && Selected(sel, store[k]);
    ks := [];
    while remaining != {}
      invariant ListingInv(store, sel, o, ks, remaining)
      decreases |remaining|
    {
      LeastExists(o, store, remaining);
      var k :| IsLeast(o, store, remaining, k);
      ListingStep(store, sel, o, ks, remaining, k);
      ks := ks + [k];
      remaining := remaining - {k};
    }
  }

  /** The records `sel` picks, listed in order `o`. */
  method Listing(store: Store, sel: Selection, o: Ordering) returns (rs: seq<Reminder>)
    requires WellKeyed(store)
    ensures forall i :: 0 <= i < |rs| ==> rs[i].uuid in store && store[rs[i].uuid] == rs[i] && Selected(sel, rs[i])
    ensures UuidsOf(rs) == set k | k in store && Selected(sel, store[k])
    ensures forall i, j :: 0 <= i < j < |rs| ==> rs[i].uuid != rs[j].uuid
    ensures forall i, j :: 0 <= i < j < |rs| ==> Precedes(o, rs[i], rs[j])
  {
    var ks := ListingKeys(store, sel, o);
    rs := seq(|ks|, i requires 0 <= i < |ks| => store[ks[i]]);
    assert forall i :: 0 <= i < |rs| ==> rs[i].uuid == ks[i];
    forall k | k in store && Selected(sel, store[k])
      ensures k in UuidsOf(rs)
    {
      var i :| 0 <= i < |ks| && ks[i] == k;
      assert rs[i].uuid == k;
    }
  }

  /** `get_all`: every live record, by `sort_order` and newest first. */
  method GetAll(store: Store) returns (rs: seq<Reminder>)
    requires WellKeyed(store)
    ensures forall i :: 0 <= i < |rs| ==> Live(rs[i]) && rs[i].uuid in store && store[rs[i].uuid] == rs[i]
    ensures UuidsOf(rs) == set k | k in store && Live(store[k])
    ensures forall i, j :: 0 <= i < j < |rs| ==> rs[i].uuid != rs[j].uuid
    ensures forall i, j :: 0 <= i < j < |rs| ==>
              rs[i].sortOrder < rs[j].sortOrder || (rs[i].sortOrder == rs[j].sortOrder && rs[i].createdAt >= rs[j].createdAt)
  {
    rs := Listing(store, AllLive, BySortOrderNewest);
  }

  /** `get_enabled_reminders`: exactly the enabled live records, ascending by
      `remind_time`. */
  method GetEnabledReminders(store: Store) returns (rs: seq<Reminder>)
    requires WellKeyed(store)
    ensures forall i :: 0 <= i < |rs| ==> rs[i].isEnabled && Live(rs[i]) && rs[i].uuid in store && store[rs[i].uuid] == rs[i]
    ensures UuidsOf(rs) == set k | k in store && Live(store[k]) && store[k].isEnabled
    ensures forall i, j :: 0 <= i < j < |rs| ==> rs[i].uuid != rs[j].uuid
    ensures forall i, j :: 0 <= i < j < |rs| ==> StrLe(rs[i].remindTime, rs[j].remindTime)
  {
    rs := Listing(store, EnabledLive, ByRemindTime);
  }

  // ---------------------------------------------------------------------
  // Writes

  /** `create`: inserts a record built from the request under the fresh
      identifier `uuid` (the generator's fresh v4 UUID) at time `now`. */
  function Create(store: Store, req: CreateRequest, uuid: Uuid, now: Instant): (res: (Store, Reminder))
    requires uuid !in store
    requires WellKeyed(store)
    ensures var (store', r) := res;
      && store' == store[uuid := r]
      && WellKeyed(store')
      && GetByUuid(store', uuid) == Some(r)
      && r.uuid == uuid
      && r.isEnabled && r.version == 1 && r.syncStatus == Pending && r.sortOrder == 0
      && r.lastTriggeredAt.None? && r.lastCompletedAt.None? && r.deletedAt.None?
      && r.remindType == req.remindType.GetOr(DefaultRemindType)
      && r.remindTime == req.remindTime && r.title == req.title
      && r.createdAt == now && r.updatedAt == now
    // The remaining columns come from the request, with `false` or the
    // empty text for an omitted flag or content.
    ensures var r := res.1;
      && r.userId.None? && r.syncAt.None?
      && r.content == (if req.content.Some? then req.content.value else "")
      && r.links == req.links && r.weekdays == req.weekdays && r.monthdays == req.monthdays
      && r.repeatOnClose == (req.repeatOnClose == Some(true))
      && r.repeatInterval == req.repeatInterval
      && r.isLoop == (req.isLoop == Some(true))
      && r.loopInterval == req.loopInterval
      && r.notifyOnTrigger == (req.notifyOnTrigger == Some(true))
      && r.notifyOnComplete == (req.notifyOnComplete == Some(true))
      && r.notifyOnTimeout == (req.notifyOnTimeout == Some(true))
      && r.timeoutMinutes == req.timeoutMinutes
  {
    var r := Reminder(
      uuid, None, req.title, req.content.GetOr(""), req.links,
      req.remindTime, req.remindType.GetOr(DefaultRemindType), req.weekdays, req.monthdays,
      true, req.repeatOnClose.GetOr(false), req.repeatInterval,
      req.isLoop.GetOr(false), req.loopInterval,
      req.notifyOnTrigger.GetOr(false), req.notifyOnComplete.GetOr(false),
      req.notifyOnTimeout.GetOr(false), req.timeoutMinutes,
      None, None, 0, now, now, None, 1, Pending, None);
    (store[uuid := r], r)
  }

  /** The record after the SET clauses of `update`. */
  function ApplyUpdate(r: Reminder, req: UpdateRequest, now: Instant): Reminder {
    r.(
      title := req.title.GetOr(r.title),
      content := req.content.GetOr(r.content),
      links := if req.links.Some? then req.links else r.links,
      remindTime := req.remindTime.GetOr(r.remindTime),
      lastTriggeredAt := if req.remindTime.Some? then None else r.lastTriggeredAt,
      remindType := req.remindType.GetOr(r.remindType),
      weekdays := if req.weekdays.Some? then req.weekdays else r.weekdays,
      monthdays := if req.monthdays.Some? then req.monthdays else r.monthdays,
      isEnabled := req.isEnabled.GetOr(r.isEnabled),
      repeatOnClose := req.repeatOnClose.GetOr(r.repeatOnClose),
      repeatInterval := if req.repeatInterval.Some? then req.repeatInterval else r.repeatInterval,
      isLoop := req.isLoop.GetOr(r.isLoop),
      loopInterval := if req.loopInterval.Some? then req.loopInterval else r.loopInterval,
      notifyOnTrigger := req.notifyOnTrigger.GetOr(r.notifyOnTrigger),
      notifyOnComplete := req.notifyOnComplete.GetOr(r.notifyOnComplete),
      notifyOnTimeout := req.notifyOnTimeout.GetOr(r.notifyOnTimeout),
      timeoutMinutes := if req.timeoutMinutes.Some? then req.timeoutMinutes else r.timeoutMinutes,
      sortOrder := req.sortOrder.GetOr(r.sortOrder),
      updatedAt := now,
      version := r.version + 1,
      syncStatus := Pending)
  }

  /** `update`: rewrites the live record with the request's uuid, changing
      only the fields the request carries; a new `remind_time` also clears
      `last_triggered_at`. An unknown or deleted uuid changes nothing and
      ends in the failed re-read. */
  function Update(store: Store, req: UpdateRequest, now: Instant): (res: Result<(Store, Reminder), RepoError>)
    requires WellKeyed(store)
    ensures res.Failure? <==> GetByUuid(store, req.uuid).None?
    ensures res.Success? ==> var (store', r) := res.value; var prev := store[req.uuid];
      && store' == store[req.uuid := r]
      && WellKeyed(store')
      && r.uuid == req.uuid && Live(r)
      && r.version == prev.version + 1 && r.syncStatus == Pending && r.updatedAt == now
      && (req.remindTime.Some? ==> r.remindTime == req.remindTime.value && r.lastTriggeredAt.None?)
      && (req.remindTime.None? ==> r.remindTime == prev.remindTime && r.lastTriggeredAt == prev.lastTriggeredAt)
      && (req.isEnabled.Some? ==> r.isEnabled == req.isEnabled.value)
      && (req.isEnabled.None? ==> r.isEnabled == prev.isEnabled)
      && r.lastCompletedAt == prev.lastCompletedAt && r.createdAt == prev.createdAt
    // Each supplied field is written; each absent one keeps its stored value.
    ensures res.Success? ==> var r := res.value.1; var prev := store[req.uuid];
      && (req.title.Some? ==> r.title == req.title.value)
      && (req.title.None? ==> r.title == prev.title)
      && (req.content.Some? ==> r.content == req.content.value)
      && (req.content.None? ==> r.content == prev.content)
      && (req.links.Some? ==> r.links == req.links)
      && (req.links.None? ==> r.links == prev.links)
      && (req.remindType.Some? ==> r.remindType == req.remindType.value)
      && (req.remindType.None? ==> r.remindType == prev.remindType)
      && (req.weekdays.Some? ==> r.weekdays == req.weekdays)
      && (req.weekdays.None? ==> r.weekdays == prev.weekdays)
      && (req.monthdays.Some? ==> r.monthdays == req.monthdays)
      && (req.monthdays.None? ==> r.monthdays == prev.monthdays)
      && (req.sortOrder.Some? ==> r.sortOrder == req.sortOrder.value)
      && (req.sortOrder.None? ==> r.sortOrder == prev.sortOrder)
    ensures res.Success? ==> var r := res.value.1; var prev := store[req.uuid];
      && (req.repeatOnClose.Some? ==> r.repeatOnClose == req.repeatOnClose.value)
      && (req.repeatOnClose.None? ==> r.repeatOnClose == prev.repeatOnClose)
      && (req.repeatInterval.Some? ==> r.repeatInterval == req.repeatInterval)
      && (req.repeatInterval.None? ==> r.repeatInterval == prev.repeatInterval)
      && (req.isLoop.Some? ==> r.isLoop == req.isLoop.value)
      && (req.isLoop.None? ==> r.isLoop == prev.isLoop)
      && (req.loopInterval.Some? ==> r.loopInterval == req.loopInterval)
      && (req.loopInterval.None? ==> r.loopInterval == prev.loopInterval)
      && (req.timeoutMinutes.Some? ==> r.timeoutMinutes == req.timeoutMinutes)
      && (req.timeoutMinutes.None? ==> r.timeoutMinutes == prev.timeoutMinutes)
    ensures res.Success? ==> var r := res.value.1; var prev := store[req.uuid];
      && (req.notifyOnTrigger.Some? ==> r.notifyOnTrigger == req.notifyOnTrigger.value)
      && (req.notifyOnTrigger.None? ==> r.notifyOnTrigger == prev.notifyOnTrigger)
      && (req.notifyOnComplete.Some? ==> r.notifyOnComplete == req.notifyOnComplete.value)
      && (req.notifyOnComplete.None? ==> r.notifyOnComplete == prev.notifyOnComplete)
      && (req.notifyOnTimeout.Some? ==> r.notifyOnTimeout == req.notifyOnTimeout.value)
      && (req.notifyOnTimeout.None? ==> r.notifyOnTimeout == prev.notifyOnTimeout)
  {
    match GetByUuid(store, req.uuid)
    case None => Failure(MissingAfterWrite)
    case Some(prev) =>
      var r := ApplyUpdate(prev, req, now);
      Success((store[req.uuid := r], r))
  }

  /** The request that carries no field at all. */
  function EmptyUpdate(uuid: Uuid): UpdateRequest {
    UpdateRequest(uuid, None, None, None, None, None, None, None, None, None,
                  None, None, None, None, None, None, None, None)
  }

  /** An update carrying no fields touches only the bookkeeping columns. */
  lemma EmptyUpdateOnlyBookkeeping(store: Store, uuid: Uuid, now: Instant)
    requires WellKeyed(store) && GetByUuid(store, uuid).Some?
    ensures var res := Update(store, EmptyUpdate(uuid), now);
      var prev := store[uuid];
      res.Success? && res.value.1 == prev.(updatedAt := now, version := prev.version + 1, syncStatus := Pending)
  {
  }

  /** `soft_delete`: marks the record deleted whether or not it was live
      (the statement has no `deleted_at IS NULL` filter). */
  function SoftDelete(store: Store, uuid: Uuid, now: Instant): (store': Store)
    requires WellKeyed(store)
    ensures WellKeyed(store') && store'.Keys == store.Keys
    ensures GetByUuid(store', uuid).None?
    ensures uuid in store ==> store'[uuid] == store[uuid].(deletedAt := Some(now), updatedAt := now, syncStatus := Pending)
    ensures forall k :: k in store && k != uuid ==> store'[k] == store[k]
  {
    if uuid in store then
      store[uuid := store[uuid].(deletedAt := Some(now), updatedAt := now, syncStatus := Pending)]
    else store
  }

  /** `toggle_enabled`: flips `is_enabled` of a live record. */
  function ToggleEnabled(store: Store, uuid: Uuid, now: Instant): (res: Result<(Store, Reminder), RepoError>)
    requires WellKeyed(store)
    ensures res.Failure? <==> GetByUuid(store, uuid).None?
    ensures res.Success? ==> var (store', r) := res.value;
      && WellKeyed(store') && store'.Keys == store.Keys
      && store'[uuid] == r
      && r.isEnabled == !store[uuid].isEnabled
      && r == store[uuid].(isEnabled := r.isEnabled, updatedAt := now, syncStatus := Pending)
      && forall k :: k in store && k != uuid ==> store'[k] == store[k]
  {
    match GetByUuid(store, uuid)
    case None => Failure(MissingAfterWrite)
    case Some(prev) =>
      var r := prev.(isEnabled := !prev.isEnabled, updatedAt := now, syncStatus := Pending);
      Success((store[uuid := r], r))
  }

  /** Toggling twice restores `is_enabled` and every other field except the
      bookkeeping ones. */
  lemma ToggleTwice(store: Store, uuid: Uuid, t1: Instant, t2: Instant)
    requires WellKeyed(store) && GetByUuid(store, uuid).Some?
    ensures var first := ToggleEnabled(store, uuid, t1);
      first.Success? &&
      var second := ToggleEnabled(first.value.0, uuid, t2);
      second.Success? &&
      second.value.1 == store[uuid].(updatedAt := t2, syncStatus := Pending)
  {
  }

  /** After the first `n` uuids of `UpdateSortOrders`, each handled uuid
      holds its last position among them. */
  predicate SortOrdersPlaced(store: Store, uuids: seq<Uuid>, n: nat, cur: Store)
    requires n <= |uuids| && cur.Keys == store.Keys
  {
    forall i :: 0 <= i < n && uuids[i] in store && uuids[i] !in uuids[i + 1..n] ==> cur[uuids[i]].sortOrder == i
  }

  /** After the first `n` uuids, the handled records changed only in
      `sort_order` and `updated_at`, and the others not at all. */
  predicate SortOrdersFrame(store: Store, uuids: seq<Uuid>, now: Instant, n: nat, cur: Store)
    requires n <= |uuids| && cur.Keys == store.Keys
  {
    && (forall k :: k in store && k in uuids[..n] ==> cur[k] == store[k].(sortOrder := cur[k].sortOrder, updatedAt := now))
    && (forall k :: k in store && k !in uuids[..n] ==> cur[k] == store[k])
  }

  /** Loop invariant of `UpdateSortOrders`. */
  predicate SortOrdersInv(store: Store, uuids: seq<Uuid>, now: Instant, n: nat, cur: Store)
    requires n <= |uuids|
  {
    && WellKeyed(cur) && cur.Keys == store.Keys
    && SortOrdersPlaced(store, uuids, n, cur)
    && SortOrdersFrame(store, uuids, now, n, cur)
  }

  /** The effect of the statement for position `n`. */
  function SetSortOrder(cur: Store, u: Uuid, n: int, now: Instant): (next: Store)
    requires WellKeyed(cur)
    ensures WellKeyed(next) && next.Keys == cur.Keys
    ensures u in cur ==> next[u] == cur[u].(sortOrder := n, updatedAt := now)
    ensures forall k :: k in cur && k != u ==> next[k] == cur[k]
  {
    if u in cur then cur[u := cur[u].(sortOrder := n, updatedAt := now)] else cur
  }

  lemma SortOrdersPlacedStep(store: Store, uuids: seq<Uuid>, now: Instant, n: nat, cur: Store)
    requires n < |uuids| && WellKeyed(cur) && cur.Keys == store.Keys
    requires SortOrdersPlaced(store, uuids, n, cur)
    ensures SortOrdersPlaced(store, uuids, n + 1, SetSortOrder(cur, uuids[n], n, now))
  {
    var u := uuids[n];
    var next := SetSortOrder(cur, u, n, now);
    forall i | 0 <= i < n + 1 && uuids[i] in store && uuids[i] !in uuids[i + 1..n + 1]
      ensures next[uuids[i]].sortOrder == i
    {
      if i < n {
        assert uuids[i + 1..n + 1] == uuids[i + 1..n] + [u];
        assert uuids[i] != u;
      }
    }
  }

  lemma SortOrdersFrameStep(store: Store, uuids: seq<Uuid>, now: Instant, n: nat, cur: Store)
    requires n < |uuids| && WellKeyed(cur) && cur.Keys == store.Keys
    requires SortOrdersFrame(store, uuids, now, n, cur)
    ensures SortOrdersFrame(store, uuids, now, n + 1, SetSortOrder(cur, uuids[n], n, now))
  {
    var u := uuids[n];
    var next := SetSortOrder(cur, u, n, now);
    assert uuids[..n + 1] == uuids[..n] + [u];
    forall k | k in store && k in uuids[..n + 1]
      ensures next[k] == store[k].(sortOrder := next[k].sortOrder, updatedAt := now)
    {
      if k != u {
        assert k in uuids[..n];
      }
    }
  }

  lemma SortOrdersStep(store: Store, uuids: seq<Uuid>, now: Instant, n: nat, cur: Store)
    requires n < |uuids| && WellKeyed(store)
    requires SortOrdersInv(store, uuids, now, n, cur)
    ensures SortOrdersInv(store, uuids, now, n + 1, SetSortOrder(cur, uuids[n], n, now))
  {
    SortOrdersPlacedStep(store, uuids, now, n, cur);
    SortOrdersFrameStep(store, uuids, now, n, cur);
  }

  /** `update_sort_orders`: the record of each listed uuid gets its position
      in the list as `sort_order` (its last position, if listed twice).
      Unknown uuids are skipped; deleted records are updated too. */
  method UpdateSortOrders(store: Store, uuids: seq<Uuid>, now: Instant) returns (store': Store)
    requires WellKeyed(store)
    ensures WellKeyed(store') && store'.Keys == store.Keys
    ensures forall i :: 0 <= i < |uuids| && uuids[i] in store && uuids[i] !in uuids[i + 1..] ==>
              store'[uuids[i]].sortOrder == i
    ensures forall k :: k in store && k in uuids ==>
              store'[k] == store[k].(sortOrder := store'[k].sortOrder, updatedAt := now)
    ensures forall k :: k in store && k !in uuids ==> store'[k] == store[k]
  {
    store' := store;
    var n := 0;
    while n < |uuids|
      invariant 0 <= n <= |uuids|
      invariant SortOrdersInv(store, uuids, now, n, store')
    {
      SortOrdersStep(store, uuids, now, n, store');
      store' := SetSortOrder(store', uuids[n], n, now);
      n := n + 1;
    }
    assert uuids[..n] == uuids;
  }

  /** `update_triggered_at`: stamps `last_triggered_at` and `updated_at` and
      nothing else (no live filter, no version bump). */
  function UpdateTriggeredAt(store: Store, uuid: Uuid, now: Instant): (store': Store)
    requires WellKeyed(store)
    ensures WellKeyed(store') && store'.Keys == store.Keys
    ensures uuid in store ==> store'[uuid] == store[uuid].(lastTriggeredAt := Some(now), updatedAt := now)
    ensures forall k :: k in store && k != uuid ==> store'[k] == store[k]
  {
    if uuid in store then store[uuid := store[uuid].(lastTriggeredAt := Some(now), updatedAt := now)]
    else store
  }

  /** `update_completed_at`: stamps `last_completed_at` and `updated_at` and
      nothing else. */
  function UpdateCompletedAt(store: Store, uuid: Uuid, now: Instant): (store': Store)
    requires WellKeyed(store)
    ensures WellKeyed(store') && store'.Keys == store.Keys
    ensures uuid in store ==> store'[uuid] == store[uuid].(lastCompletedAt := Some(now), updatedAt := now)
    ensures forall k :: k in store && k != uuid ==> store'[k] == store[k]
  {
    if uuid in store then store[uuid := store[uuid].(lastCompletedAt := Some(now), updatedAt := now)]
    else store
  }
}
