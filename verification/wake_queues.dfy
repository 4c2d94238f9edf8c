/** The scheduler's three wake queues of `scheduler/manager.rs` (snooze,
    loop and timeout): maps keyed by reminder uuid, with upsert, remove and
    the drain that takes out every entry whose wake time has come. */
module WakeQueues {
  import opened TimeUtils
  import opened ReminderModel

  /** A pending snooze: fire again at `snoozeUntil`. */
  datatype SnoozeItem = SnoozeItem(reminderUuid: Uuid, snoozeUntil: Instant, originalTriggeredAt: Instant)

  /** A pending loop repetition: fire again at `nextLoopAt`. */
  datatype LoopItem = LoopItem(reminderUuid: Uuid, nextLoopAt: Instant, originalTriggeredAt: Instant)

  /** A pending timeout check: the occurrence fired at `triggeredAt` times
      out `timeoutMinutes` later. */
  datatype TimeoutItem = TimeoutItem(triggeredAt: Instant, timeoutMinutes: int)

  type Queue<T> = map<Uuid, T>

  function SnoozeWake(i: SnoozeItem): Instant { i.snoozeUntil }

  function SnoozeKey(i: SnoozeItem): Uuid { i.reminderUuid }

  function LoopKey(i: LoopItem): Uuid { i.reminderUuid }

  function LoopWake(i: LoopItem): Instant { i.nextLoopAt }

  /** A timeout entry is due at its deadline `triggered_at + timeout_minutes`. */
  function TimeoutWake(i: TimeoutItem): Instant { i.triggeredAt + i.timeoutMinutes }

  /** `HashMap::insert`: the key now maps to `v`, whether or not it was
      present; every other entry is kept. */
  function Upsert<T>(q: Queue<T>, k: Uuid, v: T): (q': Queue<T>)
    ensures q'.Keys == q.Keys + {k} && q'[k] == v
    ensures forall j :: j in q && j != k ==> q'[j] == q[j]
  {
    q[k := v]
  }

  /** `HashMap::remove`: the key is gone and every other entry is kept. */
  function Remove<T>(q: Queue<T>, k: Uuid): (q': Queue<T>)
    ensures q'.Keys == q.Keys - {k}
    ensures forall j :: j in q' ==> q'[j] == q[j]
  {
    q - {k}
  }

  /** A second upsert of the same key replaces the first. */
  lemma UpsertReplaces<T>(q: Queue<T>, k: Uuid, a: T, b: T)
    ensures Upsert(Upsert(q, k, a), k, b) == Upsert(q, k, b)
  {
  }

  lemma RemoveIdempotent<T>(q: Queue<T>, k: Uuid)
    ensures Remove(Remove(q, k), k) == Remove(q, k)
  {
  }

  /** Removing an absent key changes nothing. */
  lemma RemoveAbsent<T>(q: Queue<T>, k: Uuid)
    requires k !in q
    ensures Remove(q, k) == q
  {
  }

  /** `add_snooze`: fire again `minutes` after `now`, remembering the
      occurrence it belongs to. */
  function AddSnooze(q: Queue<SnoozeItem>, uuid: Uuid, minutes: int, triggeredAt: Instant, now: Instant): (q': Queue<SnoozeItem>)
    ensures uuid in q' && SnoozeWake(q'[uuid]) == now + minutes && q'[uuid].originalTriggeredAt == triggeredAt
    ensures q'.Keys == q.Keys + {uuid}
    ensures forall j :: j in q && j != uuid ==> q'[j] == q[j]
  {
    Upsert(q, uuid, SnoozeItem(uuid, now + minutes, triggeredAt))
  }

  /** `add_loop`: repeat `intervalMinutes` after `now`. */
  function AddLoop(q: Queue<LoopItem>, uuid: Uuid, intervalMinutes: int, triggeredAt: Instant, now: Instant): (q': Queue<LoopItem>)
    ensures uuid in q' && LoopWake(q'[uuid]) == now + intervalMinutes && q'[uuid].originalTriggeredAt == triggeredAt
    ensures q'.Keys == q.Keys + {uuid}
    ensures forall j :: j in q && j != uuid ==> q'[j] == q[j]
  {
    Upsert(q, uuid, LoopItem(uuid, now + intervalMinutes, triggeredAt))
  }

  /** `add_timeout_check`: the occurrence starting `now` times out
      `timeoutMinutes` later. */
  function AddTimeoutCheck(q: Queue<TimeoutItem>, uuid: Uuid, timeoutMinutes: int, now: Instant): (q': Queue<TimeoutItem>)
    ensures uuid in q' && TimeoutWake(q'[uuid]) == now + timeoutMinutes
    ensures q'.Keys == q.Keys + {uuid}
    ensures forall j :: j in q && j != uuid ==> q'[j] == q[j]
  {
    Upsert(q, uuid, TimeoutItem(now, timeoutMinutes))
  }

  // ---------------------------------------------------------------------
  // Draining

  function KeysOf<T>(es: seq<(Uuid, T)>): set<Uuid> {
    set i | 0 <= i < |es| :: es[i].0
  }

  /** The keys whose entries are due at `now`. */
  function ExpiredKeys<T>(q: Queue<T>, wake: T -> Instant, now: Instant): set<Uuid> {
    set k | k in q && wake(q[k]) <= now
  }

  predicate DistinctKeys<T>(es: seq<(Uuid, T)>) {
    forall i, j :: 0 <= i < j < |es| ==> es[i].0 != es[j].0
  }

  /** Every drained pair is an entry of `q` that was due. */
  predicate DrainedFrom<T(==)>(q: Queue<T>, wake: T -> Instant, now: Instant, es: seq<(Uuid, T)>) {
    forall i :: 0 <= i < |es| ==> es[i].0 in q && es[i].1 == q[es[i].0] && wake(es[i].1) <= now
  }

  /** While draining: `todo` is the part of the snapshot not yet removed. */
  predicate DrainInv<T(==)>(q: Queue<T>, wake: T -> Instant, now: Instant,
                            todo: set<Uuid>, expired: seq<(Uuid, T)>, rest: Queue<T>) {
    && todo <= ExpiredKeys(q, wake, now)
    && KeysOf(expired) == ExpiredKeys(q, wake, now) - todo
    && DistinctKeys(expired)
    && DrainedFrom(q, wake, now, expired)
    && rest.Keys == q.Keys - KeysOf(expired)
    && (forall k :: k in rest ==> rest[k] == q[k])
  }

  lemma DrainStep<T>(q: Queue<T>, wake: T -> Instant, now: Instant,
                         todo: set<Uuid>, expired: seq<(Uuid, T)>, rest: Queue<T>, k: Uuid)
    requires DrainInv(q, wake, now, todo, expired, rest)
    requires k in todo
    ensures k in rest
    ensures DrainInv(q, wake, now, todo - {k}, expired + [(k, rest[k])], Remove(rest, k))
  {
    var expired' := expired + [(k, rest[k])];
    assert k !in KeysOf(expired);
    assert KeysOf(expired') == KeysOf(expired) + {k} by {
      forall u | u in KeysOf(expired')
        ensures u in KeysOf(expired) + {k}
      {
        var i :| 0 <= i < |expired'| && expired'[i].0 == u;
        if i < |expired| {
          assert expired[i].0 == u;
        }
      }
      forall u | u in KeysOf(expired)
        ensures u in KeysOf(expired')
      {
        var i :| 0 <= i < |expired| && expired[i].0 == u;
        assert expired'[i].0 == u;
      }
      assert expired'[|expired|].0 == k;
    }
    assert DistinctKeys(expired') by {
      forall i, j | 0 <= i < j < |expired'|
        ensures expired'[i].0 != expired'[j].0
      {
        if j == |expired| {
          assert expired'[i].0 == expired[i].0;
          assert expired[i].0 in KeysOf(expired);
        }
      }
    }
  }

  /** The drain of `check_snooze_queue`, `check_loop_queue` and
      `check_timeout_queue`: snapshot the keys whose wake time is at or
      before `now`, then remove each and collect what was removed. The
      snapshot is a hash-map enumeration, so the order is unspecified. */
  method DrainExpired<T(==)>(q: Queue<T>, wake: T -> Instant, now: Instant) returns (expired: seq<(Uuid, T)>, rest: Queue<T>)
    ensures KeysOf(expired) == ExpiredKeys(q, wake, now)
    ensures DistinctKeys(expired)
    ensures DrainedFrom(q, wake, now, expired)
    ensures forall k :: k in rest <==> k in q && now < wake(q[k])
    ensures forall k :: k in rest ==> rest[k] == q[k]
  {
    var todo := ExpiredKeys(q, wake, now);
    expired := [];
    rest := q;
    while todo != {}
      invariant DrainInv(q, wake, now, todo, expired, rest)
      decreases |todo|
    {
      var k :| k in todo;
      DrainStep(q, wake, now, todo, expired, rest, k);
      expired := expired + [(k, rest[k])];
      rest := Remove(rest, k);
      todo := todo - {k};
    }
  }
}
