/** The occurrence log record of `models/reminder_log.rs` and its action
    codec. */
module ReminderLogModel {
  import opened Wrappers
  import opened TimeUtils
  import opened ReminderModel

  datatype LogAction = Triggered | Completed | Dismissed | Snoozed

  /** `LogAction::as_str`. */
  function LogActionAsStr(a: LogAction): string {
    match a
    case Triggered => "triggered"
    case Completed => "completed"
    case Dismissed => "dismissed"
    case Snoozed => "snoozed"
  }

  /** `LogAction::from_str`: unknown text decodes to `Triggered`. */
  function LogActionFromStr(s: string): (a: LogAction)
    ensures a == Completed <==> s == "completed"
    ensures a == Dismissed <==> s == "dismissed"
    ensures a == Snoozed <==> s == "snoozed"
    ensures a == Triggered <==> s !in {"completed", "dismissed", "snoozed"}
  {
    if s == "completed" then Completed
    else if s == "dismissed" then Dismissed
    else if s == "snoozed" then Snoozed
    else Triggered
  }

  lemma LogActionRoundTrip(a: LogAction)
    ensures LogActionFromStr(LogActionAsStr(a)) == a
  {
  }

  /** The four actions have four distinct names. */
  lemma LogActionAsStrInjective(a: LogAction, b: LogAction)
    requires LogActionAsStr(a) == LogActionAsStr(b)
    ensures a == b
  {
    LogActionRoundTrip(a);
    LogActionRoundTrip(b);
  }

  lemma LogActionUnknownIsTriggered(s: string)
    requires forall a: LogAction :: s != LogActionAsStr(a)
    ensures LogActionFromStr(s) == Triggered
  {
    assert s != LogActionAsStr(Completed) && s != LogActionAsStr(Dismissed) && s != LogActionAsStr(Snoozed);
  }

  /** A log record's own identifier. The repository hands these out from a
      counter, standing in for fresh v4 UUIDs. */
  type LogId = nat

  /** One immutable occurrence-log record. */
  datatype ReminderLog = ReminderLog(
    id: LogId,
    reminderUuid: Uuid,
    action: LogAction,
    triggeredAt: Instant,
    actionAt: Option<Instant>,
    snoozeUntil: Option<Instant>,
    note: Option<string>,
    createdAt: Instant,
    syncStatus: SyncStatus,
    syncAt: Option<Instant>)
}
