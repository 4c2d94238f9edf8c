/** The reminder record of `models/reminder.rs`: its enums with their string
    codecs, links and their validation, and the create/update requests. */
module ReminderModel {
  import opened Wrappers
  import opened TimeUtils

  /** A reminder's stable identifier (a v4 UUID string). */
  type Uuid = string

  /** Day selectors are stored as `u8`. */
  type u8 = x: int | 0 <= x < 256

  datatype RemindType = Daily | Once | Weekday | Monthly

  /** `RemindType::default()`. */
  const DefaultRemindType: RemindType := Daily

  /** `RemindType::as_str`. */
  function RemindTypeAsStr(t: RemindType): string {
    match t
    case Daily => "daily"
    case Once => "once"
    case Weekday => "weekday"
    case Monthly => "monthly"
  }

  /** `RemindType::from_str`: the three non-default names decode to their
      variant, every other string to `Daily`. */
  function RemindTypeFromStr(s: string): (t: RemindType)
    ensures t == Once <==> s == "once"
    ensures t == Weekday <==> s == "weekday"
    ensures t == Monthly <==> s == "monthly"
    ensures t == Daily <==> s !in {"once", "weekday", "monthly"}
  {
    if s == "once" then Once
    else if s == "weekday" then Weekday
    else if s == "monthly" then Monthly
    else Daily
  }

  lemma RemindTypeRoundTrip(t: RemindType)
    ensures RemindTypeFromStr(RemindTypeAsStr(t)) == t
  {
  }

  lemma RemindTypeAsStrInjective(a: RemindType, b: RemindType)
    requires RemindTypeAsStr(a) == RemindTypeAsStr(b)
    ensures a == b
  {
    RemindTypeRoundTrip(a);
    RemindTypeRoundTrip(b);
  }

  /** Unrecognised text decodes to the default type. */
  lemma RemindTypeUnknownIsDefault(s: string)
    requires forall t: RemindType :: s != RemindTypeAsStr(t)
    ensures RemindTypeFromStr(s) == DefaultRemindType
  {
    assert s != RemindTypeAsStr(Once) && s != RemindTypeAsStr(Weekday) && s != RemindTypeAsStr(Monthly);
  }

  datatype SyncStatus = Pending | Synced | Conflict

  /** `SyncStatus::default()`. */
  const DefaultSyncStatus: SyncStatus := Pending

  /** `SyncStatus::as_str`. */
  function SyncStatusAsStr(s: SyncStatus): string {
    match s
    case Pending => "pending"
    case Synced => "synced"
    case Conflict => "conflict"
  }

  /** `SyncStatus::from_str`: unknown text decodes to `Pending`. */
  function SyncStatusFromStr(s: string): (r: SyncStatus)
    ensures r == Synced <==> s == "synced"
    ensures r == Conflict <==> s == "conflict"
    ensures r == Pending <==> s !in {"synced", "conflict"}
  {
    if s == "synced" then Synced
    else if s == "conflict" then Conflict
    else Pending
  }

  lemma SyncStatusRoundTrip(s: SyncStatus)
    ensures SyncStatusFromStr(SyncStatusAsStr(s)) == s
  {
  }

  lemma SyncStatusAsStrInjective(a: SyncStatus, b: SyncStatus)
    requires SyncStatusAsStr(a) == SyncStatusAsStr(b)
    ensures a == b
  {
    SyncStatusRoundTrip(a);
    SyncStatusRoundTrip(b);
  }

  lemma SyncStatusUnknownIsDefault(s: string)
    requires forall t: SyncStatus :: s != SyncStatusAsStr(t)
    ensures SyncStatusFromStr(s) == DefaultSyncStatus
  {
    assert s != SyncStatusAsStr(Synced) && s != SyncStatusAsStr(Conflict);
  }

  datatype ReminderLink = ReminderLink(name: string, url: string)

  /** At most this many links may be attached to a reminder. */
  const MaxLinks: nat := 3

  /** `ReminderLink::validate_links`: rejects a link list longer than three,
      accepts everything else including no list at all. */
  function ValidateLinks(links: Option<seq<ReminderLink>>): (r: Result<(), string>)
    ensures r.Failure? <==> links.Some? && |links.value| > MaxLinks
  {
    match links
    case Some(list) =>
      if |list| > MaxLinks then Failure("链接数量不能超过3个")
      else Success(())
    case None => Success(())
  }

  /** A reminder as stored. Timestamps are instants; the SQL row id and the
      JSON encoding of the list columns are not modelled. */
  datatype Reminder = Reminder(
    uuid: Uuid,
    userId: Option<string>,
    title: string,
    content: string,
    links: Option<seq<ReminderLink>>,
    remindTime: string,
    remindType: RemindType,
    weekdays: Option<seq<u8>>,
    monthdays: Option<seq<u8>>,
    isEnabled: bool,
    repeatOnClose: bool,
    repeatInterval: Option<int>,
    isLoop: bool,
    loopInterval: Option<int>,
    notifyOnTrigger: bool,
    notifyOnComplete: bool,
    notifyOnTimeout: bool,
    timeoutMinutes: Option<int>,
    lastTriggeredAt: Option<Instant>,
    lastCompletedAt: Option<Instant>,
    sortOrder: int,
    createdAt: Instant,
    updatedAt: Instant,
    deletedAt: Option<Instant>,
    version: int,
    syncStatus: SyncStatus,
    syncAt: Option<Instant>)

  /** `CreateReminderRequest`: omitted optional fields take defaults. */
  datatype CreateRequest = CreateRequest(
    title: string,
    content: Option<string>,
    links: Option<seq<ReminderLink>>,
    remindTime: string,
    remindType: Option<RemindType>,
    weekdays: Option<seq<u8>>,
    monthdays: Option<seq<u8>>,
    repeatOnClose: Option<bool>,
    repeatInterval: Option<int>,
    isLoop: Option<bool>,
    loopInterval: Option<int>,
    notifyOnTrigger: Option<bool>,
    notifyOnComplete: Option<bool>,
    notifyOnTimeout: Option<bool>,
    timeoutMinutes: Option<int>)

  /** `UpdateReminderRequest`: a field that is `None` is left as it is. */
  datatype UpdateRequest = UpdateRequest(
    uuid: Uuid,
    title: Option<string>,
    content: Option<string>,
    links: Option<seq<ReminderLink>>,
    remindTime: Option<string>,
    remindType: Option<RemindType>,
    weekdays: Option<seq<u8>>,
    monthdays: Option<seq<u8>>,
    isEnabled: Option<bool>,
    repeatOnClose: Option<bool>,
    repeatInterval: Option<int>,
    isLoop: Option<bool>,
    loopInterval: Option<int>,
    notifyOnTrigger: Option<bool>,
    notifyOnComplete: Option<bool>,
    notifyOnTimeout: Option<bool>,
    timeoutMinutes: Option<int>,
    sortOrder: Option<int>)
}
