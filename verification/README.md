# notice — scheduling and occurrence lifecycle, modelled in Dafny

`notice` is a desktop reminder application: a Tauri shell with a Rust
back end that stores reminders in SQLite and wakes once a minute to fire
the due ones. This project models the engine of that back end.

- **The per-minute tick** (`scheduler/manager.rs`) runs four steps in order:
  - the regular check. It fires every enabled reminder whose `HH:MM` matches
    the current local minute and whose type rule holds: daily, once, chosen
    weekdays, or chosen days of the month with the end-of-month clamp;
  - then the three wake queues:
    - snooze;
    - loop repetitions;
    - timeout checks.
- **A firing** (`trigger_reminder_internal`) does the following:
  - flashes the tray;
  - stamps the reminder on the regular path;
  - appends a `triggered` log record;
  - opens the popup;
  - arms the timeout and loop queues;
  - may push a notification.
- **The user commands** complete, snooze and dismiss close or postpone an
  occurrence. They log what happened and rearrange the queues.
- **The stores** (`storage/reminder_repo.rs`, `storage/reminder_log_repo.rs`)
  are modelled as:
  - a map from uuid to reminder record, with soft deletion;
  - an append-only log of occurrence records.
- **Helpers:**
  - the enum codecs;
  - link validation;
  - `HH:MM` parsing and `minutes_until`;
  - `get_next_reminder`.

The state of the engine is one `Scheduler.World`. It holds:
- the reminder store;
- the log;
- the three queues;
- the sequence of outside effects performed so far: tray flash, popup,
  push-notification attempt and frontend event.

Each operation is a function or method from a world to a world. Time is a
parameter:
- an instant is a whole number of minutes;
- `Zone` maps an instant to the local date and time.

Where the source enumerates a hash map or leaves an SQL ordering tie open,
the model uses a method that may pick any order. Its contract holds for
every order.

Modules, in dependency order:
- `Wrappers`;
- `Text`;
- `Calendar`;
- `TimeUtils`;
- `ReminderModel`;
- `ReminderLogModel`;
- `ReminderRepo`;
- `ReminderLogRepo`;
- `WakeQueues`;
- `DueCheck`;
- `Scheduler`;
- `SettingsService`.

Behaviour that follows the code:
- **Dismiss.** A dismiss of a reminder with `repeat_on_close` set but no
  `repeat_interval` removes the snooze entry and keeps the loop entry. The
  removal of the snooze entry comes before the branch, at
  `manager.rs:517`. A plain reading of the option ("repeat on close")
  would leave both alone.
- **Timeout replay.** The timeout replay handles every drained reminder
  that is still live, whether it is enabled or not.
- **Snooze and loop replays.** These fire only live, enabled reminders.

## Model

| member | source | states |
|---|---|---|
| Calendar.FromYmd | src-tauri/src/scheduler/manager.rs:211-215 | chrono builds a date exactly when the month and day exist in the Gregorian calendar and the year is inside chrono's range |
| Calendar.Pred | src-tauri/src/scheduler/manager.rs:217-218 | the day before a representable date; there is none only for the first representable day |
| Calendar.LastDayOfMonth | src-tauri/src/scheduler/manager.rs:207-221 | inside chrono's range, the value equals the Gregorian month length, 31 for December, and 31 for month 0 (the day before January 1); the fallback 28 is taken exactly when a needed date cannot be built |
| Calendar.LastDayOfMonthGregorian | src-tauri/src/scheduler/manager.rs:207-221 | for real months: 31 exactly for months 1, 3, 5, 7, 8, 10 and 12; 30 exactly for 4, 6, 9 and 11; February gives 29 exactly in leap years |
| Calendar.LastDayIsLast | src-tauri/src/scheduler/manager.rs:207-221 | the day returned exists, and the day after it does not |
| Calendar.YearLength | src-tauri/src/scheduler/manager.rs:135 | the day count behind the weekday advances 366 days over a leap year and 365 over any other |
| Calendar.WeekdayAdvances | src-tauri/src/scheduler/manager.rs:135 | the ISO weekday of each date is its predecessor's weekday plus one, wrapping Sunday to Monday |
| Calendar.KnownWeekdays | src-tauri/src/scheduler/manager.rs:135 | anchors the weekday numbering: 2024-01-01 is 1 (Monday) and 2000-01-01 is 6 (Saturday) |
| TimeUtils.FormatHHMM | src-tauri/src/utils/time.rs:9-11 | `%H:%M` of a valid time is five characters with the colon at index 2 |
| TimeUtils.ScanNumber | src-tauri/src/utils/time.rs:4-6 | a field is read exactly when the text starts with a digit; it consumes one or two characters and returns the unread rest |
| TimeUtils.ScanNumberReads | src-tauri/src/utils/time.rs:4-6 | the consumed characters are digits, two whenever two are there, and the value read is the number they denote |
| TimeUtils.ParseTime | src-tauri/src/utils/time.rs:4-6 | a parse succeeds only with a valid hour and minute, three to five characters and a colon after the first or second character |
| TimeUtils.ParseFormatRoundTrip | src-tauri/src/utils/time.rs:4-11 | every formatted `HH:MM` parses back to the same time |
| TimeUtils.FormatInjective | src-tauri/src/utils/time.rs:9-11 | distinct times of day format to distinct text |
| TimeUtils.ParseTimeExamples | src-tauri/src/utils/time.rs:4-6 | "9:05" and "23:59" parse; "24:00", "12:60", "12:345" and "" do not |
| TimeUtils.MinutesUntil | src-tauri/src/utils/time.rs:14-29 | fails exactly when parsing fails; otherwise the answer is between 1 and 1440, and adding it to the current minute lands on the target time of day; the current minute gives a full day, and a later time gives the plain difference |
| TimeUtils.MinutesAhead | src-tauri/src/utils/time.rs:21-28 | between 1 and 1440 minutes, landing on the target minute of the day modulo a day; a full day for the current minute and the plain difference for a later one |
| Text.StrLeTotal | src-tauri/src/services/settings_service.rs:62-63 | the string order used for `remind_time` is total |
| Text.StrLeTransitive | src-tauri/src/services/settings_service.rs:62-63 | the string order is transitive |
| Text.StrLeAntisymmetric | src-tauri/src/services/settings_service.rs:62-63 | two strings each ordered before the other are equal |
| Text.StrLtIsStrict | src-tauri/src/services/settings_service.rs:62 | `a < b` holds exactly when `a <= b` and the two strings differ |
| Text.NatToDecimalValue | src-tauri/src/scheduler/manager.rs:482 | the decimal text written for a number reads back as that number |
| Text.IntToDecimal | src-tauri/src/scheduler/manager.rs:482 | the rendering starts with `-` exactly for negative numbers, and the digits after the sign read back as the number's absolute value |
| ReminderModel.RemindTypeFromStr | src-tauri/src/models/reminder.rs:30-37 | "once", "weekday" and "monthly" decode to their variants; every other text decodes to Daily |
| ReminderModel.RemindTypeRoundTrip | src-tauri/src/models/reminder.rs:21-37 | decoding an encoded type gives the type back |
| ReminderModel.RemindTypeAsStrInjective | src-tauri/src/models/reminder.rs:21-28 | the four types have four distinct names |
| ReminderModel.RemindTypeUnknownIsDefault | src-tauri/src/models/reminder.rs:14-18 | text that is no type's name decodes to the default type |
| ReminderModel.SyncStatusFromStr | src-tauri/src/models/reminder.rs:64-70 | "synced" and "conflict" decode to their variants; every other text decodes to Pending |
| ReminderModel.SyncStatusRoundTrip | src-tauri/src/models/reminder.rs:56-70 | decoding an encoded status gives it back |
| ReminderModel.SyncStatusAsStrInjective | src-tauri/src/models/reminder.rs:56-62 | the three statuses have distinct names |
| ReminderModel.SyncStatusUnknownIsDefault | src-tauri/src/models/reminder.rs:49-53 | unknown text decodes to the default status |
| ReminderModel.ValidateLinks | src-tauri/src/models/reminder.rs:81-88 | rejects exactly a present list of more than three links |
| ReminderLogModel.LogActionFromStr | src-tauri/src/models/reminder_log.rs:25-32 | "completed", "dismissed" and "snoozed" decode to their variants; everything else decodes to Triggered |
| ReminderLogModel.LogActionRoundTrip | src-tauri/src/models/reminder_log.rs:16-32 | decoding an encoded action gives it back |
| ReminderLogModel.LogActionAsStrInjective | src-tauri/src/models/reminder_log.rs:16-23 | the four actions have four distinct names |
| ReminderLogModel.LogActionUnknownIsTriggered | src-tauri/src/models/reminder_log.rs:25-32 | text that names no action decodes to Triggered |
| ReminderRepo.GetByUuid | src-tauri/src/storage/reminder_repo.rs:73-84 | finds a record exactly when the uuid is stored and not soft-deleted, and returns that stored record |
| ReminderRepo.LeastExists | src-tauri/src/storage/reminder_repo.rs:61-71 | every non-empty set of records has a first one under either ORDER BY of the repository |
| ReminderRepo.ListingKeys | src-tauri/src/storage/reminder_repo.rs:61-71 | lists exactly the selected uuids, each once, in the requested order (ties in any order) |
| ReminderRepo.Listing | src-tauri/src/storage/reminder_repo.rs:61-71 | lists exactly the selected stored records, each once, in the requested order |
| ReminderRepo.GetAll | src-tauri/src/storage/reminder_repo.rs:61-71 | returns exactly the live records, each once, by ascending `sort_order` and then newest first |
| ReminderRepo.GetEnabledReminders | src-tauri/src/storage/reminder_repo.rs:284-294 | returns exactly the live enabled records, each once, in ascending `remind_time` |
| ReminderRepo.Create | src-tauri/src/storage/reminder_repo.rs:86-126 | inserts one live, enabled record under the fresh uuid with version 1, sort order 0, the defaulted type and no stamps; every other column comes from the request, with `false` or empty content when omitted; nothing else changes |
| ReminderRepo.Update | src-tauri/src/storage/reminder_repo.rs:128-219 | fails exactly for a missing or deleted uuid; otherwise it replaces only that record and bumps its version; each of the eighteen request fields is written when supplied and kept when absent, and `last_triggered_at` is cleared exactly when a new time is supplied |
| ReminderRepo.EmptyUpdateOnlyBookkeeping | src-tauri/src/storage/reminder_repo.rs:128-219 | an update with no fields changes only `updated_at`, `version` and `sync_status` |
| ReminderRepo.SoftDelete | src-tauri/src/storage/reminder_repo.rs:221-231 | the record becomes invisible to `get_by_uuid`, keeps its other fields, and no other record changes |
| ReminderRepo.ToggleEnabled | src-tauri/src/storage/reminder_repo.rs:233-244 | fails exactly for a missing or deleted uuid; otherwise it flips `is_enabled` of that record only |
| ReminderRepo.ToggleTwice | src-tauri/src/storage/reminder_repo.rs:233-244 | toggling twice restores the record except for its bookkeeping fields |
| ReminderRepo.UpdateSortOrders | src-tauri/src/storage/reminder_repo.rs:246-258 | each listed stored uuid gets its last position in the list as `sort_order`; listed records change only in `sort_order` and `updated_at`, and unlisted ones do not change |
| ReminderRepo.UpdateTriggeredAt | src-tauri/src/storage/reminder_repo.rs:260-270 | stamps `last_triggered_at` and `updated_at` of that record only |
| ReminderRepo.UpdateCompletedAt | src-tauri/src/storage/reminder_repo.rs:272-282 | stamps `last_completed_at` and `updated_at` of that record only |
| ReminderLogRepo.Create | src-tauri/src/storage/reminder_log_repo.rs:38-68 | appends exactly one record with a fresh id and the given fields, stamped with `action_at` now; the record can be found by its id |
| ReminderLogRepo.CreateTriggered | src-tauri/src/storage/reminder_log_repo.rs:71-92 | appends one `triggered` record for now, with the given note and no `action_at` or `snooze_until` |
| ReminderLogRepo.GetByUuid | src-tauri/src/storage/reminder_log_repo.rs:95-104 | finds a record with that id exactly when one is stored |
| ReminderLogRepo.FilterAppend | src-tauri/src/storage/reminder_log_repo.rs:120-161 | filtering a log with one more record appends that record exactly when the filter keeps it |
| ReminderLogRepo.GetByReminderUuid | src-tauri/src/storage/reminder_log_repo.rs:107-117 | returns all and only that reminder's records, each as often as it is stored, newest first |
| ReminderLogRepo.TakeDescending | src-tauri/src/storage/reminder_log_repo.rs:120-161 | takes at most the limit's worth of the pool, greatest keys first; nothing left behind has a greater key than anything taken |
| ReminderLogRepo.Query | src-tauri/src/storage/reminder_log_repo.rs:120-161 | returns only records meeting every filter, none more often than it is stored, latest first; there are `min(limit, matches)` of them under a non-negative limit and every match otherwise; no match left out is later than one returned |
| ReminderLogRepo.GetLatestTriggered | src-tauri/src/storage/reminder_log_repo.rs:164-177 | returns a `triggered` record of that reminder with the greatest occurrence time, or nothing exactly when there is none |
| ReminderLogRepo.DeleteWhere | src-tauri/src/storage/reminder_log_repo.rs:180-191 | the records the condition keeps stay as often as they were stored; the others are gone |
| ReminderLogRepo.Delete | src-tauri/src/storage/reminder_log_repo.rs:180-184 | removes exactly the records with that id; every other record keeps its multiplicity |
| ReminderLogRepo.DeleteByReminderUuid | src-tauri/src/storage/reminder_log_repo.rs:187-191 | removes exactly that reminder's records; every other record keeps its multiplicity |
| ReminderLogRepo.GetTodayCompletedCount | src-tauri/src/storage/reminder_log_repo.rs:194-207 | counts exactly the reminder's `completed` records whose occurrence date is today |
| WakeQueues.Upsert | src-tauri/src/scheduler/manager.rs:43-55 | the key maps to the new entry and every other entry is kept |
| WakeQueues.Remove | src-tauri/src/scheduler/manager.rs:58-61 | the key is gone and every other entry is kept |
| WakeQueues.UpsertReplaces | src-tauri/src/scheduler/manager.rs:43-55 | a second insert under the same key replaces the first |
| WakeQueues.RemoveIdempotent | src-tauri/src/scheduler/manager.rs:58-61 | removing twice is removing once |
| WakeQueues.RemoveAbsent | src-tauri/src/scheduler/manager.rs:76-79 | removing an absent key changes nothing |
| WakeQueues.AddSnooze | src-tauri/src/scheduler/manager.rs:43-55 | the reminder wakes `minutes` after now and remembers its occurrence; other entries are kept |
| WakeQueues.AddLoop | src-tauri/src/scheduler/manager.rs:64-73 | the reminder repeats one interval after now and remembers its occurrence; other entries are kept |
| WakeQueues.AddTimeoutCheck | src-tauri/src/scheduler/manager.rs:82-85 | the reminder's deadline is now plus the timeout; other entries are kept |
| WakeQueues.DrainExpired | src-tauri/src/scheduler/manager.rs:239-252 | takes out each entry whose wake time is at or before now, each once; it keeps the others untouched |
| DueCheck.DueAtItsTime | src-tauri/src/scheduler/manager.rs:155-157 | a due reminder's time parses to the current minute, and `minutes_until` then reports a full day |
| DueCheck.UnpaddedTimeNeverDue | src-tauri/src/scheduler/manager.rs:155-157 | the match is on text, so a time not written as five characters never fires |
| DueCheck.UnpaddedExample | src-tauri/src/scheduler/manager.rs:155-157 | "9:05" parses but never fires |
| DueCheck.StampClosesDay | src-tauri/src/scheduler/manager.rs:161-168 | once stamped, a reminder is not due again at any minute of the same local date |
| DueCheck.MonthlyDueClamped | src-tauri/src/scheduler/manager.rs:179-195 | the monthly rule fires a configured day on `min(day, month length)` and on no other day |
| DueCheck.MonthlyOncePerMonth | src-tauri/src/scheduler/manager.rs:179-195 | a single configured day fires on at most one day of each month |
| DueCheck.MonthlyFiresEachMonth | src-tauri/src/scheduler/manager.rs:179-195 | a single configured day `d >= 1` fires in every month, on day `min(d, days in month)`; day 0 never fires |
| DueCheck.MonthlyExamples | src-tauri/src/scheduler/manager.rs:179-195 | day 31 fires on April 30, February 28 in 2023 and February 29 in 2024, and on no earlier day |
| DueCheck.WorkdaysRule | src-tauri/src/scheduler/manager.rs:172-178 | a Monday-to-Friday reminder passes its rule exactly on ISO weekdays 1 to 5 |
| DueCheck.MissingDaysNeverDue | src-tauri/src/scheduler/manager.rs:172-195 | a weekday or monthly reminder with no day list never fires |
| DueCheck.UpdateTimeReopens | src-tauri/src/storage/reminder_repo.rs:128-219 | after an update of `remind_time`, the guard is clear; a daily or once reminder is then due exactly at the new time |
| Scheduler.FireStore | src-tauri/src/scheduler/manager.rs:363-368 | only a regular firing stamps, and only the fired reminder |
| Scheduler.FireLogs | src-tauri/src/scheduler/manager.rs:370-376 | appends one `triggered` record for the reminder, noted as a repeat exactly on the queue paths |
| Scheduler.FireQueues | src-tauri/src/scheduler/manager.rs:392-404 | arms the timeout check exactly for a positive timeout with timeout notification on, and the loop exactly for a looping reminder with an interval; nothing else moves |
| Scheduler.FireEffects | src-tauri/src/scheduler/manager.rs:360-412 | adds a tray flash and the popup, and adds a push notification exactly when `notify_on_trigger` is set |
| Scheduler.Fire | src-tauri/src/scheduler/manager.rs:352-413 | combines the four parts above; no other reminder, log record or queue entry changes |
| Scheduler.DueUuids | src-tauri/src/scheduler/manager.rs:153-203 | a uuid is fired exactly when some reminder of the snapshot under it is due |
| Scheduler.DueUuidsDistinct | src-tauri/src/scheduler/manager.rs:153-203 | a snapshot without repeated uuids fires no uuid twice |
| Scheduler.DueStep | src-tauri/src/scheduler/manager.rs:153-203 | one round of the loop stamps, logs and arms exactly the reminder it fires, and nothing when that reminder is not due |
| Scheduler.FireStamps | src-tauri/src/scheduler/manager.rs:363-368 | a regular firing stamps exactly the fired reminder |
| Scheduler.StampedCompose | src-tauri/src/scheduler/manager.rs:153-203 | stamping two disjoint groups in turn stamps both |
| Scheduler.SnapshotTail | src-tauri/src/scheduler/manager.rs:142-153 | after a round, the rest of the snapshot still matches the store, and the handled uuid does not come up again |
| Scheduler.FireDueStore | src-tauri/src/scheduler/manager.rs:153-203 | the loop stamps exactly the due reminders of the snapshot |
| Scheduler.FireDueTail | src-tauri/src/scheduler/manager.rs:153-203 | the loop only appends regular `triggered` records for now |
| Scheduler.FireDueLogs | src-tauri/src/scheduler/manager.rs:153-203 | the loop logs one record per due reminder, in snapshot order |
| Scheduler.FireDueQueues | src-tauri/src/scheduler/manager.rs:153-203 | the loop leaves the snooze queue alone, and touches loop and timeout entries only of fired uuids |
| Scheduler.TailsCompose | src-tauri/src/scheduler/manager.rs:370-376 | two runs of appended `triggered` records with the same note compose into one |
| Scheduler.CheckReminders | src-tauri/src/scheduler/manager.rs:132-204 | fires each live, enabled, due reminder exactly once; stamps exactly those; logs one record for each, in firing order; changes no other queue entry |
| Scheduler.CheckTwiceFiresNothing | src-tauri/src/scheduler/manager.rs:161-168 | after the check, no reminder is due again in the same minute |
| Scheduler.Revived | src-tauri/src/scheduler/manager.rs:254-265 | an entry fires again exactly when its reminder is stored, live and enabled |
| Scheduler.ReplaySnoozeTail | src-tauri/src/scheduler/manager.rs:254-265 | the snooze replay only appends `triggered` records marked as repeats |
| Scheduler.ReplaySnoozeLogs | src-tauri/src/scheduler/manager.rs:254-265 | the snooze replay logs one record per revivable entry, in drain order |
| Scheduler.ReplaySnoozeQueues | src-tauri/src/scheduler/manager.rs:254-265 | the snooze replay touches loop and timeout entries only of revived uuids |
| Scheduler.ReplaySnooze | src-tauri/src/scheduler/manager.rs:254-265 | a repeat never stamps the store, and the snooze queue is not touched |
| Scheduler.ReplayLoopItem | src-tauri/src/scheduler/manager.rs:287-301 | an entry whose reminder is gone, deleted or disabled changes nothing |
| Scheduler.ReplayLoopItemQueues | src-tauri/src/scheduler/manager.rs:291-298 | a reminder that still loops is re-armed one interval from now for its original occurrence; otherwise its loop entry is kept |
| Scheduler.ReplayLoopItemOthers | src-tauri/src/scheduler/manager.rs:287-301 | one entry touches no other uuid's queue entries |
| Scheduler.ReplayLoopItemLogs | src-tauri/src/scheduler/manager.rs:287-301 | one entry logs one repeat record exactly when its reminder is revivable |
| Scheduler.ReplayLoop | src-tauri/src/scheduler/manager.rs:287-301 | the loop replay never stamps the store, and the snooze queue is not touched |
| Scheduler.ReplayLoopLogs | src-tauri/src/scheduler/manager.rs:287-301 | the loop replay logs one repeat record per revivable entry, in drain order |
| Scheduler.ReplayLoopHead | src-tauri/src/scheduler/manager.rs:294-298 | the first re-armed entry keeps its new entry through the rest of the replay |
| Scheduler.ReplayLoopRearms | src-tauri/src/scheduler/manager.rs:294-298 | every drained entry whose reminder still loops is re-armed for the occurrence it started from |
| Scheduler.ReplayLoopKeeps | src-tauri/src/scheduler/manager.rs:287-301 | a uuid that cannot be re-armed keeps its loop entry |
| Scheduler.ReplayLoopUntouched | src-tauri/src/scheduler/manager.rs:287-301 | a uuid no entry names keeps its loop and timeout entries |
| Scheduler.ReplayLoopTimeouts | src-tauri/src/scheduler/manager.rs:287-301 | the loop replay touches timeout entries only of revived uuids |
| Scheduler.DistinctItemsTail | src-tauri/src/scheduler/manager.rs:273-285 | drained entries without a repeated uuid stay that way in the tail, which does not name the head |
| Scheduler.DrainedLoopsDistinct | src-tauri/src/scheduler/manager.rs:273-285 | the drained loop entries name distinct reminders |
| Scheduler.HandleTimeout | src-tauri/src/scheduler/manager.rs:333-344 | emits the timeout event for this reminder only, and pushes a notification exactly when `notify_on_timeout` is set |
| Scheduler.ReplayTimeout | src-tauri/src/scheduler/manager.rs:325-329 | handling timeouts changes no store, log record or queue and only adds effects |
| Scheduler.ReplayTimeoutEvents | src-tauri/src/scheduler/manager.rs:325-329 | a timeout event is emitted exactly for the drained uuids whose reminder is still live |
| Scheduler.Tick | src-tauri/src/scheduler/manager.rs:117-127 | the tick fires and stamps exactly the due reminders, extends the log, drops exactly the expired snooze entries, and leaves no expired timeout check |
| Scheduler.AppendLog | src-tauri/src/storage/reminder_log_repo.rs:38-68 | appends one record with the given reminder, action, occurrence, snooze target and note |
| Scheduler.RemoveEverywhere | src-tauri/src/scheduler/manager.rs:449-451 | the uuid leaves all three queues; other entries are kept |
| Scheduler.Complete | src-tauri/src/scheduler/manager.rs:432-465 | fails exactly for a missing or deleted reminder. Otherwise it stamps completion on that reminder only, logs `completed` for now, and clears all three queues for it. It pushes a notification exactly when `notify_on_complete` is set, and emits the completed event |
| Scheduler.Snooze | src-tauri/src/scheduler/manager.rs:468-495 | logs `snoozed` with the target and a note, takes the uuid off the loop and timeout queues, and snoozes it for `minutes`; no lookup, no store change |
| Scheduler.SnoozeWakesAt | src-tauri/src/scheduler/manager.rs:468-495 | a snoozed reminder comes due on the snooze queue exactly `minutes` later |
| Scheduler.DismissQueues | src-tauri/src/scheduler/manager.rs:517-531 | the uuid leaves the snooze and timeout queues. With repeat-on-close and an interval, it is snoozed again for that interval and keeps its loop entry. With repeat-on-close and no interval, it keeps its loop entry. Without repeat-on-close, it leaves the loop queue |
| Scheduler.Dismiss | src-tauri/src/scheduler/manager.rs:498-537 | fails exactly for a missing or deleted reminder; otherwise it logs `dismissed` for now, updates the queues as above, and emits the dismissed event |
| Scheduler.DismissRepeatWakesAt | src-tauri/src/scheduler/manager.rs:523-527 | after a dismissal, the reminder comes due on the snooze queue exactly when it repeats on close with an interval and that interval has passed |
| SettingsService.EarliestLater | src-tauri/src/services/settings_service.rs:61-64 | the index found holds a time later than now and no greater than any other such time, and is the first one with that time; there is none exactly when no time is later |
| SettingsService.NextReminder | src-tauri/src/services/settings_service.rs:61-65 | nothing only for an empty list; otherwise the earliest reminder later than now, or else the first of the list |
| SettingsService.CurrentMinuteSkipped | src-tauri/src/services/settings_service.rs:62 | a reminder set for the current minute does not count as later |
| SettingsService.NextOnSortedListing | src-tauri/src/services/settings_service.rs:57-65 | on the time-ordered listing, the next reminder is the first one later than now |
| SettingsService.NextWrapsAround | src-tauri/src/services/settings_service.rs:57-65 | with nothing later today, the earliest reminder of the listing is shown |
| SettingsService.GetNextReminder | src-tauri/src/services/settings_service.rs:56-68 | returns nothing exactly when no live enabled reminder exists; otherwise a stored live enabled reminder: when some live enabled reminder's time is later than the current `%H:%M`, a later one no later than any of them; when none is, one whose time is no later than any live enabled reminder's |

## Left out

- Concurrency:
  - The queues are `tokio` mutexes shared with the command handlers. The model runs every step sequentially on one state.
  - Each step reads `Utc::now()` afresh. The model uses one `now` per step.
- Persistence failures are not modelled:
  - SQLite errors and the `eprintln!` branches that swallow them;
  - the early return of `check_reminders` when listing fails;
  - the `?` returns of the commands.
  - An `.expect` after a write that finds no row becomes the `MissingAfterWrite` failure.
- Outside effects are not modelled: I/O, the HTTP call of the push notification (`send_serverchan_notification`, including its settings lookup), the popup's fallback to the main window, and the tray animation. Each appears only as an `Effect` value.
- Time handling is simplified:
  - SQLite's `date()` is read in UTC, while `today` is local. `ReminderLogRepo.GetTodayCompletedCount` therefore takes the date function as a parameter.
  - The `%Y-%m-%d` text comparison of the once-a-day guard is modelled as equality of local dates.
  - Seconds are not modelled: instants are whole minutes.
- Identifiers: v4 UUIDs for log records come from a counter that never repeats. A reminder's uuid is a parameter that must not be stored yet.
- JSON encoding of the weekday, month-day and link columns, row mapping, and the integer row id are not modelled.
- Integer widths are not modelled: `i32` minutes, intervals and timeouts are unbounded integers. Overflow of `now + minutes` is not modelled.
- The time zone is a parameter (`Zone`). Daylight-saving gaps and folds are whatever that function says.
- TimeUtils.ParseTime: does not model chrono's skipping of whitespace inside the pattern.
- Scheduler.Tick: its own contract covers the regular check, the snooze queue and the timeout queue. The loop queue and the repeat records are stated by the `ReplayLoop*` and `ReplaySnooze*` lemmas and not restated on `Tick`.
- ReminderLogRepo.Query: the source compares `triggered_at`, stored as RFC 3339 text, with the caller's `start_date` and `end_date` as TEXT. The model takes instant bounds and compares numbers. So it cannot express that a date-only end bound such as `2024-01-31` sorts before every timestamp of that day and excludes all of January 31's records.
- A loop interval of zero or less re-arms an entry that is already expired. It fires again on the next tick; this is as the code does it and is not singled out by a lemma.
- `start_scheduler` is not modelled: the initial wait to the minute boundary and the 60-second interval.
- The commands and settings outside `get_next_reminder` are not modelled.
