# Verified model of Zulip's analytics engine and push bouncer sync

This project models, in Dafny, the parts of Zulip that count things and keep two
databases in step, and proves what they guarantee:

* **The fill engine** (`zulip/analytics/lib/counts.py`). `process_count_stat` fills the count
  tables hour by hour or day by day and records its progress in `FillState`. A process may be
  killed between any two of its database writes and is started again later.
  `FillMachine.dfy` is that engine as a state machine in which each committed write is one step
  and the runners of all stats, the increments of logging stats and the arrival of source rows
  interleave. `FillInvariant.dfy`, `FillSteps.dfy` and `FillActions.dfy` hold its inductive invariant and
  the proof that every step keeps it; `FillTheorems.dfy` and `LoggingTheorems.dfy` hold what
  follows, `LoggingRuns.dfy` the laws of the logging stats over the increments that a run makes, and
  `LateIncrements.dfy` a run that misses one. `FillRunner.dfy` is the same code imperatively, as a class over the database, and
  proves that each of its runs is a run of the machine.
* **The collectors** (same file). `MessageCounts.dfy`, `HourToDay.dfy`, `ActiveUsers.dfy` and
  `MinutesActive.dfy` give the SQL queries and the Python collector their meaning on a
  time-stamped source log. `Registry.dfy` assembles them into COUNT_STATS, shows that it meets
  the machine's assumptions, and states what the stored numbers then mean; `StoredStats.dfy`
  says for each stat which rows the count tables hold, told from the source rows alone.
* **Remote sync** (`zulip/zilencer/views.py`). `RemoteTables.dfy` is the receiver's tables: last
  ids, validation, insertion that ignores conflicts. `RemotePost.dfy` is the post view, one
  transaction that validates three lists, reconciles the reported realms and stores everything
  or nothing. `RemoteRows.dfy` tells from the request which rows it leaves, whom they belong to
  and when it is accepted. `RemoteRetries.dfy` says what an accepted request does when it comes again, and
  `RemoteSync.dfy` is the protocol with polls, stale reports, lost replies, retries, rejected
  posts and other servers.
* **Realm reconciliation, push registrations, customer migration** (same file), each as a class
  proved against a specification function: `RealmReconciliation.dfy` with
  `ReconciliationTheorems.dfy`, `PushRegistrations.dfy`, `CustomerMigration.dfy`.
* **Chart assembly** (`zulip/analytics/views/stats.py`, `zulip/analytics/lib/time_utils.py`):
  `TimeRange.dfy`, `TimeSeries.dfy`, `ClientArrays.dfy`, `ClientRanking.dfy`.

`Sums.dfy` has finite sums and the meaning of `SELECT g, sum(v) GROUP BY g`; `CountTables.dfy`,
`Events.dfy`, `World.dfy` and `Options.dfy` are the data model. `dafny verify dfyconfig.toml`
checks everything.

## How the model reads the code

* Times are integer microseconds since the Unix epoch, so hours and days are multiples of
  constants. Django's datetimes, `verify_UTC` and float seconds are not modelled; minutes are
  computed from whole microseconds, ranks of client labels are kept times ten.
* A table is a map from the columns of its unique constraints to the remaining columns, so a
  violated constraint is a key that is already there: an INSERT then raises IntegrityError, or
  skips the row where the code asks for that.
* The source rows (messages, account events, activity intervals) form an append-only log. The
  one assumption about it is the one the engine rests on: no row arrives for a window that a
  (non-logging) stat has already begun to fill. Users, recipients and streams are fixed.
* Each stat has at most one process filling it at a time, as the cron lock provides; runners of
  different stats interleave freely, including those of a dependency and its dependent.
  Dependencies are plain stats whose end times include the dependent's, as in COUNT_STATS.
* `sent`, `cuts` and `created` are history variables: increments so far, how many of them each
  logging slot's latest aggregation has seen, and the attributes each realm was registered with.
* Where the code and its comments differ, the model follows the code. The comment above
  `check_realmauditlog_by_user_query` asks that no user have two entries with the same event
  time *and* type; that is not enough (`ActiveUsers.TiedTimesAreAmbiguous`), and
  `ActiveUsers.QueryIsReplayIff` says exactly what is.
* Five expected properties hold only under a condition. Each condition is stated with both
  directions, and each failure has a concrete input:
  - InstallationCount counts an increment to a logging stat exactly when its event time was after
    FillState's end time when it was sent, so it is the sum of all increments exactly when the
    late ones add up to nothing (`LoggingTheorems.CountedIff`, `LoggingRuns.InstallationIsSumOfOnTime`;
    a run that misses one: `LateIncrements.IncrementCanBeMissed`). Only for an increment to the
    very end time being filled is it the order of the two writes that decides
    (`LoggingTheorems.InstallationAccounting`).
  - 24 hourly totals of a user equal a daily one exactly when the user had joined by the end of
    each hour in which they sent (`HourToDay.HoursVersusDay`; `EarlyMessageIsMissedByHours`).
  - A window never holds more active time than it has exactly when the user's intervals are
    disjoint (`MinutesActive.BoundedIffDisjoint`; `OverlapsExceedTheDay`).
  - A registration of a device that an error ends leaves the table alone, except when both
    identities were sent, the device is registered by id, and the realm_uuid is malformed or of
    another server's realm or the user_uuid is malformed: nothing then restores the deleted row
    (`PushRegistrations.FailureLosesIdRegistration`; `RegistrationCanBeLost`, for each of the three).
  - A request that was accepted and comes again stores none of its rows again, but it changes a
    table exactly when its lists start above the last ids stored by then and older rows can be
    linked, so that it is accepted again, and a realm no longer is as it reports or an older row
    is there to be linked (`RemoteRetries.RetryAcceptedIff`, `RetryChangesIff`;
    `OldReportIsLogged`).

## Model

| member | source | states |
|---|---|---|
| `FillTheorems.ExactlyOnceFill` | zulip/analytics/lib/counts.py:119-207 | after any run with any crashes and restarts, whenever FillState is (t, DONE) the four tables hold at each end time up to t exactly the collected rows and their aggregates, and nothing at any other time |
| `FillTheorems.InterruptionsLeaveNoTrace` | zulip/analytics/lib/counts.py:119-170 | two runs, interrupted anyhow, that end DONE at the same time over the same source rows hold the same rows in every table |
| `FillTheorems.NoIntegrityError` | zulip/analytics/lib/counts.py:140-167 | no INSERT of any crash-and-restart run, logging or not, ever violates a unique constraint |
| `FillTheorems.ProgressIsMonotone` | zulip/analytics/lib/counts.py:76-82 | last_successful_fill never decreases along any run |
| `FillTheorems.CompleteRowsAreFinal` | zulip/analytics/lib/counts.py:76-82 | an end time covered by last_successful_fill is completely filled, and no later fill, undo, crash or source row changes its rows |
| `FillTheorems.DependentReadsFinalRows` | zulip/analytics/lib/counts.py:763-768 | when a dependent stat's query runs, the rows it reads are its dependency's complete rows, and stay so in every continuation |
| `FillActions.StepKeepsInv` | zulip/analytics/lib/counts.py:119-295 | every single write, crash, increment and source row keeps the invariant that says what each table holds at each end time |
| `FillActions.PathKeepsInv` | zulip/analytics/lib/counts.py:119-295 | so does every run |
| `FillSteps.NextKeepsOwn` | zulip/analytics/lib/counts.py:198-288 | each statement of a runner, including each DELETE of an undo and each INSERT, keeps its stat's invariant and raises no IntegrityError |
| `FillMachine.CeilingIsDue` | zulip/analytics/lib/counts.py:357-360 | an event time is rounded up to the end of the hour or day it lies in, the event time itself when it is one, and there is no other such end time |
| `LoggingRuns.RawValueIsSum` | zulip/analytics/lib/counts.py:302-406 | after every run the raw row of a bucket exists exactly at the end of an hour or day, of the stat's frequency, in which increments of the run were due, and its value is the sum of those of its user, stream or realm and subgroup |
| `LoggingTheorems.InstallationIsSumOfCut` | zulip/analytics/lib/counts.py:266-288 | InstallationCount of a covered end time is the per-subgroup sum of the increments its latest aggregation has seen |
| `LoggingTheorems.InstallationAccounting` | zulip/analytics/lib/counts.py:198-202 | that sum and the missed increments add up to all increments; they agree exactly when the missed ones sum to zero, and each missed one came when FillState had reached its event time |
| `LoggingRuns.OnTimeIncrementsAreCounted` | zulip/analytics/lib/counts.py:302-330 | when every increment with an event time in the window came before FillState had reached that event time, InstallationCount of a covered end time is the sum of them all |
| `LoggingTheorems.LoggedRowsAreFinal` | zulip/analytics/lib/counts.py:266-288 | once an end time of a logging stat is covered, no run changes its aggregated rows: no later fill, undo, crash or increment |
| `LoggingTheorems.CountedIff` | zulip/analytics/lib/counts.py:302-330 | an increment is due at the one end of an hour or day whose window holds its event time; it is counted there, in every later state in which that end time is covered, exactly when its event time was after FillState's end time when it was sent; one to the very end time being filled is the only exception |
| `LoggingTheorems.LateIncrementIsMissed` | zulip/analytics/lib/counts.py:302-330 | an increment to a covered end time is missed for good: in every later state the InstallationCount rows are those of before, although the total of all increments includes it |
| `LoggingRuns.InstallationIsSumOfOnTime` | zulip/analytics/lib/counts.py:302-330 | over runs without increments to an end time just being filled, InstallationCount of a covered end time is the sum of exactly the run's increments in the window that were on time, and the sum of all of them exactly when the late ones add up to nothing |
| `LateIncrements.IncrementCanBeMissed` | zulip/analytics/lib/counts.py:302-330 | a reachable state whose covered InstallationCount differs from the sum of the increments |
| `FillRunner.AnalyticsDatabase.ProcessCountStat` | zulip/analytics/lib/counts.py:119-170 | however it ends, the database is one the machine reaches by the statements of one call; completed, FillState is DONE at the last end time that fill_to_time and the dependencies allow and the rows are a clean fill; an off-hour fill_to_time changes nothing |
| `FillRunner.AnalyticsDatabase.CapByDependencies` | zulip/analytics/lib/counts.py:149-159 | the dependency loop computes the minimum of fill_to_time and all last_successful_fills, or stops when one never ran |
| `FillRunner.FillLimitIsMinimum` | zulip/analytics/lib/counts.py:149-159 | there is no limit exactly when some dependency never ran; otherwise it is the largest time not after fill_to_time nor after any dependency's last successful fill |
| `FillRunner.AnalyticsDatabase.FillUpTo` | zulip/analytics/lib/counts.py:161-170 | the loop leaves FillState DONE at the last reachable end time, or was killed at a point the machine knows |
| `FillRunner.AnalyticsDatabase.UndoInterrupted` | zulip/analytics/lib/counts.py:140-145 | after the undo FillState is DONE one increment earlier |
| `FillRunner.AnalyticsDatabase.DoUpdateFillState` | zulip/analytics/lib/counts.py:173-176 | saves exactly the given end time and status, or dies before |
| `FillRunner.AnalyticsDatabase.DoFillCountStatAtHour` | zulip/analytics/lib/counts.py:181-195 | adds the collected rows, then their aggregates, and nothing else |
| `FillRunner.AnalyticsDatabase.DoDeleteCountsAtHour` | zulip/analytics/lib/counts.py:198-207 | of all rows exactly those of this stat and end time go, from the tables the stat computes; a logging stat's raw rows stay |
| `FillRunner.AnalyticsDatabase.DoAggregateToSummaryTable` | zulip/analytics/lib/counts.py:210-295 | inserts the per-realm sums and then the sums over realms |
| `FillRunner.AnalyticsDatabase.DoIncrementLoggingStat` | zulip/analytics/lib/counts.py:302-406 | adds the amount to the one row of the user, stream or realm and subgroup at the end of the hour or day in which the event time lies, creating it when there is none, and changes nothing else |
| `FillRunner.AnalyticsDatabase.CompletedRows` | zulip/analytics/lib/counts.py:161-170 | between calls, a DONE stat holds a clean fill |
| `CountTables.GroupSum` | zulip/analytics/lib/counts.py:222-237 | accumulating row by row, in any order, computes one sum per group that occurs |
| `CountTables.TwoLevelAggregation` | zulip/analytics/lib/counts.py:222-277 | aggregating per realm and then over realms is aggregating directly |
| `CountTables.AggregationConserves` | zulip/analytics/lib/counts.py:222-277 | aggregation neither loses nor duplicates any value |
| `CountTables.AggregatedRowsAre` | zulip/analytics/lib/counts.py:222-277 | a RealmCount row exists exactly when the table has rows of that realm and subgroup, and an InstallationCount row when it has rows of that subgroup; each holds the sum of their values |
| `MessageCounts.NestedGroupingIsFaithful` | zulip/analytics/lib/counts.py:601-638 | inner GROUP BY and outer SUM count each of a user's messages once, under the type its own recipient gives it, even when a personal or huddle type_id is also a stream id; the row has the user's own realm |
| `MessageCounts.StreamMessagesAreCounted` | zulip/analytics/lib/counts.py:645-677 | a stream's row for bots or humans counts each of their messages to it once, with a row exactly when there are any, and has the stream's own realm |
| `MessageCounts.UserMessagesAreCounted` | zulip/analytics/lib/counts.py:557-587 | a user's row "true" or "false" exists exactly when they have that bot flag, joined before the end of the window and sent messages in it; it counts each of them once and has the user's own realm |
| `MessageCounts.ClientMessagesAreCounted` | zulip/analytics/lib/counts.py:557-587 | a user's row of a client, its id in decimal, counts exactly the messages they sent with it, with a row exactly when there are any, and has the user's own realm |
| `MessageCounts.UploadsAreAddedUp` | zulip/analytics/lib/counts.py:487-516 | a realm's row holds the sizes of all its uploads made before the end time, with a row exactly when there are any |
| `HourToDay.HoursVersusDay` | zulip/analytics/lib/counts.py:557-638 | a user's 24 hourly totals never exceed the day's client total, nor that the message type total, and when exactly they are equal |
| `HourToDay.HoursMakeUpTheDay` | zulip/analytics/lib/counts.py:557-638 | with senders joined no later than they send, all three agree for every user and are the number of messages the user sent that day |
| `HourToDay.EarlyMessageIsMissedByHours` | zulip/analytics/lib/counts.py:557-598 | a message sent two hours before its sender joined is in the day and in none of its hours |
| `HourToDay.RealmHoursMakeUpTheDay` | zulip/analytics/lib/counts.py:222-237 | the same, for every realm, of the values aggregated into RealmCount: they are the number of messages that the realm's own users sent |
| `HourToDay.InstallationHoursMakeUpTheDay` | zulip/analytics/lib/counts.py:222-277 | the same for the whole installation, of the values aggregated into InstallationCount: they are the number of all messages of the day |
| `ActiveUsers.LastEventIsReplay` | zulip/analytics/lib/counts.py:685-713 | DISTINCT ON over descending event times counts a user exactly when replaying their events in order leaves them active |
| `ActiveUsers.QueryIsReplayIff` | zulip/analytics/lib/counts.py:680-713 | the query agrees with every order of the events exactly when events tied at the latest time agree |
| `ActiveUsers.TiedTimesAreAmbiguous` | zulip/analytics/lib/counts.py:680-684 | two events of different types at one time break it |
| `ActiveUsers.HistoriesExist` | zulip/analytics/lib/counts.py:680-684 | for any users and any log there are histories to replay, each user's account events in the order of their times |
| `ActiveUsers.AuditCountsReplay` | zulip/analytics/lib/counts.py:685-721 | per realm and is_bot, the number counted is that of the users left active by replay, with a row exactly when there are any |
| `ActiveUsers.HumansAreCountedOnce` | zulip/analytics/lib/counts.py:748-797 | fed with its dependency's rows, realm_active_humans counts each human of a realm once who was active in the window and whom replaying their account events leaves active |
| `ActiveUsers.ActiveUsersAreMarked` | zulip/analytics/lib/counts.py:724-742 | a user has a row, of value 1 and their own realm, exactly when one of their intervals ends at or after the window's start and begins before its end |
| `MinutesActive.DoPullMinutesActive` | zulip/analytics/lib/counts.py:521-554 | the accumulating loop yields one row per user whose clipped intervals reach 60 seconds, with the whole minutes |
| `MinutesActive.ActiveTimeIsSum` | zulip/analytics/lib/counts.py:535-540 | a user's active time is the sum over their intervals of what each has in common with the window, and nothing for the others |
| `MinutesActive.SplitWindow` | zulip/analytics/lib/counts.py:535-540 | splitting a window at any point loses no active time |
| `MinutesActive.ActiveTimeIsBounded` | zulip/analytics/lib/counts.py:535-540 | disjoint intervals, in any order, never exceed the window |
| `MinutesActive.AtMostADay` | zulip/analytics/lib/counts.py:542-552 | a row exists exactly from 60 seconds on, and holds 1 to 1440 minutes |
| `MinutesActive.BoundedIffDisjoint` | zulip/analytics/lib/counts.py:535-540 | with intervals of positive length, active time never exceeds a window, for any window, exactly when the user's intervals are disjoint |
| `MinutesActive.OverlapsExceedTheDay` | zulip/analytics/lib/counts.py:535-540 | two overlapping intervals that make a day of 2880 minutes |
| `MinutesActive.StoredMinutesTrackTime` | zulip/analytics/lib/counts.py:542-552 | over n days the stored minutes never exceed the active time and fall short by less than n minutes |
| `Registry.CollectInSlot` | zulip/analytics/lib/counts.py:430-484 | every collector's rows carry the stat's property and end time |
| `Registry.CollectIsStable` | zulip/analytics/lib/counts.py:557-797 | no collector's rows change when source rows from the window's end on arrive |
| `Registry.CountStatsAreValid` | zulip/analytics/lib/counts.py:820-919 | COUNT_STATS, except for the two stats that only the bouncer has, meets every assumption of the machine, the dependency's grid included |
| `Registry.ActiveHumansAreCounted` | zulip/analytics/lib/counts.py:913-918 | in every reachable state where realm_active_humans::day is DONE, the stored count is that of the realm's humans who were active in the window and whom replay leaves active |
| `Registry.AuditedUsersAreCounted` | zulip/analytics/lib/counts.py:855-861 | the same for active_users_audit:is_bot:day and the users that replay leaves active |
| `Registry.ActiveMinutesAreStored` | zulip/analytics/lib/counts.py:896-898 | the same for minutes_active::day |
| `Registry.StoredHoursMakeUpTheDay` | zulip/analytics/lib/counts.py:827-845 | once the three message stats are DONE for a day, the stored InstallationCount values of its 24 hours add up to those of either daily stat |
| `Registry.StoredRealmHoursMakeUpTheDay` | zulip/analytics/lib/counts.py:827-845 | and so do the stored RealmCount values, for every realm |
| `StoredStats.HourlyMessagesAreStored` | zulip/analytics/lib/counts.py:825-832 | in every state any run reaches in which messages_sent:is_bot:hour is DONE to an hour, UserCount holds a row of a user and bot flag exactly when that user sent messages in the hour, with their number and the user's realm |
| `StoredStats.MessageTypesAreStored` | zulip/analytics/lib/counts.py:833-837 | the same for messages_sent:message_type:day and each of the four types |
| `StoredStats.ClientMessagesAreStored` | zulip/analytics/lib/counts.py:838-844 | the same for messages_sent:client:day and each client |
| `StoredStats.StreamMessagesAreStored` | zulip/analytics/lib/counts.py:845-851 | the same for messages_in_stream:is_bot:day, each stream and its realm |
| `StoredStats.UploadsAreStored` | zulip/analytics/lib/counts.py:862-866 | RealmCount holds the sizes of all uploads of a realm before the end time |
| `StoredStats.ActiveUsersAreStored` | zulip/analytics/lib/counts.py:878-895 | the 1, 7 and 15 day stats hold a row of a user exactly when an interval of theirs meets the window of that many days less 15 minutes |
| `StoredStats.MinutesAreStored` | zulip/analytics/lib/counts.py:896-898 | minutes_active::day holds the whole minutes in which the user's intervals overlap the day, and no row below 60 seconds |
| `StoredStats.IncrementsAreStored` | zulip/analytics/lib/counts.py:874-911 | the four logging stats hold, per hour or day, the sum of the run's increments whose event time lies in it |
| `RemoteTables.LastIdIsMaximum` | zulip/zilencer/views.py:1370-1382 | the reported id is the largest remote_id of this server's rows, 0 without any; the bouncer's own rows do not count |
| `RemoteTables.ValidateIffInOrder` | zulip/zilencer/views.py:755-787 | a list passes exactly when all its rows are allowed, have ids, and ascend from above the last stored id |
| `RemoteTables.FirstFault` | zulip/zilencer/views.py:755-787 | which error a list raises: that of its first faulty row, a disallowed property or event type before a missing id before an id out of order |
| `RemoteTables.ValidateIncomingTableData` | zulip/zilencer/views.py:755-787 | the loop reports the first fault of the first faulty row, and none exactly for lists in order |
| `RemoteTables.InsertCovers` | zulip/zilencer/views.py:793-806 | inserting keeps old rows and all unique constraints, and leaves each row asked for there or in conflict with one there |
| `RemoteTables.ClashIff` | zulip/zilencer/models.py:359-453 | when two rows violate a unique constraint: the same server and remote_id; the same property, end time and subgroup with the same server and realm id or the same RemoteRealm; for the installation, with the same server |
| `RemoteTables.BatchCreateTableData` | zulip/zilencer/views.py:793-816 | inserts the rows that do not conflict, in order, and counts the dropped ones |
| `RemotePost.Bouncer.CheckAnalytics` | zulip/zilencer/views.py:1386-1392 | reports the last id of each table |
| `RemotePost.Bouncer.PostAnalytics` | zulip/zilencer/views.py:1140-1274 | checks all lists before storing any, reconciles the reported realms and logs what that changed, links older rows to them when the server's version changed, and stores everything or, on any error, nothing, the realms and the version included; what it then stores is said by the rows of `RemoteRows` |
| `RemotePost.Bouncer.FixForeignKeys` | zulip/zilencer/views.py:1345-1367 | realm by realm, gives each of the server's rows without a RemoteRealm that of its realm id, and fails exactly when that makes two rows share a unique key |
| `RemoteRows.SentRowsAreStored` | zulip/zilencer/views.py:1196-1255 | after an accepted post each row it sent, but for the skipped properties, is stored with all its columns and belongs to the realm of the last report of its realm id, to none when there is no such report, unless a unique constraint excludes it; and no other row with a remote_id is added |
| `RemoteRows.OlderRowsStay` | zulip/zilencer/views.py:1345-1367 | rows stored before stay in place with all their columns; those of the server without a RemoteRealm get that of the last report of their realm id, exactly when the version changed and the realm is reported |
| `RemoteRows.VersionIsKept` | zulip/zilencer/views.py:1156-1168 | an accepted post leaves the version, merge base and feature level that it sent, and those of the other servers as they were |
| `RemoteRows.ConstraintsHold` | zulip/zilencer/views.py:793-806 | no accepted post makes two rows of a table violate a unique constraint |
| `RemoteRows.ChangesAreLogged` | zulip/zilencer/views.py:883-988 | each realm attribute it changes and each realm it marks deleted or restores is logged with the row's RemoteRealm, the event type for that change, the time, the old and new value, and the reported realm id, none for a deletion |
| `RemoteRows.AcceptedIff` | zulip/zilencer/views.py:1170-1255 | a post is accepted exactly when its three lists are in order above the last ids, no reported uuid belongs to another server, no new one is reported twice, linking older rows violates no unique constraint, and no audit row has malformed extra data |
| `RemoteSync.GapFree` | zulip/zilencer/views.py:755-816 | after every run, the stored rows of a server's table are exactly its log up to the last id without the skipped properties, and of the audit log the billing events, each once |
| `RemoteSync.LastIdNeverDecreases` | zulip/zilencer/views.py:1370-1392 | the last id never decreases |
| `RemoteRetries.RetryStoresNothing` | zulip/zilencer/views.py:781-806 | a request accepted once and sent again after any other posts and any rows of the bouncer's own adds none of its rows, and no row with a remote id; no row changes but for a RemoteRealm it lacked; its realms are never refused |
| `RemoteRetries.RetryAcceptedIff` | zulip/zilencer/views.py:781-787 | after any other posts, it is accepted again exactly when each of its lists starts above the last id stored by then and linking older rows violates no unique constraint |
| `RemoteRetries.RetryChangesIff` | zulip/zilencer/views.py:1191-1194 | it changes a table exactly under that condition, when it reports realms, and some realm of the server has come to differ from its report or, the version having changed, some row still lacks its RemoteRealm |
| `RemoteRetries.OldReportIsLogged` | zulip/zilencer/views.py:1209-1274 | host a, host b, host a again: the third post is accepted and adds to the audit log |
| `RemotePost.AcceptedIffFresh` | zulip/zilencer/views.py:781-787 | an honest request with acceptable realms is accepted exactly when each of its lists starts above the last id of that moment |
| `RemoteSync.LinksAlwaysFit` | zulip/zilencer/views.py:1345-1367 | in every reachable state, linking a server's older rows to its realms violates no unique constraint |
| `RealmReconciliation.RealmRegistry.UpdateRemoteRealmData` | zulip/zilencer/views.py:833-988 | the call is the specification function: rows, audit entries in order, and whether it is accepted |
| `RealmReconciliation.RealmRegistry.SyncRealm` | zulip/zilencer/views.py:885-935 | the attribute loop ends with the reported attributes and logs each difference once with its old and new value |
| `RealmReconciliation.RealmRegistry.CreateNew` | zulip/zilencer/views.py:853-876 | creates all unregistered reported realms, or none if a uuid is taken |
| `RealmReconciliation.RealmRegistry.DeleteMissing` | zulip/zilencer/views.py:951-988 | marks and logs exactly the unreported realms not yet marked |
| `ReconciliationTheorems.RealmsMatchReports` | zulip/zilencer/views.py:833-988 | after an accepted call realms of the server are marked deleted exactly when unreported, each reported uuid has its one row with the six attributes of its last report, no row is lost, and other servers' realms are untouched |
| `ReconciliationTheorems.RefusedIff` | zulip/zilencer/views.py:873-876 | refused, with nothing changed, exactly when a uuid belongs to another server or a new one is reported twice |
| `ReconciliationTheorems.RepeatingChangesNothing` | zulip/zilencer/views.py:883-988 | repeating an accepted call writes no row and no audit entry |
| `ReconciliationTheorems.AuditReplaysToState` | zulip/zilencer/views.py:883-988 | over any run of calls, each realm's entries replay from its creation to its current row, each fitting the state before it, and deletions and restorations alternate |
| `PushRegistrations.DeviceTable.RegisterDevice` | zulip/zilencer/views.py:245-302 | keeps the table valid, exactly one of user_id and user_uuid per row included, and does what the specification says in every error case, those of malformed uuids after the delete included |
| `PushRegistrations.DeviceTable.UnregisterDevice` | zulip/zilencer/views.py:306-327 | removes exactly the matching registrations, by either identity; which error it raises instead, in their order, and that each leaves the table alone |
| `PushRegistrations.DeviceTable.UnregisterAll` | zulip/zilencer/views.py:331-344 | removes exactly the user's registrations on the server, or raises the first error and leaves the table alone |
| `PushRegistrations.DeviceTable.DeleteDuplicateRegistrations` | zulip/zilencer/views.py:361-416 | raises exactly when a token occurs more than twice, else deletes and returns as specified |
| `PushRegistrations.RegisteredOnce` | zulip/zilencer/views.py:262-300 | after a successful request exactly one row registers the device for the user, by uuid if one was given |
| `PushRegistrations.OthersStayRegistered` | zulip/zilencer/views.py:282-300 | after a successful request every other registration stays; only the device's row by user_id goes, when both identities were sent; at most one row is new, and it has the request's server, kind, token, app id and realm and one identity, the uuid if sent |
| `PushRegistrations.SucceedsIff` | zulip/zilencer/views.py:251-302 | a request succeeds exactly when the kind is known, the token well formed, an app id sent with an APNs token, some identity sent, and a realm_uuid, if sent, comes with a user_uuid, both read as uuids and not of another server's realm |
| `PushRegistrations.FirstError` | zulip/zilencer/views.py:245-302 | which of the eight errors it raises otherwise, in their order |
| `PushRegistrations.FailureLosesIdRegistration` | zulip/zilencer/views.py:262-300 | a request raises an error and yet changes the table exactly when it has no earlier error, carries both identities, the device is registered by the id, and the realm_uuid is malformed or of another server's realm or the user_uuid is malformed |
| `PushRegistrations.RegistrationCanBeLost` | zulip/zilencer/views.py:262-300 | for each of the three, such a request after which the device has no registration left |
| `PushRegistrations.AtMostTwoMatch` | zulip/zilencer/models.py:109-117 | one user, kind and token match at most one row by id and one by uuid, so the "more than two" error is unreachable |
| `PushRegistrations.QueryFinds` | zulip/zilencer/views.py:361-375 | the query finds exactly the rows of the server and kind with either identity, in the order of their ids |
| `PushRegistrations.OnlyDuplicatesGo` | zulip/zilencer/views.py:381-416 | a row goes exactly when it is of this server, kind and user_id and the same token is registered by the user_uuid too |
| `PushRegistrations.ReturnedListIsFresh` | zulip/zilencer/views.py:405-416 | the returned list is what the query finds after the delete |
| `PushRegistrations.DeduplicationIsExact` | zulip/zilencer/views.py:381-416 | the returned tokens are distinct, none is lost, and the row by uuid of each pair stays |
| `CustomerMigration.BillingDatabase.MigrateCustomer` | zulip/zilencer/views.py:1021-1135 | performs exactly the specified saves in order; the error that cannot be reconciled leaves the database as it was; when each outcome comes about and what it leaves is said by the next three rows |
| `CustomerMigration.OutcomeIff` | zulip/zilencer/views.py:1024-1112 | it has something to do exactly when the server's customer, free of a pending sponsorship, has a live plan and the server has exactly one realm of people; it then cannot reconcile exactly when that realm has a customer and either that one has a live plan or a Stripe id or the server's plan is to switch its tier at its end |
| `CustomerMigration.MigrationIs` | zulip/zilencer/views.py:1061-1135 | what a migration leaves: the plan with the realm's customer, the Stripe customer moved to it, both plan types, one log entry, and all other customers, plans and realms as they were |
| `CustomerMigration.StripeCustomersStay` | zulip/zilencer/views.py:1061-1102 | no Stripe customer is lost or made up: a customer has it afterwards exactly when one had it before |
| `CustomerMigration.EverySaveIsSound` | zulip/zilencer/views.py:1061-1102 | after every intermediate save, one owner and at most one live plan per customer, no shared owner or Stripe customer, and the same plans |
| `CustomerMigration.MigrationMovesThePlan` | zulip/zilencer/views.py:1061-1102 | the realm's customer ends with the server's plan and Stripe customer, and nothing is left to migrate |
| `CustomerMigration.SecondRunSavesNothing` | zulip/zilencer/views.py:1024-1058 | running it again saves nothing |
| `ClientRanking.SortByTotals` | zulip/analytics/views/stats.py:473-475 | each label once, by descending total and, among equals, descending label |
| `ClientRanking.OrderOfTotals` | zulip/analytics/views/stats.py:473-475 | a label comes before another when the values of its list add up to more, or to as much and its text is greater |
| `ClientRanking.SortClientLabels` | zulip/analytics/views/stats.py:484-490 | the labels of both orders, each once, in the order of sort values that no two share |
| `ClientRanking.ValuesAreDistinct` | zulip/analytics/views/stats.py:487-489 | no two labels share a sort value |
| `ClientRanking.TopLabelsComeFirst` | zulip/analytics/views/stats.py:478-490 | for every n and any two orders, the union of the two top n is exactly the beginning of the list, within its first 2n |
| `ClientRanking.BusiestClientsComeFirst` | zulip/analytics/views/stats.py:478-490 | so the realm's and the user's n busiest clients come first |
| `ClientArrays.RewriteClientArrays` | zulip/analytics/views/stats.py:537-546 | IndexError exactly when a list is longer than the first one with its new label; otherwise new arrays with, at each index, the sum over the labels merged into each new label; the given arrays are unchanged |
| `ClientArrays.RewriteArrays` | zulip/analytics/views/stats.py:537-546 | the same for any label map |
| `ClientArrays.WebhookLabel` | zulip/analytics/views/stats.py:532-533 | every client called Zulip…Webhook is shown as "… webhook" |
| `ClientArrays.DesktopLabel` | zulip/analytics/views/stats.py:516-517 | every client whose name begins with "desktop app" is an old desktop app |
| `ClientArrays.NamedLabels` | zulip/analytics/views/stats.py:514-531 | the ten clients known by name have their eight labels |
| `ClientArrays.OtherLabels` | zulip/analytics/views/stats.py:513-534 | every other client keeps its name |
| `ClientArrays.CollapsingConserves` | zulip/analytics/views/stats.py:537-546 | the sum over all labels is conserved at every index |
| `ClientArrays.CollapsingKeepsLengths` | zulip/analytics/views/stats.py:537-546 | a new label's list is as long as the longest of those merged into it |
| `TimeSeries.GetTimeSeriesBySubgroup` | zulip/analytics/views/stats.py:549-574 | each label's array holds the table's value at each end time and 0 elsewhere, for the subgroups that occur or are asked for |
| `TimeSeries.SeriesAre` | zulip/analytics/views/stats.py:549-574 | for any list of distinct labels, one is shown exactly when empty ones are wanted or its subgroup has some row, and its array has at each end time the value of the table's row or 0 |
| `TimeSeries.ChartConservesTotals` | zulip/analytics/views/stats.py:549-574 | when all subgroups are listed, the values shown at an end time add up to those stored, also after merging clients |
| `TimeRange.TimeRange` | zulip/analytics/lib/time_utils.py:11-33 | the ascending grid ending at floor(end), as long as the larger of min_length and the number of grid points from start on |
| `TimeRange.FromCeilingToFloor` | zulip/analytics/lib/time_utils.py:7-10 | without min_length these are the points from ceiling(start) to floor(end), both included |

## Left out

- The `realm` argument of `process_count_stat` and every `realm_clause`: the code says single-realm runs are not supported.
- `do_drop_all_analytics_tables` and `do_drop_single_stat`: they reset progress on purpose.
- SQL text, cursors, logging and timing: only what the queries compute is modelled.
- Registry.CountStatsAreValid: leaves out the bouncer's two logging stats on RemoteRealmCount and RemoteInstallationCount; in `RemoteSync` their rows appear as rows without a remote_id that come and change at any time.
- Updates to attachments, deleted messages and moved messages: the source log holds what was there when its window was filled.
- Activity intervals that are extended after their window has passed, and changes to users: the source log is append-only and stable once a window is claimed.
- Values that do not fit their columns, such as a merge_base that is too long or a user_id that is too large, and the times a post stores on the server; a RemoteRealm is identified by its uuid.
- License ledger sync, e-mails, push status and log data in the post and reconciliation views.
- RemoteRealm columns that reconciliation never writes, such as the owner secret, creation date and plan type.
- FillRunner.AnalyticsDatabase.ProcessCountStat: an unknown FillState status cannot occur in the model, and an aggregate over no rows inserts nothing, as GROUP BY does.
- PushRegistrations.DeviceTable.DeleteDuplicateRegistrations: takes a non-empty list of one kind, as its assertion and its callers demand.
- `get_chart_data` and its request handling, the corporate billing flows, and everything about sending push notifications.
