/** COUNT_STATS (analytics/lib/counts.py), without the two stats that only the push bouncer has, as one
    configuration of the fill machine, and what the machine's runs then mean for the numbers. */
module Registry {
  import opened Options
  import opened Sums
  import opened CountTables
  import opened Events
  import opened FillMachine
  import opened FillInvariant
  import opened FillTheorems
  import opened World
  import opened MessageCounts
  import opened HourToDay
  import opened ActiveUsers
  import opened MinutesActive

  const MESSAGES_BY_BOT := "messages_sent:is_bot:hour"
  const MESSAGES_BY_TYPE := "messages_sent:message_type:day"
  const MESSAGES_BY_CLIENT := "messages_sent:client:day"
  const MESSAGES_IN_STREAM := "messages_in_stream:is_bot:day"
  const UPLOAD_QUOTA := "upload_quota_used_bytes::day"
  const USERS_AUDIT := "active_users_audit:is_bot:day"
  const ACTIVES_1DAY := "1day_actives::day"
  const ACTIVES_7DAY := "7day_actives::day"
  const ACTIVES_15DAY := "15day_actives::day"
  const MINUTES_ACTIVE := "minutes_active::day"
  const ACTIVE_HUMANS := "realm_active_humans::day"
  const MESSAGES_READ := "messages_read::hour"
  const READ_INTERACTIONS := "messages_read_interactions::hour"
  const PUSHES_SENT := "mobile_pushes_sent::day"
  const INVITES_SENT := "invites_sent::day"

  const PROPERTIES: set<string> := {
    MESSAGES_BY_BOT, MESSAGES_BY_TYPE, MESSAGES_BY_CLIENT, USERS_AUDIT, ACTIVES_1DAY, ACTIVES_7DAY, ACTIVES_15DAY,
    MINUTES_ACTIVE, ACTIVE_HUMANS, MESSAGES_READ, READ_INTERACTIONS, PUSHES_SENT, INVITES_SENT, MESSAGES_IN_STREAM,
    UPLOAD_QUOTA
  }

  /** UserActivityInterval.MIN_INTERVAL_LENGTH. */
  const MIN_INTERVAL_LENGTH: Time := 15 * MINUTE

  /** Names are told apart by their length and, where that is equal, by a character. */
  lemma NamesDiffer()
    ensures |ACTIVES_15DAY| == 18 && |ACTIVE_HUMANS| == 24 && |MESSAGES_BY_BOT| == 25 && |MESSAGES_BY_TYPE| == 30
    ensures |MESSAGES_BY_CLIENT| == 24 && |USERS_AUDIT| == 29 && |MINUTES_ACTIVE| == 19
    ensures MESSAGES_BY_CLIENT != ACTIVE_HUMANS
  {
    assert ACTIVE_HUMANS[0] == 'r' && MESSAGES_BY_CLIENT[0] == 'm';
  }

  function StatOf(p: string): Stat {
    if p == ACTIVES_15DAY then Stat(Ordinary, UserCount, DAY)
    else if p == ACTIVE_HUMANS then Stat(Dependent([ACTIVES_15DAY], ACTIVES_15DAY), RealmCount, DAY)
    else if p == MESSAGES_BY_BOT then Stat(Ordinary, UserCount, HOUR)
    else if p == MESSAGES_BY_TYPE || p == MESSAGES_BY_CLIENT then Stat(Ordinary, UserCount, DAY)
    else if p == USERS_AUDIT then Stat(Ordinary, RealmCount, DAY)
    else if p == ACTIVES_1DAY || p == ACTIVES_7DAY || p == MINUTES_ACTIVE then Stat(Ordinary, UserCount, DAY)
    else if p == MESSAGES_IN_STREAM then Stat(Ordinary, StreamCount, DAY)
    else if p == UPLOAD_QUOTA then Stat(Ordinary, RealmCount, DAY)
    else if p == MESSAGES_READ || p == READ_INTERACTIONS then Stat(Logging, UserCount, HOUR)
    else Stat(Logging, RealmCount, DAY)
  }

  /** The pull functions, on the window that ends at `e`. */
  ghost function Collect(w: World, p: string, log: seq<Event>, input: Rows, e: Time): Rows {
    if p == ACTIVES_15DAY then Actives(w, p, log, e - (15 * DAY - MIN_INTERVAL_LENGTH), e)
    else if p == ACTIVE_HUMANS then RealmActiveHumans(w, p, input, log, e)
    else if p == MESSAGES_BY_BOT then MessagesByUser(w, p, log, e - HOUR, e, ByIsBot)
    else if p == MESSAGES_BY_TYPE then MessagesByType(w, p, log, e - DAY, e)
    else if p == MESSAGES_BY_CLIENT then MessagesByUser(w, p, log, e - DAY, e, ByClient)
    else if p == USERS_AUDIT then ActiveUsersAudit(w, p, log, e)
    else if p == ACTIVES_1DAY then Actives(w, p, log, e - (DAY - MIN_INTERVAL_LENGTH), e)
    else if p == ACTIVES_7DAY then Actives(w, p, log, e - (7 * DAY - MIN_INTERVAL_LENGTH), e)
    else if p == MINUTES_ACTIVE then MinuteRows(w, p, log, e - DAY, e)
    else if p == MESSAGES_IN_STREAM then MessagesByStream(w, p, log, e - DAY, e, ByIsBot)
    else if p == UPLOAD_QUOTA then UploadSpace(p, log, e)
    else NO_ROWS
  }

  ghost function CountStats(w: World, epoch: Time, home: (TableId, int) -> int): Config {
    Config(map p | p in PROPERTIES :: StatOf(p), epoch,
           (p: string, log: seq<Event>, input: Rows, e: Time) => Collect(w, p, log, input, e), home)
  }

  /* The collectors are good: their rows carry the asked property and end time, and events from
     the window's end on do not change them. */

  lemma GroupedInSlot<K>(m: map<K, int>, g: map<K, Key>, p: string, e: Time)
    requires m.Keys <= g.Keys && forall k | k in m :: g[k].property == p && g[k].endTime == e
    ensures forall x | x in Grouped(m, g) :: x.property == p && x.endTime == e
  {}

  lemma MessagesInSlot(w: World, p: string, log: seq<Event>, start: Time, e: Time, group: GroupBy)
    ensures InSlot(MessagesByUser(w, p, log, start, e, group), p, e)
    ensures InSlot(MessagesByType(w, p, log, start, e), p, e)
  {
    hide Grouped;
    hide CountedByUser;
    hide CountedByType;
    GroupedInSlot(CountedByUser(w, log, start, e), ByUserKeys(w, p, log, start, e, group), p, e);
    var inner := InnerQuery(w, log, start, e);
    GroupedInSlot(inner, OuterKeys(p, e, inner), p, e);
  }

  lemma StreamsInSlot(w: World, p: string, log: seq<Event>, start: Time, e: Time)
    ensures InSlot(MessagesByStream(w, p, log, start, e, ByIsBot), p, e)
    ensures InSlot(UploadSpace(p, log, e), p, e)
  {
    hide Grouped;
    hide CountedByStream;
    hide Uploads;
    GroupedInSlot(CountedByStream(w, log, start, e), ByStreamKeys(w, p, log, start, e, ByIsBot), p, e);
    GroupedInSlot(Uploads(log, e), UploadKeys(p, log, e), p, e);
  }

  lemma ActiveInSlot(w: World, p: string, log: seq<Event>, input: Rows, start: Time, e: Time)
    ensures InSlot(ActiveUsersAudit(w, p, log, e), p, e)
    ensures InSlot(RealmActiveHumans(w, p, input, log, e), p, e)
    ensures InSlot(Actives(w, p, log, start, e), p, e)
    ensures InSlot(MinuteRows(w, p, log, start, e), p, e)
  {
    hide Grouped;
    hide CountedActive;
    hide ActiveIn;
    hide ActiveTime;
    GroupedInSlot(ActiveOnes(w, log, e), RealmAndBot(w, p, e), p, e);
    GroupedInSlot(ActiveHumanRows(w, input, log, e), RealmKeysOf(input, p, e), p, e);
  }

  lemma CollectInSlot(w: World, p: string, log: seq<Event>, input: Rows, e: Time)
    ensures InSlot(Collect(w, p, log, input, e), p, e)
  {
    hide InSlot;
    hide MessagesByUser;
    hide MessagesByType;
    hide ActiveUsersAudit;
    hide RealmActiveHumans;
    hide Actives;
    hide MinuteRows;
    hide MessagesByStream;
    hide UploadSpace;
    StreamsInSlot(w, p, log, e - DAY, e);
    MessagesInSlot(w, p, log, e - HOUR, e, ByIsBot);
    MessagesInSlot(w, p, log, e - DAY, e, ByClient);
    ActiveInSlot(w, p, log, input, e - (15 * DAY - MIN_INTERVAL_LENGTH), e);
    ActiveInSlot(w, p, log, input, e - (7 * DAY - MIN_INTERVAL_LENGTH), e);
    ActiveInSlot(w, p, log, input, e - (DAY - MIN_INTERVAL_LENGTH), e);
    ActiveInSlot(w, p, log, input, e - DAY, e);
    assert InSlot(NO_ROWS, p, e) by { EmptyInSlot(p, e); }
  }

  lemma EmptyInSlot(p: string, e: Time)
    ensures InSlot(NO_ROWS, p, e)
  {}

  lemma MessagesAreStable(w: World, p: string, log: seq<Event>, ev: Event, start: Time, e: Time, group: GroupBy)
    requires ev.time >= e
    ensures MessagesByUser(w, p, log + [ev], start, e, group) == MessagesByUser(w, p, log, start, e, group)
    ensures MessagesByType(w, p, log + [ev], start, e) == MessagesByType(w, p, log, start, e)
  {
    hide Grouped;
    hide UserRows;
    hide OuterKeys;
    assert CountedByUser(w, log + [ev], start, e) == CountedByUser(w, log, start, e);
    assert ByUserKeys(w, p, log + [ev], start, e, group) == ByUserKeys(w, p, log, start, e, group);
    assert CountedByType(w, log + [ev], start, e) == CountedByType(w, log, start, e);
    assert InnerKeys(w, log + [ev], start, e) == InnerKeys(w, log, start, e);
  }

  lemma StreamsAreStable(w: World, p: string, log: seq<Event>, ev: Event, start: Time, e: Time)
    requires ev.time >= e
    ensures MessagesByStream(w, p, log + [ev], start, e, ByIsBot) == MessagesByStream(w, p, log, start, e, ByIsBot)
  {
    hide Grouped;
    hide StreamRows;
    assert CountedByStream(w, log + [ev], start, e) == CountedByStream(w, log, start, e);
    assert ByStreamKeys(w, p, log + [ev], start, e, ByIsBot) == ByStreamKeys(w, p, log, start, e, ByIsBot);
  }

  lemma UploadsAreStable(p: string, log: seq<Event>, ev: Event, e: Time)
    requires ev.time >= e
    ensures UploadSpace(p, log + [ev], e) == UploadSpace(p, log, e)
  {
    hide Grouped;
    assert Uploads(log + [ev], e) == Uploads(log, e);
    assert UploadKeys(p, log + [ev], e) == UploadKeys(p, log, e);
  }

  lemma LastChangeIsStable(log: seq<Event>, ev: Event, user: int, e: Time)
    requires ev.time >= e
    ensures CountedActive(log + [ev], user, e) == CountedActive(log, user, e)
  {
    assert forall i :: AccountEventOf(log + [ev], i, user, e) == AccountEventOf(log, i, user, e);
    assert forall i :: IsLast(log + [ev], i, user, e) == IsLast(log, i, user, e);
    assert Candidates(log + [ev], user, e) == Candidates(log, user, e);
  }

  lemma AccountsAreStable(w: World, p: string, log: seq<Event>, ev: Event, input: Rows, e: Time)
    requires ev.time >= e
    ensures ActiveUsersAudit(w, p, log + [ev], e) == ActiveUsersAudit(w, p, log, e)
    ensures RealmActiveHumans(w, p, input, log + [ev], e) == RealmActiveHumans(w, p, input, log, e)
  {
    hide Grouped;
    hide PerRealm;
    hide CountedActive;
    forall u { LastChangeIsStable(log, ev, u, e); }
    assert ActiveOnes(w, log + [ev], e) == ActiveOnes(w, log, e);
    assert ActiveHumanRows(w, input, log + [ev], e) == ActiveHumanRows(w, input, log, e);
  }

  lemma ActiveInIsStable(log: seq<Event>, ev: Event, user: int, start: Time, e: Time)
    requires ev.time >= e
    ensures ActiveIn(log + [ev], user, start, e) == ActiveIn(log, user, start, e)
  {
    if i :| 0 <= i < |log| && log[i].Activity? && log[i].user == user && log[i].until >= start && log[i].time < e {
      assert (log + [ev])[i] == log[i];
    }
  }

  lemma ActiveTimeIsStable(log: seq<Event>, ev: Event, user: int, start: Time, e: Time)
    requires ev.time >= e
    ensures ActiveTime(log + [ev], user, start, e) == ActiveTime(log, user, start, e)
  {
    assert (log + [ev])[..|log|] == log;
  }

  lemma ActivesAreStable(w: World, p: string, log: seq<Event>, ev: Event, start: Time, e: Time)
    requires ev.time >= e
    ensures Actives(w, p, log + [ev], start, e) == Actives(w, p, log, start, e)
  {
    hide ActiveIn;
    forall u ensures ActiveIn(log + [ev], u, start, e) == ActiveIn(log, u, start, e) { ActiveInIsStable(log, ev, u, start, e); }
  }

  lemma MinutesAreStable(w: World, p: string, log: seq<Event>, ev: Event, start: Time, e: Time)
    requires ev.time >= e
    ensures MinuteRows(w, p, log + [ev], start, e) == MinuteRows(w, p, log, start, e)
  {
    hide ActiveTime;
    forall u ensures ActiveTime(log + [ev], u, start, e) == ActiveTime(log, u, start, e) { ActiveTimeIsStable(log, ev, u, start, e); }
  }

  lemma CollectIsStable(w: World, p: string, log: seq<Event>, ev: Event, input: Rows, e: Time)
    requires ev.time >= e
    ensures Collect(w, p, log + [ev], input, e) == Collect(w, p, log, input, e)
  {
    hide MessagesByUser;
    hide MessagesByType;
    hide ActiveUsersAudit;
    hide RealmActiveHumans;
    hide Actives;
    hide MinuteRows;
    hide MessagesByStream;
    hide UploadSpace;
    StreamsAreStable(w, p, log, ev, e - DAY, e);
    UploadsAreStable(p, log, ev, e);
    MessagesAreStable(w, p, log, ev, e - HOUR, e, ByIsBot);
    MessagesAreStable(w, p, log, ev, e - DAY, e, ByClient);
    AccountsAreStable(w, p, log, ev, input, e);
    ActivesAreStable(w, p, log, ev, e - (15 * DAY - MIN_INTERVAL_LENGTH), e);
    ActivesAreStable(w, p, log, ev, e - (7 * DAY - MIN_INTERVAL_LENGTH), e);
    ActivesAreStable(w, p, log, ev, e - (DAY - MIN_INTERVAL_LENGTH), e);
    MinutesAreStable(w, p, log, ev, e - DAY, e);
  }

  lemma StatsAreValid(cfg: Config, w: World, epoch: Time, home: (TableId, int) -> int, p: string)
    requires cfg == CountStats(w, epoch, home) && p in cfg.stats
    ensures ValidStat(cfg, p)
  {
    hide Collect;
    NamesDiffer();
    assert ACTIVES_15DAY in PROPERTIES;
    assert cfg.stats[p] == StatOf(p) && cfg.stats[ACTIVES_15DAY] == StatOf(ACTIVES_15DAY);
    if cfg.stats[p].kind.Dependent? {
      assert cfg.stats[p].kind.dependencies == [ACTIVES_15DAY];
    }
  }

  /** COUNT_STATS meets every assumption of the fill machine, so all its theorems hold for it. */
  lemma CountStatsAreValid(w: World, epoch: Time, home: (TableId, int) -> int)
    requires epoch % DAY == 0
    ensures ValidConfig(CountStats(w, epoch, home))
  {
    hide Collect;
    hide StatOf;
    hide InSlot;
    hide ValidStat;
    var cfg := CountStats(w, epoch, home);
    forall p | p in cfg.stats { StatsAreValid(cfg, w, epoch, home, p); }
    forall p, log, input, e ensures InSlot(cfg.collect(p, log, input, e), p, e) {
      CollectInSlot(w, p, log, input, e);
    }
    forall p, log, ev: Event, input, e | ev.time >= e
      ensures cfg.collect(p, log + [ev], input, e) == cfg.collect(p, log, input, e)
    {
      CollectIsStable(w, p, log, ev, input, e);
    }
  }

  /* What the numbers mean, in every state that any run, crashed and restarted, reaches. */

  /** FillState of `p` is DONE at `e` or later. */
  predicate FilledTo(s: State, p: string, e: Time) {
    p in s.fill && s.fill[p].status == Done && e <= s.fill[p].endTime
  }

  /** A stat that is DONE holds, at each of its end times, what its query returns on the source log. */
  lemma FilledRows(cfg: Config, w: World, epoch: Time, home: (TableId, int) -> int, s: State, p: string, e: Time)
    requires cfg == CountStats(w, epoch, home) && Reachable(cfg, s) && p in PROPERTIES
    requires !StatOf(p).kind.Logging? && FilledTo(s, p, e) && e > epoch && (e - epoch) % StatOf(p).increment == 0
    ensures p in cfg.stats && HoldsFill(cfg, s, p, e) && cfg.stats[p] == StatOf(p)
  {
    hide Collect;
    hide HoldsFill;
    hide HoldsNothing;
    hide Reachable;
    ExactlyOnceFill(cfg, s, p, s.fill[p].endTime, e);
  }

  /** realm_active_humans::day: once DONE, the RealmCount row of a realm counts each human exactly
      once who was active in the 15-day window and whom replaying their account events before its end
      leaves active. */
  lemma ActiveHumansAreCounted(w: World, epoch: Time, home: (TableId, int) -> int, s: State, realm: int, e: Time,
                               histories: map<int, seq<int>>)
    requires Reachable(CountStats(w, epoch, home), s)
    requires FilledTo(s, ACTIVE_HUMANS, e) && e > epoch && (e - epoch) % DAY == 0
    requires DistinctEventTimes(s.log) && Histories(histories, w, s.log, e)
    ensures CountsSet(s.tables.realm, Key(ACTIVE_HUMANS, e, realm, None),
                      ActiveHumans(w, s.log, histories, realm, e - (15 * DAY - MIN_INTERVAL_LENGTH), e))
  {
    hide Reachable;
    hide RealmActiveHumans;
    hide Actives;
    hide ActiveHumans;
    hide DistinctEventTimes;
    hide Histories;
    NamesDiffer();
    var cfg, start := CountStats(w, epoch, home), e - (15 * DAY - MIN_INTERVAL_LENGTH);
    FilledRows(cfg, w, epoch, home, s, ACTIVE_HUMANS, e);
    HumansAreCountedOnce(w, ACTIVE_HUMANS, ACTIVES_15DAY, s.log, histories, start, e, realm);
    var k := Key(ACTIVE_HUMANS, e, realm, None);
    assert k in s.tables.realm <==> k in Slot(s.tables.realm, ACTIVE_HUMANS, e);
  }

  /** active_users_audit:is_bot:day: once DONE, the RealmCount rows count the users whom replaying
      their account events before the end time leaves active. */
  lemma AuditedUsersAreCounted(w: World, epoch: Time,
                               home: (TableId, int) -> int, s: State, realm: int, isBot: bool, e: Time,
                               histories: map<int, seq<int>>)
    requires Reachable(CountStats(w, epoch, home), s)
    requires FilledTo(s, USERS_AUDIT, e) && e > epoch && (e - epoch) % DAY == 0
    requires DistinctEventTimes(s.log) && Histories(histories, w, s.log, e)
    ensures CountsSet(s.tables.realm, Key(USERS_AUDIT, e, realm, Some(if isBot then "true" else "false")),
                      ReplayedActive(w, s.log, histories, realm, isBot))
  {
    hide Reachable;
    hide ActiveUsersAudit;
    hide DistinctEventTimes;
    hide Histories;
    NamesDiffer();
    var cfg := CountStats(w, epoch, home);
    FilledRows(cfg, w, epoch, home, s, USERS_AUDIT, e);
    AuditCountsReplay(w, USERS_AUDIT, s.log, e, histories, realm, isBot);
    var k := Key(USERS_AUDIT, e, realm, Some(if isBot then "true" else "false"));
    assert k in s.tables.realm <==> k in Slot(s.tables.realm, USERS_AUDIT, e);
  }

  /** minutes_active::day: once DONE, the UserCount row of a user exists exactly for those active for
      a minute or more, and holds their minutes, at most 1440 when their intervals do not overlap. */
  lemma ActiveMinutesAreStored(w: World, epoch: Time, home: (TableId, int) -> int, s: State, user: int, e: Time)
    requires Reachable(CountStats(w, epoch, home), s) && user in w.users && OrderedIntervals(s.log)
    requires FilledTo(s, MINUTES_ACTIVE, e) && e > epoch && (e - epoch) % DAY == 0
    ensures var k, active := Key(MINUTES_ACTIVE, e, user, None), ActiveTime(s.log, user, e - DAY, e);
            && (k in s.tables.user <==> active >= MINUTE)
            && (k in s.tables.user ==> s.tables.user[k] == Cell(w.users[user].realm, active / MINUTE))
            && (k in s.tables.user && Disjoint(s.log, user) ==> s.tables.user[k].value <= 1440)
  {
    hide Reachable;
    hide ActiveTime;
    hide OrderedIntervals;
    hide Disjoint;
    NamesDiffer();
    var cfg, k := CountStats(w, epoch, home), Key(MINUTES_ACTIVE, e, user, None);
    FilledRows(cfg, w, epoch, home, s, MINUTES_ACTIVE, e);
    assert k in s.tables.user <==> k in Slot(s.tables.user, MINUTES_ACTIVE, e);
    if Disjoint(s.log, user) {
      AtMostADay(w, MINUTES_ACTIVE, s.log, e - DAY, user);
    }
  }

  /** All InstallationCount values of `p` at `e`. */
  ghost function InstallationSum(s: State, p: string, e: Time): int {
    Sum(Values(Slot(s.tables.installation, p, e)))
  }

  /** The InstallationCount values of `p` over the first `n` hours from `start`. */
  ghost function InstallationSumOfHours(s: State, p: string, start: Time, n: nat): int {
    if n == 0 then 0 else InstallationSumOfHours(s, p, start, n - 1) + InstallationSum(s, p, start + n * HOUR)
  }

  /** The RealmCount values of `p` at `e` for one realm. */
  ghost function RealmSum(s: State, p: string, e: Time, realm: int): int {
    UserTotal(Slot(s.tables.realm, p, e), realm)
  }

  /** The RealmCount values of `p` over the first `n` hours from `start` for one realm. */
  ghost function RealmSumOfHours(s: State, p: string, start: Time, realm: int, n: nat): int {
    if n == 0 then 0 else RealmSumOfHours(s, p, start, realm, n - 1) + RealmSum(s, p, start + n * HOUR, realm)
  }

  lemma MessageSums(w: World, epoch: Time, home: (TableId, int) -> int, s: State, p: string, e: Time)
    requires Reachable(CountStats(w, epoch, home), s)
    requires p in {MESSAGES_BY_BOT, MESSAGES_BY_CLIENT, MESSAGES_BY_TYPE}
    requires FilledTo(s, p, e) && e > epoch && (e - epoch) % StatOf(p).increment == 0
    ensures p == MESSAGES_BY_BOT ==> InstallationSum(s, p, e) == InstallationHour(w, s.log, e - HOUR)
    ensures p == MESSAGES_BY_CLIENT ==>
              InstallationSum(s, p, e) == InstallationTotal(MessagesByUser(w, p, s.log, e - DAY, e, ByClient), p, e)
    ensures p == MESSAGES_BY_TYPE ==>
              InstallationSum(s, p, e) == InstallationTotal(MessagesByType(w, p, s.log, e - DAY, e), p, e)
  {
    hide Reachable;
    hide MessagesByUser;
    hide MessagesByType;
    hide RealmRows;
    hide InstallationRows;
    hide Slot;
    hide Sum;
    NamesDiffer();
    var cfg := CountStats(w, epoch, home);
    FilledRows(cfg, w, epoch, home, s, p, e);
  }

  lemma {:induction false} HourSums(w: World, epoch: Time, home: (TableId, int) -> int, s: State, start: Time, n: nat)
    requires Reachable(CountStats(w, epoch, home), s)
    requires start >= epoch && (start - epoch) % HOUR == 0 && FilledTo(s, MESSAGES_BY_BOT, start + n * HOUR)
    ensures InstallationSumOfHours(s, MESSAGES_BY_BOT, start, n) == HourlyInstallation(w, s.log, start, n)
  {
    hide Reachable;
    hide InstallationHour;
    hide InstallationSum;
    if n > 0 {
      NamesDiffer();
      assert StatOf(MESSAGES_BY_BOT).increment == HOUR;
      HourSums(w, epoch, home, s, start, n - 1);
      MessageSums(w, epoch, home, s, MESSAGES_BY_BOT, start + n * HOUR);
    }
  }

  /** Once the three message stats are DONE for a day, the InstallationCount values of its 24
      hours add up to those of each daily stat, in the tables themselves. */
  lemma StoredHoursMakeUpTheDay(w: World, epoch: Time, home: (TableId, int) -> int, s: State, start: Time)
    requires Reachable(CountStats(w, epoch, home), s) && KnownMessages(w, s.log) && SendersHaveJoined(w, s.log)
    requires start >= epoch && (start - epoch) % DAY == 0
    requires FilledTo(s, MESSAGES_BY_BOT, start + DAY) && FilledTo(s, MESSAGES_BY_CLIENT, start + DAY)
    requires FilledTo(s, MESSAGES_BY_TYPE, start + DAY)
    ensures InstallationSumOfHours(s, MESSAGES_BY_BOT, start, 24)
         == InstallationSum(s, MESSAGES_BY_CLIENT, start + DAY)
         == InstallationSum(s, MESSAGES_BY_TYPE, start + DAY)
  {
    hide Reachable;
    hide InstallationSum;
    hide InstallationSumOfHours;
    hide HourlyInstallation;
    hide InstallationTotal;
    hide MessagesByUser;
    hide MessagesByType;
    NamesDiffer();
    HourSums(w, epoch, home, s, start, 24);
    MessageSums(w, epoch, home, s, MESSAGES_BY_CLIENT, start + DAY);
    MessageSums(w, epoch, home, s, MESSAGES_BY_TYPE, start + DAY);
    InstallationHoursMakeUpTheDay(w, s.log, start);
  }

  lemma RealmMessageSums(w: World, epoch: Time, home: (TableId, int) -> int, s: State, p: string, e: Time, realm: int)
    requires Reachable(CountStats(w, epoch, home), s)
    requires p in {MESSAGES_BY_BOT, MESSAGES_BY_CLIENT, MESSAGES_BY_TYPE}
    requires FilledTo(s, p, e) && e > epoch && (e - epoch) % StatOf(p).increment == 0
    ensures p == MESSAGES_BY_BOT ==> RealmSum(s, p, e, realm) == RealmHour(w, s.log, e - HOUR, realm)
    ensures p == MESSAGES_BY_CLIENT ==>
              RealmSum(s, p, e, realm) == RealmTotal(MessagesByUser(w, p, s.log, e - DAY, e, ByClient), p, e, realm)
    ensures p == MESSAGES_BY_TYPE ==>
              RealmSum(s, p, e, realm) == RealmTotal(MessagesByType(w, p, s.log, e - DAY, e), p, e, realm)
  {
    hide Reachable;
    hide MessagesByUser;
    hide MessagesByType;
    hide RealmRows;
    hide InstallationRows;
    hide Slot;
    hide UserTotal;
    NamesDiffer();
    FilledRows(CountStats(w, epoch, home), w, epoch, home, s, p, e);
  }

  lemma {:induction false} RealmHourSums(w: World, epoch: Time, home: (TableId, int) -> int, s: State, start: Time,
                                         realm: int, n: nat)
    requires Reachable(CountStats(w, epoch, home), s)
    requires start >= epoch && (start - epoch) % HOUR == 0 && FilledTo(s, MESSAGES_BY_BOT, start + n * HOUR)
    ensures RealmSumOfHours(s, MESSAGES_BY_BOT, start, realm, n) == HourlyRealm(w, s.log, start, realm, n)
  {
    hide Reachable;
    hide RealmHour;
    hide RealmSum;
    if n > 0 {
      NamesDiffer();
      assert StatOf(MESSAGES_BY_BOT).increment == HOUR;
      RealmHourSums(w, epoch, home, s, start, realm, n - 1);
      RealmMessageSums(w, epoch, home, s, MESSAGES_BY_BOT, start + n * HOUR, realm);
    }
  }

  /** The same holds of each realm's stored RealmCount values. */
  lemma StoredRealmHoursMakeUpTheDay(w: World, epoch: Time, home: (TableId, int) -> int, s: State, start: Time, realm: int)
    requires Reachable(CountStats(w, epoch, home), s) && KnownMessages(w, s.log) && SendersHaveJoined(w, s.log)
    requires start >= epoch && (start - epoch) % DAY == 0
    requires FilledTo(s, MESSAGES_BY_BOT, start + DAY) && FilledTo(s, MESSAGES_BY_CLIENT, start + DAY)
    requires FilledTo(s, MESSAGES_BY_TYPE, start + DAY)
    ensures RealmSumOfHours(s, MESSAGES_BY_BOT, start, realm, 24)
         == RealmSum(s, MESSAGES_BY_CLIENT, start + DAY, realm)
         == RealmSum(s, MESSAGES_BY_TYPE, start + DAY, realm)
  {
    hide Reachable;
    hide RealmSum;
    hide RealmSumOfHours;
    hide HourlyRealm;
    hide RealmTotal;
    hide MessagesByUser;
    hide MessagesByType;
    NamesDiffer();
    RealmHourSums(w, epoch, home, s, start, realm, 24);
    RealmMessageSums(w, epoch, home, s, MESSAGES_BY_CLIENT, start + DAY, realm);
    RealmMessageSums(w, epoch, home, s, MESSAGES_BY_TYPE, start + DAY, realm);
    RealmHoursMakeUpTheDay(w, s.log, start, realm);
  }
}
