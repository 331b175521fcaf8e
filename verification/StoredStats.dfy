/** What the count tables hold for each stat of COUNT_STATS, told from the source rows alone, in every
    state that any run, crashed and restarted, reaches. */
module StoredStats {
  import opened Options
  import opened Sums
  import opened CountTables
  import opened Events
  import opened FillMachine
  import opened FillTheorems
  import opened World
  import opened MessageCounts
  import opened ActiveUsers
  import opened MinutesActive
  import opened LoggingRuns
  import opened Registry

  /** FillState of the stat has reached `e`, one of its end times. */
  ghost predicate Filled(w: World, epoch: Time, home: (TableId, int) -> int, s: State, p: string, step: Time, e: Time)
    requires step > 0
  {
    Reachable(CountStats(w, epoch, home), s) && FilledTo(s, p, e) && e > epoch && (e - epoch) % step == 0
  }

  /** messages_sent:is_bot:hour. */
  lemma HourlyMessagesAreStored(w: World, epoch: Time, home: (TableId, int) -> int, s: State, e: Time, user: int, isBot: bool)
    requires Filled(w, epoch, home, s, "messages_sent:is_bot:hour", HOUR, e)
    ensures var k := Key("messages_sent:is_bot:hour", e, user, Some(if isBot then "true" else "false"));
            var messages := SentAs(w, s.log, e - HOUR, e, user, isBot);
            && (k in s.tables.user <==> messages != {})
            && (k in s.tables.user ==> user in w.users && s.tables.user[k] == Cell(w.users[user].realm, |messages|))
  {
    hide Reachable;
    hide MessagesByUser;
    hide SentAs;
    NamesDiffer();
    FilledRows(CountStats(w, epoch, home), w, epoch, home, s, MESSAGES_BY_BOT, e);
    UserMessagesAreCounted(w, MESSAGES_BY_BOT, s.log, e - HOUR, e, user, isBot);
    var k := Key(MESSAGES_BY_BOT, e, user, Some(if isBot then "true" else "false"));
    assert k in s.tables.user <==> k in Slot(s.tables.user, MESSAGES_BY_BOT, e);
  }

  /** messages_sent:client:day. */
  lemma ClientMessagesAreStored(w: World, epoch: Time, home: (TableId, int) -> int, s: State, e: Time, user: int, client: int)
    requires Filled(w, epoch, home, s, "messages_sent:client:day", DAY, e)
    ensures var k := Key("messages_sent:client:day", e, user, Some(Decimal(client)));
            var messages := SentWith(w, s.log, e - DAY, e, user, client);
            && (k in s.tables.user <==> messages != {})
            && (k in s.tables.user ==> user in w.users && s.tables.user[k] == Cell(w.users[user].realm, |messages|))
  {
    hide Reachable;
    hide MessagesByUser;
    hide SentWith;
    hide Decimal;
    NamesDiffer();
    FilledRows(CountStats(w, epoch, home), w, epoch, home, s, MESSAGES_BY_CLIENT, e);
    ClientMessagesAreCounted(w, MESSAGES_BY_CLIENT, s.log, e - DAY, e, user, client);
    var k := Key(MESSAGES_BY_CLIENT, e, user, Some(Decimal(client)));
    assert k in s.tables.user <==> k in Slot(s.tables.user, MESSAGES_BY_CLIENT, e);
  }

  /** messages_sent:message_type:day. */
  lemma MessageTypesAreStored(w: World, epoch: Time, home: (TableId, int) -> int, s: State, e: Time, user: int, messageType: string)
    requires Filled(w, epoch, home, s, "messages_sent:message_type:day", DAY, e)
    ensures var k := Key("messages_sent:message_type:day", e, user, Some(messageType));
            var messages := OfType(w, s.log, e - DAY, e, user, messageType);
            && (k in s.tables.user <==> messages != {})
            && (k in s.tables.user ==> user in w.users && s.tables.user[k] == Cell(w.users[user].realm, |messages|))
  {
    hide Reachable;
    hide MessagesByType;
    hide OfType;
    NamesDiffer();
    FilledRows(CountStats(w, epoch, home), w, epoch, home, s, MESSAGES_BY_TYPE, e);
    NestedGroupingIsFaithful(w, MESSAGES_BY_TYPE, s.log, e - DAY, e, user, messageType);
    var k := Key(MESSAGES_BY_TYPE, e, user, Some(messageType));
    assert k in s.tables.user <==> k in Slot(s.tables.user, MESSAGES_BY_TYPE, e);
  }

  /** messages_in_stream:is_bot:day. */
  lemma StreamMessagesAreStored(w: World, epoch: Time, home: (TableId, int) -> int, s: State, e: Time, stream: int, isBot: bool)
    requires Filled(w, epoch, home, s, "messages_in_stream:is_bot:day", DAY, e)
    ensures var k := Key("messages_in_stream:is_bot:day", e, stream, Some(if isBot then "true" else "false"));
            var messages := SentTo(w, s.log, e - DAY, e, stream, isBot);
            && (k in s.tables.stream <==> messages != {})
            && (k in s.tables.stream ==> stream in w.streams && s.tables.stream[k] == Cell(w.streams[stream].realm, |messages|))
  {
    hide Reachable;
    hide MessagesByStream;
    hide SentTo;
    NamesDiffer();
    FilledRows(CountStats(w, epoch, home), w, epoch, home, s, MESSAGES_IN_STREAM, e);
    StreamMessagesAreCounted(w, MESSAGES_IN_STREAM, s.log, e - DAY, e, stream, isBot);
    var k := Key(MESSAGES_IN_STREAM, e, stream, Some(if isBot then "true" else "false"));
    assert k in s.tables.stream <==> k in Slot(s.tables.stream, MESSAGES_IN_STREAM, e);
  }

  /** upload_quota_used_bytes::day: all uploads before the end time, not only those of the day. */
  lemma UploadsAreStored(w: World, epoch: Time, home: (TableId, int) -> int, s: State, e: Time, realm: int)
    requires Filled(w, epoch, home, s, "upload_quota_used_bytes::day", DAY, e)
    ensures var k, sizes := Key("upload_quota_used_bytes::day", e, realm, None), UploadedIn(s.log, e, realm);
            && (k in s.tables.realm <==> sizes != map[])
            && (k in s.tables.realm ==> s.tables.realm[k] == Cell(realm, Sum(sizes)))
  {
    hide Reachable;
    hide UploadSpace;
    hide UploadedIn;
    hide Sum;
    NamesDiffer();
    FilledRows(CountStats(w, epoch, home), w, epoch, home, s, UPLOAD_QUOTA, e);
    UploadsAreAddedUp(UPLOAD_QUOTA, s.log, e, realm);
    var k := Key(UPLOAD_QUOTA, e, realm, None);
    assert k in s.tables.realm <==> k in Slot(s.tables.realm, UPLOAD_QUOTA, e);
  }

  lemma ActivesCollected(w: World, p: string, days: int, log: seq<Event>, input: Rows, e: Time)
    requires (p, days) == (ACTIVES_1DAY, 1) || (p, days) == (ACTIVES_7DAY, 7) || (p, days) == (ACTIVES_15DAY, 15)
    ensures p in PROPERTIES && StatOf(p) == Stat(Ordinary, UserCount, DAY)
    ensures Collect(w, p, log, input, e) == Actives(w, p, log, e - days * DAY + 15 * MINUTE, e)
  {
    hide Actives;
    NamesDiffer();
    assert |ACTIVES_1DAY| == |ACTIVES_7DAY| == 17 && ACTIVES_1DAY[0] == '1' && ACTIVES_7DAY[0] == '7';
  }

  /** 1day_actives::day, 7day_actives::day and 15day_actives::day: windows of that many days, short of
      the 15 minutes by which an interval outlasts the activity. */
  lemma ActiveUsersAreStored(w: World, epoch: Time, home: (TableId, int) -> int, s: State, e: Time, p: string, days: int, user: int)
    requires (p, days) == ("1day_actives::day", 1) || (p, days) == ("7day_actives::day", 7) || (p, days) == ("15day_actives::day", 15)
    requires Filled(w, epoch, home, s, p, DAY, e)
    ensures var k, start := Key(p, e, user, None), e - days * DAY + 15 * MINUTE;
            && (k in s.tables.user <==> user in w.users && exists i ::
                  0 <= i < |s.log| && s.log[i].Activity? && s.log[i].user == user && s.log[i].until >= start && s.log[i].time < e)
            && (k in s.tables.user ==> s.tables.user[k] == Cell(w.users[user].realm, 1))
  {
    hide Reachable;
    hide Actives;
    hide Collect;
    hide StatOf;
    hide Slot;
    ActivesCollected(w, p, days, s.log, NO_ROWS, e);
    FilledRows(CountStats(w, epoch, home), w, epoch, home, s, p, e);
    ActiveUsersAreMarked(w, p, s.log, e - days * DAY + 15 * MINUTE, e, user);
    InItsSlot(s.tables.user, Key(p, e, user, None));
    assert Slot(s.tables.user, p, e) == Actives(w, p, s.log, e - days * DAY + 15 * MINUTE, e);
  }

  lemma InItsSlot(rows: Rows, k: Key)
    ensures var slot := Slot(rows, k.property, k.endTime); (k in rows <==> k in slot) && (k in rows ==> rows[k] == slot[k])
  {}

  /** minutes_active::day: the whole minutes of the day that the user's intervals overlap, from 60 seconds on. */
  lemma MinutesAreStored(w: World, epoch: Time, home: (TableId, int) -> int, s: State, e: Time, user: int)
    requires Filled(w, epoch, home, s, "minutes_active::day", DAY, e)
    ensures var k, active := Key("minutes_active::day", e, user, None), Sum(Overlaps(s.log, user, e - DAY, e));
            && (k in s.tables.user <==> user in w.users && active >= 60_000_000)
            && (k in s.tables.user ==> s.tables.user[k] == Cell(w.users[user].realm, active / 60_000_000))
  {
    hide Reachable;
    hide ActiveTime;
    hide Overlaps;
    hide Sum;
    NamesDiffer();
    FilledRows(CountStats(w, epoch, home), w, epoch, home, s, MINUTES_ACTIVE, e);
    ActiveTimeIsSum(s.log, user, e - DAY, e);
    var k := Key(MINUTES_ACTIVE, e, user, None);
    assert k in s.tables.user <==> k in Slot(s.tables.user, MINUTES_ACTIVE, e);
  }

  lemma LoggingStats()
    ensures StatOf(MESSAGES_READ) == StatOf(READ_INTERACTIONS) == Stat(Logging, UserCount, HOUR)
    ensures StatOf(PUSHES_SENT) == StatOf(INVITES_SENT) == Stat(Logging, RealmCount, DAY)
    ensures PUSHES_SENT != MESSAGES_READ && PUSHES_SENT != READ_INTERACTIONS && INVITES_SENT != MESSAGES_READ && INVITES_SENT != READ_INTERACTIONS
  {
    NamesDiffer();
    assert |MESSAGES_READ| == 19 && |READ_INTERACTIONS| == 32 && |PUSHES_SENT| == 23 && |INVITES_SENT| == 17;
    assert MESSAGES_READ[1] == 'e' && MINUTES_ACTIVE[1] == 'i' && INVITES_SENT[0] == 'i';
    assert |ACTIVES_1DAY| == |ACTIVES_7DAY| == 17 && ACTIVES_1DAY[0] == '1' && ACTIVES_7DAY[0] == '7';
    assert |MESSAGES_IN_STREAM| == 29 && |UPLOAD_QUOTA| == 28;
  }

  /** The four logging stats: the increments that were due in the hour or day that ends at `e`. */
  lemma IncrementsAreStored(w: World, epoch: Time, home: (TableId, int) -> int, run: seq<Action>, s: State, p: string, e: Time, id: int,
                            subgroup: Option<string>)
    requires epoch % DAY == 0 && p in {MESSAGES_READ, READ_INTERACTIONS, PUSHES_SENT, INVITES_SENT}
    requires ValidConfig(CountStats(w, epoch, home)) && Path(CountStats(w, epoch, home), Init(), run, s)
    ensures var hourly := p == "messages_read::hour" || p == "messages_read_interactions::hour";
            var step, table := if hourly then HOUR else DAY, if hourly then UserCount else RealmCount;
            var rows, k := s.tables.Get(table), Key(p, e, id, subgroup);
            var due := IncrementsDue(CountStats(w, epoch, home), run, p, step, e, Some(id), subgroup, None);
            && (k in rows <==> e % step == 0 && due != map[])
            && (k in rows ==> rows[k] == Cell(home(table, id), Sum(due)))
  {
    hide Path;
    hide ValidConfig;
    hide Collect;
    hide IncrementsDue;
    hide Sum;
    hide StatOf;
    LoggingStats();
    RawValueIsSum(CountStats(w, epoch, home), run, s, p, e, id, subgroup);
  }
}
