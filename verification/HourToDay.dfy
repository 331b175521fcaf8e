/** The hourly and the daily message stats agree: what a user, a realm or the installation sent
    in the 24 hours of a day adds up to the day. */
module HourToDay {
  import opened Options
  import opened Sums
  import opened CountTables
  import opened Events
  import opened World
  import opened MessageCounts

  /** `SELECT sum(value) WHERE user_id = user`. */
  ghost function UserTotal(rows: Rows, user: int): int {
    Sum(map k | k in rows && k.id == user :: rows[k].value)
  }

  ghost function HourTotal(w: World, log: seq<Event>, from: Time, user: int): int {
    UserTotal(MessagesByUser(w, "messages_sent:is_bot:hour", log, from, from + HOUR, ByIsBot), user)
  }

  /** The total over the first `n` hours from `start` of messages_sent:is_bot:hour. */
  ghost function HourlyTotal(w: World, log: seq<Event>, start: Time, user: int, n: nat): int {
    if n == 0 then 0 else HourlyTotal(w, log, start, user, n - 1) + HourTotal(w, log, start + (n - 1) * HOUR, user)
  }

  ghost function ClientTotal(w: World, log: seq<Event>, start: Time, user: int): int {
    UserTotal(MessagesByUser(w, "messages_sent:client:day", log, start, start + DAY, ByClient), user)
  }

  ghost function TypeTotal(w: World, log: seq<Event>, start: Time, user: int): int {
    UserTotal(MessagesByType(w, "messages_sent:message_type:day", log, start, start + DAY), user)
  }

  /** Grouping a user's messages further does not change their total. */
  lemma TotalOfGrouped(w: World, counted: map<int, int>, keys: map<int, Key>, user: int)
    requires counted.Keys <= keys.Keys
    ensures UserTotal(UserRows(w, Grouped(counted, keys)), user)
         == Sum(map i | i in counted && keys[i].id == user :: counted[i])
  {
    hide Sum;
    var sums := Grouped(counted, keys);
    var ids := map k | k in sums :: k.id;
    var users := map i | i in counted :: keys[i].id;
    assert forall i | i in counted :: keys[i] in ids by {
      forall i | i in counted { InGrouped(counted, keys, i); }
    }
    FiberOfGrouped(counted, keys, ids, users, user);
    SumGrouped(Fiber(counted, users, user), keys);
    assert Fiber(counted, users, user) == map i | i in counted && keys[i].id == user :: counted[i];
    assert Fiber(sums, ids, user) == map k | k in UserRows(w, sums) && k.id == user :: UserRows(w, sums)[k].value;
  }

  /** The end of the hour, counted from `start`, that contains `t`. */
  function HourEnd(start: Time, t: Time): Time {
    start + ((t - start) / HOUR + 1) * HOUR
  }

  /** The user's messages in the first `n` hours that the hourly query counts. */
  function CountedHourly(w: World, log: seq<Event>, start: Time, user: int, n: nat): set<int> {
    set i: int | 0 <= i < |log| && log[i].Message? && start <= log[i].time < start + n * HOUR && log[i].sender == user
                 && user in w.users && w.users[user].dateJoined < HourEnd(start, log[i].time)
  }

  /** The user's messages of the day that the daily client query counts. */
  function CountedDaily(w: World, log: seq<Event>, start: Time, user: int): set<int> {
    set i: int | 0 <= i < |log| && log[i].Message? && start <= log[i].time < start + DAY && log[i].sender == user
                 && user in w.users && w.users[user].dateJoined < start + DAY
  }

  /** All the user's messages of the day. */
  function SentDaily(w: World, log: seq<Event>, start: Time, user: int): set<int> {
    set i: int | 0 <= i < |log| && log[i].Message? && start <= log[i].time < start + DAY && log[i].sender == user && user in w.users
  }

  function Ones(s: set<int>): map<int, int> {
    map i | i in s :: 1
  }

  lemma SumOnes(s: set<int>)
    ensures Sum(Ones(s)) == |s|
  {
    SumOfOnes(Ones(s));
    assert Ones(s).Keys == s;
  }

  lemma ClientTotalIsCount(w: World, log: seq<Event>, start: Time, user: int)
    ensures ClientTotal(w, log, start, user) == |CountedDaily(w, log, start, user)|
  {
    hide Sum;
    hide Grouped;
    var p := "messages_sent:client:day";
    var counted, keys := CountedByUser(w, log, start, start + DAY), ByUserKeys(w, p, log, start, start + DAY, ByClient);
    TotalOfGrouped(w, counted, keys, user);
    assert (map i | i in counted && keys[i].id == user :: counted[i]) == Ones(CountedDaily(w, log, start, user));
    SumOnes(CountedDaily(w, log, start, user));
  }

  lemma TypeTotalIsCount(w: World, log: seq<Event>, start: Time, user: int)
    requires KnownMessages(w, log)
    ensures TypeTotal(w, log, start, user) == |SentDaily(w, log, start, user)|
  {
    hide Sum;
    hide Grouped;
    var p := "messages_sent:message_type:day";
    NestedIsDirect(w, p, log, start, start + DAY);
    var counted, keys := CountedByType(w, log, start, start + DAY), DirectKeys(w, p, log, start, start + DAY);
    TotalOfGrouped(w, counted, keys, user);
    assert (map i | i in counted && keys[i].id == user :: counted[i]) == Ones(SentDaily(w, log, start, user));
    SumOnes(SentDaily(w, log, start, user));
  }

  /** Half-open hours tile the day: each message falls into one of them. */
  lemma {:induction false} HourlyTotalIsCount(w: World, log: seq<Event>, start: Time, user: int, n: nat)
    ensures HourlyTotal(w, log, start, user, n) == |CountedHourly(w, log, start, user, n)|
  {
    hide HourTotal;
    if n == 0 {
      assert CountedHourly(w, log, start, user, 0) == {};
    } else {
      hide CountedHourly;
      hide CountedInHour;
      HourlyTotalIsCount(w, log, start, user, n - 1);
      LastHour(w, log, start, user, n);
      HourTotalIsCount(w, log, start + (n - 1) * HOUR, user);
    }
  }

  /** The user's messages that the hourly query counts in the hour after `from`. */
  function CountedInHour(w: World, log: seq<Event>, from: Time, user: int): set<int> {
    set i: int | 0 <= i < |log| && log[i].Message? && from <= log[i].time < from + HOUR && log[i].sender == user
                 && user in w.users && w.users[user].dateJoined < from + HOUR
  }

  lemma HourTotalIsCount(w: World, log: seq<Event>, from: Time, user: int)
    ensures HourTotal(w, log, from, user) == |CountedInHour(w, log, from, user)|
  {
    hide Sum;
    hide Grouped;
    var p, to := "messages_sent:is_bot:hour", from + HOUR;
    var counted, keys := CountedByUser(w, log, from, to), ByUserKeys(w, p, log, from, to, ByIsBot);
    TotalOfGrouped(w, counted, keys, user);
    assert (map i | i in counted && keys[i].id == user :: counted[i]) == Ones(CountedInHour(w, log, from, user));
    SumOnes(CountedInHour(w, log, from, user));
  }

  lemma LastHour(w: World, log: seq<Event>, start: Time, user: int, n: nat)
    requires n > 0
    ensures |CountedHourly(w, log, start, user, n)|
         == |CountedHourly(w, log, start, user, n - 1)| + |CountedInHour(w, log, start + (n - 1) * HOUR, user)|
  {
    var before, after := CountedHourly(w, log, start, user, n - 1), CountedHourly(w, log, start, user, n);
    var hour := CountedInHour(w, log, start + (n - 1) * HOUR, user);
    forall i | 0 <= i < |log| && start + (n - 1) * HOUR <= log[i].time < start + n * HOUR ensures HourEnd(start, log[i].time) == start + n * HOUR {}
    assert before !! hour;
    assert after == before + hour;
  }

  lemma SubsetsOfEqualSize<T>(a: set<T>, b: set<T>)
    requires a <= b
    ensures |a| <= |b| && (|a| == |b| <==> a == b)
  {
    assert b == a + (b - a) && a !! (b - a);
  }

  /** Exactly when a user's 24 hourly totals make up the day: the hourly stat leaves out what was
      sent in hours that had ended when the user joined, the daily client stat what was sent by
      users who joined after the day. */
  lemma HoursVersusDay(w: World, log: seq<Event>, start: Time, user: int)
    requires KnownMessages(w, log)
    ensures HourlyTotal(w, log, start, user, 24) <= ClientTotal(w, log, start, user) <= TypeTotal(w, log, start, user)
    ensures HourlyTotal(w, log, start, user, 24) == TypeTotal(w, log, start, user)
       <==> forall i | i in SentDaily(w, log, start, user) :: w.users[user].dateJoined < HourEnd(start, log[i].time)
    ensures HourlyTotal(w, log, start, user, 24) == ClientTotal(w, log, start, user)
       <==> forall i | i in CountedDaily(w, log, start, user) :: w.users[user].dateJoined < HourEnd(start, log[i].time)
  {
    HourlyTotalIsCount(w, log, start, user, 24);
    ClientTotalIsCount(w, log, start, user);
    TypeTotalIsCount(w, log, start, user);
    hide HourlyTotal;
    hide ClientTotal;
    hide TypeTotal;
    hide CountedHourly;
    hide CountedDaily;
    hide SentDaily;
    NestedSets(w, log, start, user);
  }

  lemma NestedSets(w: World, log: seq<Event>, start: Time, user: int)
    ensures var hours, client, all := CountedHourly(w, log, start, user, 24), CountedDaily(w, log, start, user), SentDaily(w, log, start, user);
            && |hours| <= |client| <= |all|
            && (|hours| == |all| <==> forall i | i in all :: w.users[user].dateJoined < HourEnd(start, log[i].time))
            && (|hours| == |client| <==> forall i | i in client :: w.users[user].dateJoined < HourEnd(start, log[i].time))
  {
    var hours, client, all := CountedHourly(w, log, start, user, 24), CountedDaily(w, log, start, user), SentDaily(w, log, start, user);
    forall i | 0 <= i < |log| && start <= log[i].time < start + DAY ensures HourEnd(start, log[i].time) <= start + DAY {}
    assert hours <= client <= all;
    SubsetsOfEqualSize(hours, client);
    SubsetsOfEqualSize(client, all);
    SubsetsOfEqualSize(hours, all);
    forall i | i in all ensures i in hours <==> w.users[user].dateJoined < HourEnd(start, log[i].time) {}
  }

  /** With senders joined no later than they send, all three stats agree for every user. */
  lemma HoursMakeUpTheDay(w: World, log: seq<Event>, start: Time, user: int)
    requires KnownMessages(w, log) && SendersHaveJoined(w, log)
    ensures HourlyTotal(w, log, start, user, 24) == ClientTotal(w, log, start, user) == TypeTotal(w, log, start, user)
         == |SentDaily(w, log, start, user)|
  {
    hide HourlyTotal;
    hide ClientTotal;
    hide TypeTotal;
    hide SentDaily;
    hide CountedDaily;
    hide HourEnd;
    TypeTotalIsCount(w, log, start, user);
    HoursVersusDay(w, log, start, user);
    SendersJoinInTime(w, log, start, user);
  }

  lemma SendersJoinInTime(w: World, log: seq<Event>, start: Time, user: int)
    requires SendersHaveJoined(w, log)
    ensures forall i | i in SentDaily(w, log, start, user) :: w.users[user].dateJoined < HourEnd(start, log[i].time)
  {
    forall i | i in SentDaily(w, log, start, user) ensures w.users[user].dateJoined < HourEnd(start, log[i].time) {
      assert log[i].time < HourEnd(start, log[i].time);
    }
  }

  /* The same for the whole installation. */

  /** The sum of all InstallationCount values that aggregating `rows` produces. */
  ghost function InstallationTotal(rows: Rows, p: string, e: Time): int {
    Sum(Values(InstallationRows(RealmRows(rows, p, e), p, e)))
  }

  lemma InstallationTotalIsSum(w: World, counted: map<int, int>, keys: map<int, Key>, p: string, e: Time)
    requires counted.Keys <= keys.Keys
    ensures InstallationTotal(UserRows(w, Grouped(counted, keys)), p, e) == Sum(counted)
  {
    hide Sum;
    hide Grouped;
    var rows := UserRows(w, Grouped(counted, keys));
    AggregationConserves(rows, p, e);
    AggregationConserves(RealmRows(rows, p, e), p, e);
    SumGrouped(counted, keys);
    assert Values(rows) == Grouped(counted, keys);
  }

  function SentBetween(log: seq<Event>, start: Time, end: Time): set<int> {
    set i: int | 0 <= i < |log| && log[i].Message? && start <= log[i].time < end
  }

  /** Both daily stats count every message of the day once, at the installation level. */
  lemma InstallationDay(w: World, log: seq<Event>, start: Time)
    requires KnownMessages(w, log) && SendersHaveJoined(w, log)
    ensures var client, typed := "messages_sent:client:day", "messages_sent:message_type:day";
            && InstallationTotal(MessagesByUser(w, client, log, start, start + DAY, ByClient), client, start + DAY)
               == |SentBetween(log, start, start + DAY)|
            && InstallationTotal(MessagesByType(w, typed, log, start, start + DAY), typed, start + DAY)
               == |SentBetween(log, start, start + DAY)|
  {
    hide Sum;
    hide Grouped;
    hide InstallationTotal;
    var client, typed, end := "messages_sent:client:day", "messages_sent:message_type:day", start + DAY;
    var all := SentBetween(log, start, end);
    InstallationTotalIsSum(w, CountedByUser(w, log, start, end), ByUserKeys(w, client, log, start, end, ByClient), client, end);
    NestedIsDirect(w, typed, log, start, end);
    InstallationTotalIsSum(w, CountedByType(w, log, start, end), DirectKeys(w, typed, log, start, end), typed, end);
    assert CountedByUser(w, log, start, end) == Ones(all);
    assert CountedByType(w, log, start, end) == Ones(all);
    SumOnes(all);
  }

  /** The total of InstallationCount over the first `n` hours from `start`. */
  ghost function HourlyInstallation(w: World, log: seq<Event>, start: Time, n: nat): int {
    if n == 0 then 0 else HourlyInstallation(w, log, start, n - 1) + InstallationHour(w, log, start + (n - 1) * HOUR)
  }

  ghost function InstallationHour(w: World, log: seq<Event>, from: Time): int {
    var p := "messages_sent:is_bot:hour";
    InstallationTotal(MessagesByUser(w, p, log, from, from + HOUR, ByIsBot), p, from + HOUR)
  }

  lemma InstallationHourIsCount(w: World, log: seq<Event>, from: Time)
    requires KnownMessages(w, log) && SendersHaveJoined(w, log)
    ensures InstallationHour(w, log, from) == |SentBetween(log, from, from + HOUR)|
  {
    hide Sum;
    hide Grouped;
    hide InstallationTotal;
    var p, end := "messages_sent:is_bot:hour", from + HOUR;
    InstallationTotalIsSum(w, CountedByUser(w, log, from, end), ByUserKeys(w, p, log, from, end, ByIsBot), p, end);
    assert CountedByUser(w, log, from, end) == Ones(SentBetween(log, from, end));
    SumOnes(SentBetween(log, from, end));
  }

  lemma OneMoreHour(log: seq<Event>, start: Time, n: nat)
    requires n > 0
    ensures |SentBetween(log, start, start + n * HOUR)|
         == |SentBetween(log, start, start + (n - 1) * HOUR)| + |SentBetween(log, start + (n - 1) * HOUR, start + n * HOUR)|
  {
    var before, hour := SentBetween(log, start, start + (n - 1) * HOUR), SentBetween(log, start + (n - 1) * HOUR, start + n * HOUR);
    assert before !! hour;
    assert SentBetween(log, start, start + n * HOUR) == before + hour;
  }

  lemma {:induction false} HourlyInstallationIsCount(w: World, log: seq<Event>, start: Time, n: nat)
    requires KnownMessages(w, log) && SendersHaveJoined(w, log)
    ensures HourlyInstallation(w, log, start, n) == |SentBetween(log, start, start + n * HOUR)|
  {
    hide InstallationHour;
    if n == 0 {
      assert SentBetween(log, start, start) == {};
    } else {
      hide SentBetween;
      HourlyInstallationIsCount(w, log, start, n - 1);
      InstallationHourIsCount(w, log, start + (n - 1) * HOUR);
      OneMoreHour(log, start, n);
    }
  }

  /** The equality survives both aggregation levels: the InstallationCount values of a day's 24
      hours add up to those of either daily stat, and to the number of messages sent. */
  lemma InstallationHoursMakeUpTheDay(w: World, log: seq<Event>, start: Time)
    requires KnownMessages(w, log) && SendersHaveJoined(w, log)
    ensures var client, typed, end := "messages_sent:client:day", "messages_sent:message_type:day", start + DAY;
            HourlyInstallation(w, log, start, 24)
            == InstallationTotal(MessagesByUser(w, client, log, start, end, ByClient), client, end)
            == InstallationTotal(MessagesByType(w, typed, log, start, end), typed, end)
            == |SentBetween(log, start, end)|
  {
    HourlyInstallationIsCount(w, log, start, 24);
    InstallationDay(w, log, start);
  }

  /* The same for each realm, in RealmCount. */

  /** The sum of a realm's RealmCount values that aggregating `rows` produces. */
  ghost function RealmTotal(rows: Rows, p: string, e: Time, realm: int): int {
    UserTotal(RealmRows(rows, p, e), realm)
  }

  /** The RealmCount row each counted message ends up in. */
  function ByRealmKeys(w: World, counted: map<int, int>, keys: map<int, Key>, p: string, e: Time): map<int, Key>
    requires forall i | i in counted :: i in keys && keys[i].id in w.users
  {
    map i | i in counted :: Key(p, e, w.users[keys[i].id].realm, keys[i].subgroup)
  }

  /** The values of one realm's users. */
  function OfRealm<T>(w: World, counted: map<T, int>, keys: map<T, Key>, realm: int): map<T, int>
    requires forall i | i in counted :: i in keys && keys[i].id in w.users
  {
    map i | i in counted && w.users[keys[i].id].realm == realm :: counted[i]
  }

  /** A realm's RealmCount values add up to the values of its own users. */
  lemma RealmTotalIsSum(w: World, counted: map<int, int>, keys: map<int, Key>, p: string, e: Time, realm: int)
    requires counted.Keys <= keys.Keys && forall i | i in counted :: i in keys && keys[i].id in w.users
    ensures RealmTotal(UserRows(w, Grouped(counted, keys)), p, e, realm) == Sum(OfRealm(w, counted, keys, realm))
  {
    hide Sum;
    hide Grouped;
    var inner, direct := Grouped(counted, keys), ByRealmKeys(w, counted, keys, p, e);
    var rows := UserRows(w, inner);
    assert Values(rows) == inner;
    forall i | i in counted { InGrouped(counted, keys, i); }
    GroupedTwice(counted, keys, RealmKeys(rows, p, e), direct);
    SameValues(RealmRows(rows, p, e), UserRows(w, Grouped(counted, direct)), realm);
    TotalOfGrouped(w, counted, direct, realm);
    SameSelection(w, counted, keys, direct, realm);
  }

  lemma SameSelection<T>(w: World, counted: map<T, int>, keys: map<T, Key>, direct: map<T, Key>, realm: int)
    requires forall i | i in counted :: i in keys && keys[i].id in w.users
    requires counted.Keys <= direct.Keys && forall i | i in counted :: direct[i].id == w.users[keys[i].id].realm
    ensures (map i | i in counted && direct[i].id == realm :: counted[i]) == OfRealm(w, counted, keys, realm)
  {
    assert forall i | i in counted :: i in keys && i in direct;
  }

  lemma SameValues(a: Rows, b: Rows, id: int)
    requires a.Keys == b.Keys && forall k | k in a :: a[k].value == b[k].value
    ensures UserTotal(a, id) == UserTotal(b, id)
  {
    assert (map k | k in a && k.id == id :: a[k].value) == (map k | k in b && k.id == id :: b[k].value);
  }

  /** The messages that users of a realm sent in the window. */
  function SentInRealm(w: World, log: seq<Event>, realm: int, start: Time, end: Time): set<int> {
    set i: int | 0 <= i < |log| && log[i].Message? && start <= log[i].time < end
                 && log[i].sender in w.users && w.users[log[i].sender].realm == realm
  }

  lemma RealmCountsByUser(w: World, log: seq<Event>, realm: int, start: Time, end: Time, p: string, group: GroupBy)
    requires KnownMessages(w, log) && SendersHaveJoined(w, log)
    ensures RealmTotal(MessagesByUser(w, p, log, start, end, group), p, end, realm) == |SentInRealm(w, log, realm, start, end)|
  {
    hide Sum;
    hide Grouped;
    hide RealmTotal;
    hide UserRows;
    hide SubgroupText;
    var counted, keys := CountedByUser(w, log, start, end), ByUserKeys(w, p, log, start, end, group);
    var sent := SentInRealm(w, log, realm, start, end);
    RealmTotalIsSum(w, counted, keys, p, end, realm);
    assert OfRealm(w, counted, keys, realm) == Ones(sent);
    SumOnes(sent);
  }

  lemma RealmCountsByType(w: World, log: seq<Event>, realm: int, start: Time, end: Time, p: string)
    requires KnownMessages(w, log)
    ensures RealmTotal(MessagesByType(w, p, log, start, end), p, end, realm) == |SentInRealm(w, log, realm, start, end)|
  {
    NestedIsDirect(w, p, log, start, end);
    hide Sum;
    hide Grouped;
    hide RealmTotal;
    hide UserRows;
    hide TypeOf;
    hide MessagesByType;
    var counted, keys := CountedByType(w, log, start, end), DirectKeys(w, p, log, start, end);
    var sent := SentInRealm(w, log, realm, start, end);
    RealmTotalIsSum(w, counted, keys, p, end, realm);
    assert OfRealm(w, counted, keys, realm) == Ones(sent);
    SumOnes(sent);
  }

  ghost function RealmHour(w: World, log: seq<Event>, from: Time, realm: int): int {
    var p := "messages_sent:is_bot:hour";
    RealmTotal(MessagesByUser(w, p, log, from, from + HOUR, ByIsBot), p, from + HOUR, realm)
  }

  /** The total of a realm's RealmCount values over the first `n` hours from `start`. */
  ghost function HourlyRealm(w: World, log: seq<Event>, start: Time, realm: int, n: nat): int {
    if n == 0 then 0 else HourlyRealm(w, log, start, realm, n - 1) + RealmHour(w, log, start + (n - 1) * HOUR, realm)
  }

  lemma OneMoreRealmHour(w: World, log: seq<Event>, realm: int, start: Time, n: nat)
    requires n > 0
    ensures |SentInRealm(w, log, realm, start, start + n * HOUR)|
         == |SentInRealm(w, log, realm, start, start + (n - 1) * HOUR)|
            + |SentInRealm(w, log, realm, start + (n - 1) * HOUR, start + n * HOUR)|
  {
    var middle := start + (n - 1) * HOUR;
    var before, hour := SentInRealm(w, log, realm, start, middle), SentInRealm(w, log, realm, middle, start + n * HOUR);
    assert before !! hour;
    assert SentInRealm(w, log, realm, start, start + n * HOUR) == before + hour;
  }

  lemma RealmHourIsCount(w: World, log: seq<Event>, from: Time, realm: int)
    requires KnownMessages(w, log) && SendersHaveJoined(w, log)
    ensures RealmHour(w, log, from, realm) == |SentInRealm(w, log, realm, from, from + HOUR)|
  {
    RealmCountsByUser(w, log, realm, from, from + HOUR, "messages_sent:is_bot:hour", ByIsBot);
  }

  lemma {:induction false} HourlyRealmIsCount(w: World, log: seq<Event>, start: Time, realm: int, n: nat)
    requires KnownMessages(w, log) && SendersHaveJoined(w, log)
    ensures HourlyRealm(w, log, start, realm, n) == |SentInRealm(w, log, realm, start, start + n * HOUR)|
  {
    hide RealmHour;
    hide KnownMessages;
    hide SendersHaveJoined;
    if n == 0 {
      assert SentInRealm(w, log, realm, start, start) == {};
    } else {
      hide SentInRealm;
      HourlyRealmIsCount(w, log, start, realm, n - 1);
      RealmHourIsCount(w, log, start + (n - 1) * HOUR, realm);
      OneMoreRealmHour(w, log, realm, start, n);
    }
  }

  /** For every realm, the RealmCount values of a day's 24 hours add up to those of either daily stat,
      and to the number of messages that its users sent. */
  lemma RealmHoursMakeUpTheDay(w: World, log: seq<Event>, start: Time, realm: int)
    requires KnownMessages(w, log) && SendersHaveJoined(w, log)
    ensures var client, typed, end := "messages_sent:client:day", "messages_sent:message_type:day", start + DAY;
            HourlyRealm(w, log, start, realm, 24)
            == RealmTotal(MessagesByUser(w, client, log, start, end, ByClient), client, end, realm)
            == RealmTotal(MessagesByType(w, typed, log, start, end), typed, end, realm)
            == |SentInRealm(w, log, realm, start, end)|
  {
    hide HourlyRealm;
    hide RealmTotal;
    hide SentInRealm;
    HourlyRealmIsCount(w, log, start, realm, 24);
    RealmCountsByUser(w, log, realm, start, start + DAY, "messages_sent:client:day", ByClient);
    RealmCountsByType(w, log, realm, start, start + DAY, "messages_sent:message_type:day");
  }

  /** A message from a user who joins two hours later on the same day: no hour counts it, the day does. */
  lemma EarlyMessageIsMissedByHours()
    ensures var w := World(map[1 := User(3, false, 2 * HOUR)], map[5 := Recipient(PERSONAL, 1)], map[]);
            var log := [Message(0, 1, 5, 9)];
            && KnownMessages(w, log)
            && HourlyTotal(w, log, 0, 1, 24) == 0 && ClientTotal(w, log, 0, 1) == 1 && TypeTotal(w, log, 0, 1) == 1
  {
    hide HourlyTotal;
    hide ClientTotal;
    hide TypeTotal;
    var w := World(map[1 := User(3, false, 2 * HOUR)], map[5 := Recipient(PERSONAL, 1)], map[]);
    var log := [Message(0, 1, 5, 9)];
    HourlyTotalIsCount(w, log, 0, 1, 24);
    ClientTotalIsCount(w, log, 0, 1);
    TypeTotalIsCount(w, log, 0, 1);
    assert CountedHourly(w, log, 0, 1, 24) == {};
    assert CountedDaily(w, log, 0, 1) == {0};
    assert SentDaily(w, log, 0, 1) == {0};
  }
}
