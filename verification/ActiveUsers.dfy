/** The queries that count active users from the audit log and from activity intervals
    (analytics/lib/counts.py). */
module ActiveUsers {
  import opened Options
  import opened Sums
  import opened CountTables
  import opened Events
  import opened World

  /* DISTINCT ON (modified_user_id) ... ORDER BY modified_user_id, event_time DESC. */

  /** `log[i]` is an account event of `user` before `end`. */
  predicate AccountEventOf(log: seq<Event>, i: int, user: int, end: Time) {
    0 <= i < |log| && log[i].AccountEvent? && log[i].user == user && log[i].time < end
  }

  /** `log[i]` may be the row that DISTINCT ON keeps for `user`: none is later. */
  ghost predicate IsLast(log: seq<Event>, i: int, user: int, end: Time) {
    && AccountEventOf(log, i, user, end)
    && (forall j | AccountEventOf(log, j, user, end) :: log[j].time <= log[i].time)
  }

  ghost function Candidates(log: seq<Event>, user: int, end: Time): set<int> {
    set i: int | 0 <= i < |log| && IsLast(log, i, user, end)
  }

  ghost function Pick<T>(candidates: set<T>): (x: T)
    requires candidates != {}
    ensures x in candidates
  {
    var x :| x in candidates; x
  }

  /** last_user_event; with tied times any of the latest rows. */
  ghost function LastChange(log: seq<Event>, user: int, end: Time): Option<AccountChange> {
    var candidates := Candidates(log, user, end);
    if candidates == {} then None else Some(log[Pick(candidates)].change)
  }

  /** The WHERE clause on last_user_event. */
  ghost predicate CountedActive(log: seq<Event>, user: int, end: Time) {
    var last := LastChange(log, user, end);
    last == Some(UserCreated) || last == Some(UserActivated) || last == Some(UserReactivated)
  }

  /* Replay. */

  predicate Activates(change: AccountChange) {
    change != UserDeactivated
  }

  /** `order` lists the user's account events before `end` by their positions, each once and in the
      order of their times; ties may come in any order. */
  ghost predicate HistoryOf(order: seq<int>, log: seq<Event>, user: int, end: Time) {
    && (forall i :: i in order <==> 0 <= i < |log| && log[i].AccountEvent? && log[i].user == user && log[i].time < end)
    && (forall j, k | 0 <= j < k < |order| :: order[j] != order[k])
    && (forall j, k | 0 <= j < k < |order| && order[j] in order && order[k] in order :: log[order[j]].time <= log[order[k]].time)
  }

  /** The user's state after one event. */
  function Apply(active: bool, change: AccountChange): bool {
    match change
    case UserCreated => true
    case UserActivated => true
    case UserReactivated => true
    case UserDeactivated => false
  }

  predicate AreAccountEvents(log: seq<Event>, order: seq<int>) {
    forall k | 0 <= k < |order| :: 0 <= order[k] < |log| && log[order[k]].AccountEvent?
  }

  /** The user's state after all events, in order; nobody is active before the first. */
  function Replay(log: seq<Event>, order: seq<int>): bool
    requires AreAccountEvents(log, order)
    decreases |order|
  {
    if order == [] then false
    else Apply(Replay(log, order[..|order| - 1]), log[order[|order| - 1]].change)
  }

  /* Every log has a history of each user: insert the events one by one by their time. */

  /** `order` lists different positions below `n`, in the order of their times. */
  ghost predicate ByTime(log: seq<Event>, order: seq<int>, n: nat) {
    && n <= |log| && (forall k | 0 <= k < |order| :: 0 <= order[k] < n)
    && (forall j, k | 0 <= j < k < |order| && 0 <= order[j] < n && 0 <= order[k] < n ::
          order[j] != order[k] && log[order[j]].time <= log[order[k]].time)
  }

  /** Position `n` goes after all that are not later. */
  function Inserted(log: seq<Event>, order: seq<int>, n: nat): (after: seq<int>)
    requires n < |log| && forall k | 0 <= k < |order| :: 0 <= order[k] < n
    ensures |after| == |order| + 1 && forall k | 0 <= k < |after| :: 0 <= after[k] <= n
    decreases |order|
  {
    if order == [] || log[order[|order| - 1]].time <= log[n].time then order + [n]
    else Inserted(log, order[..|order| - 1], n) + [order[|order| - 1]]
  }

  lemma {:induction false} InsertedMembers(log: seq<Event>, order: seq<int>, n: nat)
    requires n < |log| && forall k | 0 <= k < |order| :: 0 <= order[k] < n
    ensures forall i :: i in Inserted(log, order, n) <==> i in order || i == n
    decreases |order|
  {
    if order != [] && log[order[|order| - 1]].time > log[n].time {
      var rest, last := order[..|order| - 1], order[|order| - 1];
      InsertedMembers(log, rest, n);
      assert order == rest + [last];
    }
  }

  /** Position `i` may come after all of `order`: it is not there, and none is later. */
  ghost predicate MayFollow(log: seq<Event>, order: seq<int>, i: int) {
    && 0 <= i < |log|
    && forall k | 0 <= k < |order| :: 0 <= order[k] < |log| && order[k] != i && log[order[k]].time <= log[i].time
  }

  lemma AppendedByTime(log: seq<Event>, before: seq<int>, last: int, n: nat)
    requires ByTime(log, before, n) && last < n && MayFollow(log, before, last)
    ensures ByTime(log, before + [last], n)
  {}

  lemma LastFollows(log: seq<Event>, order: seq<int>, n: nat)
    requires ByTime(log, order, n) && order != []
    ensures var rest, last := order[..|order| - 1], order[|order| - 1];
            ByTime(log, rest, n) && 0 <= last < n <= |log| && MayFollow(log, rest, last)
  {
    var rest := order[..|order| - 1];
    assert forall k | 0 <= k < |rest| :: rest[k] == order[k];
  }

  /** Position `n` is new, so it may follow unless something is later. */
  lemma NewMayFollow(log: seq<Event>, order: seq<int>, n: nat)
    requires n < |log| && ByTime(log, order, n)
    requires order == [] || (0 <= order[|order| - 1] < n && log[order[|order| - 1]].time <= log[n].time)
    ensures MayFollow(log, order, n)
  {
    forall k | 0 <= k < |order| ensures log[order[k]].time <= log[n].time {
      assert k == |order| - 1 || log[order[k]].time <= log[order[|order| - 1]].time;
    }
  }

  lemma {:induction false} StillMayFollow(log: seq<Event>, order: seq<int>, n: nat, i: int)
    requires n < |log| && (forall k | 0 <= k < |order| :: 0 <= order[k] < n)
    requires MayFollow(log, order, i) && i != n && log[n].time <= log[i].time
    ensures MayFollow(log, Inserted(log, order, n), i)
    decreases |order|
  {
    if order != [] && log[order[|order| - 1]].time > log[n].time {
      StillMayFollow(log, order[..|order| - 1], n, i);
    }
  }

  lemma {:induction false} InsertedByTime(log: seq<Event>, order: seq<int>, n: nat)
    requires n < |log| && (forall k | 0 <= k < |order| :: 0 <= order[k] < n) && ByTime(log, order, n)
    ensures ByTime(log, Inserted(log, order, n), n + 1)
    decreases |order|
  {
    hide ByTime;
    hide MayFollow;
    StillByTime(log, order, n);
    if order == [] || log[order[|order| - 1]].time <= log[n].time {
      NewMayFollow(log, order, n);
      AppendedByTime(log, order, n, n + 1);
    } else {
      var rest, last := order[..|order| - 1], order[|order| - 1];
      LastFollows(log, order, n);
      InsertedByTime(log, rest, n);
      StillMayFollow(log, rest, n, last);
      AppendedByTime(log, Inserted(log, rest, n), last, n + 1);
    }
  }

  /** The user's account events among the first `n` of the log, by time. */
  function EventsByTime(log: seq<Event>, n: nat, user: int, end: Time): (order: seq<int>)
    requires n <= |log|
    ensures forall k | 0 <= k < |order| :: 0 <= order[k] < n
  {
    if n == 0 then []
    else
      var rest := EventsByTime(log, n - 1, user, end);
      if AccountEventOf(log, n - 1, user, end) then Inserted(log, rest, n - 1) else rest
  }

  lemma NoneByTime(log: seq<Event>)
    ensures ByTime(log, [], 0)
  {}

  lemma StillByTime(log: seq<Event>, order: seq<int>, n: nat)
    requires ByTime(log, order, n) && n < |log|
    ensures ByTime(log, order, n + 1)
  {}

  lemma {:induction false} EventsAreByTime(log: seq<Event>, n: nat, user: int, end: Time)
    requires n <= |log|
    ensures ByTime(log, EventsByTime(log, n, user, end), n)
  {
    hide ByTime;
    hide Inserted;
    hide AccountEventOf;
    if n == 0 {
      NoneByTime(log);
    } else {
      var rest := EventsByTime(log, n - 1, user, end);
      EventsAreByTime(log, n - 1, user, end);
      StillByTime(log, rest, n - 1);
      InsertedByTime(log, rest, n - 1);
    }
  }

  lemma {:induction false} EventByTime(log: seq<Event>, n: nat, user: int, end: Time, i: int)
    requires n <= |log|
    ensures i in EventsByTime(log, n, user, end) <==> 0 <= i < n && AccountEventOf(log, i, user, end)
  {
    hide Inserted;
    hide AccountEventOf;
    if n > 0 {
      EventByTime(log, n - 1, user, end, i);
      InsertedMembers(log, EventsByTime(log, n - 1, user, end), n - 1);
    }
  }

  /** Every user has a history, in every log. */
  lemma HistoryExists(log: seq<Event>, user: int, end: Time)
    ensures HistoryOf(EventsByTime(log, |log|, user, end), log, user, end)
  {
    hide EventsByTime;
    EventsAreByTime(log, |log|, user, end);
    forall i ensures i in EventsByTime(log, |log|, user, end) <==> AccountEventOf(log, i, user, end) {
      EventByTime(log, |log|, user, end, i);
    }
  }

  /** The events at the user's latest time all leave the user in the same state. */
  ghost predicate TiesAgree(log: seq<Event>, user: int, end: Time) {
    forall i, j | IsLast(log, i, user, end) && IsLast(log, j, user, end) :: Activates(log[i].change) == Activates(log[j].change)
  }

  /** No user has two account events at one time; then no ties can disagree. */
  ghost predicate DistinctEventTimes(log: seq<Event>) {
    forall i, j | 0 <= i < j < |log| && log[i].AccountEvent? && log[j].AccountEvent? && log[i].user == log[j].user ::
      log[i].time != log[j].time
  }

  lemma DistinctTimesAgree(log: seq<Event>, user: int, end: Time)
    requires DistinctEventTimes(log)
    ensures TiesAgree(log, user, end)
  {
    assert forall i, j | IsLast(log, i, user, end) && IsLast(log, j, user, end) :: i == j;
  }

  /** The last event of a history is a latest one, and decides. */
  lemma LastOfHistory(log: seq<Event>, user: int, end: Time, order: seq<int>)
    requires HistoryOf(order, log, user, end) && order != []
    ensures AreAccountEvents(log, order)
    ensures var i := order[|order| - 1]; IsLast(log, i, user, end) && Replay(log, order) == Activates(log[i].change)
  {
    var last := order[|order| - 1];
    assert last in order;
    forall j | AccountEventOf(log, j, user, end) ensures log[j].time <= log[last].time {
      var k :| 0 <= k < |order| && order[k] == j;
    }
  }

  /** DISTINCT ON over descending times finds the users whom their events, applied in order, leave
      active, when events tied for the last place agree. */
  lemma LastEventIsReplay(log: seq<Event>, user: int, end: Time, order: seq<int>)
    requires TiesAgree(log, user, end) && HistoryOf(order, log, user, end)
    ensures AreAccountEvents(log, order) && (CountedActive(log, user, end) <==> Replay(log, order))
  {
    var candidates := Candidates(log, user, end);
    if order == [] {
      assert forall i :: i !in candidates;
      NoElements(candidates);
    } else {
      LastOfHistory(log, user, end, order);
      assert order[|order| - 1] in candidates;
      SomeElement(candidates, order[|order| - 1]);
    }
  }

  lemma NoElements<T>(s: set<T>)
    requires forall x :: x !in s
    ensures s == {}
  {}

  lemma SomeElement<T>(s: set<T>, x: T)
    requires x in s
    ensures s != {}
  {}

  /** Moves an element to the end of a list. */
  function MovedLast<T>(order: seq<T>, m: nat): seq<T>
    requires m < |order|
  {
    order[..m] + order[m + 1..] + [order[m]]
  }

  lemma MovedPermutes<T>(order: seq<T>, m: nat)
    requires m < |order|
    ensures var moved := MovedLast(order, m);
            && |moved| == |order| && (forall x :: x in moved <==> x in order)
            && (forall k | 0 <= k < |order| :: moved[k] == order[if k < m then k else if k < |order| - 1 then k + 1 else m])
  {
    var moved := MovedLast(order, m);
    forall x | x in order ensures x in moved {
      var k :| 0 <= k < |order| && order[k] == x;
      assert x == moved[if k < m then k else if k == m then |order| - 1 else k - 1];
    }
  }

  lemma MovedIsHistory(log: seq<Event>, user: int, end: Time, order: seq<int>, m: nat)
    requires HistoryOf(order, log, user, end) && m < |order| && IsLast(log, order[m], user, end)
    ensures HistoryOf(MovedLast(order, m), log, user, end)
  {
    var moved := MovedLast(order, m);
    MovedPermutes(order, m);
    hide MovedLast;
    assert forall i | i in moved :: AccountEventOf(log, i, user, end);
    forall j, k | 0 <= j < k < |moved| && moved[j] in moved && moved[k] in moved
      ensures moved[j] != moved[k] && log[moved[j]].time <= log[moved[k]].time
    {
      var j', k' := if j < m then j else j + 1, if k < m then k else if k < |order| - 1 then k + 1 else m;
      assert moved[j] == order[j'] && moved[k] == order[k'];
      assert order[j'] in order && order[k'] in order;
    }
  }

  /** The query is replay exactly when such ties agree: otherwise some order of the tied events
      replays to the opposite of what the query counts. */
  lemma QueryIsReplayIff(log: seq<Event>, user: int, end: Time, order: seq<int>)
    requires HistoryOf(order, log, user, end)
    ensures TiesAgree(log, user, end) <==>
              forall order' | HistoryOf(order', log, user, end) ::
                AreAccountEvents(log, order') && Replay(log, order') == CountedActive(log, user, end)
  {
    if TiesAgree(log, user, end) {
      forall order' | HistoryOf(order', log, user, end)
        ensures AreAccountEvents(log, order') && Replay(log, order') == CountedActive(log, user, end)
      {
        LastEventIsReplay(log, user, end, order');
      }
    } else {
      var i, j :| IsLast(log, i, user, end) && IsLast(log, j, user, end) && Activates(log[i].change) != Activates(log[j].change);
      var k := if Activates(log[i].change) == CountedActive(log, user, end) then j else i;
      var m :| 0 <= m < |order| && order[m] == k;
      MovedIsHistory(log, user, end, order, m);
      LastOfHistory(log, user, end, MovedLast(order, m));
    }
  }

  /** A creation and a deactivation at the same time have different event types, and yet disagree. */
  lemma TiedTimesAreAmbiguous()
    ensures var log := [AccountEvent(0, 7, UserCreated), AccountEvent(0, 7, UserDeactivated)];
            HistoryOf([0, 1], log, 7, 1) && HistoryOf([1, 0], log, 7, 1) && !Replay(log, [0, 1]) && Replay(log, [1, 0])
            && !TiesAgree(log, 7, 1)
  {
    var log := [AccountEvent(0, 7, UserCreated), AccountEvent(0, 7, UserDeactivated)];
    assert forall i :: AccountEventOf(log, i, 7, 1) <==> i == 0 || i == 1;
    assert HistoryOf([0, 1], log, 7, 1) && HistoryOf([1, 0], log, 7, 1);
    LastOfHistory(log, 7, 1, [0, 1]);
    LastOfHistory(log, 7, 1, [1, 0]);
    assert IsLast(log, 0, 7, 1) && IsLast(log, 1, 7, 1);
  }

  /* check_realmauditlog_by_user_query. */

  /** `row[k].value` counts the set, and there is a row exactly when the set is not empty. */
  predicate CountsSet<U>(rows: Rows, k: Key, s: set<U>) {
    (k in rows <==> s != {}) && (k in rows ==> rows[k] == Cell(k.id, |s|))
  }

  /** RealmCount rows from counts per key. */
  function PerRealm(sums: map<Key, int>): Rows {
    map k | k in sums :: Cell(k.id, sums[k])
  }

  ghost function ActiveOnes(w: World, log: seq<Event>, end: Time): map<int, int> {
    map u | u in w.users && CountedActive(log, u, end) :: 1
  }

  function RealmAndBot(w: World, p: string, end: Time): map<int, Key> {
    map u | u in w.users :: Key(p, end, w.users[u].realm, Some(if w.users[u].isBot then "true" else "false"))
  }

  ghost function ActiveUsersAudit(w: World, p: string, log: seq<Event>, end: Time): Rows {
    PerRealm(Grouped(ActiveOnes(w, log, end), RealmAndBot(w, p, end)))
  }

  lemma CountsFiber<U>(counted: map<U, int>, keys: map<U, Key>, k: Key, s: set<U>)
    requires counted.Keys <= keys.Keys && (forall u | u in counted :: counted[u] == 1)
    requires s == set u | u in counted && keys[u] == k
    ensures CountsSet(PerRealm(Grouped(counted, keys)), k, s)
  {
    hide Sum;
    hide Grouped;
    GroupedCount(counted, keys, k);
    assert Fiber(counted, keys, k).Keys == s;
  }

  /** A history for each user. */
  ghost predicate Histories(histories: map<int, seq<int>>, w: World, log: seq<Event>, end: Time) {
    && (forall u | u in w.users :: u in histories)
    && (forall u | u in histories :: HistoryOf(histories[u], log, u, end))
  }

  /** So there are histories to replay for any users and any log. */
  lemma HistoriesExist(w: World, log: seq<Event>, end: Time)
    ensures exists histories :: Histories(histories, w, log, end)
  {
    hide HistoryOf;
    hide EventsByTime;
    var histories := ForEach(w.users.Keys, u => EventsByTime(log, |log|, u, end));
    forall u | u in histories ensures HistoryOf(histories[u], log, u, end) {
      HistoryExists(log, u, end);
    }
    assert Histories(histories, w, log, end);
  }

  ghost function ForEach<K, V>(keys: set<K>, f: K -> V): (m: map<K, V>)
    ensures m.Keys == keys && forall k | k in keys :: m[k] == f(k)
  {
    map k | k in keys :: f(k)
  }

  /** The users of a realm, bots or humans, whom replaying their events leaves active at `end`. */
  ghost function ReplayedActive(w: World, log: seq<Event>, histories: map<int, seq<int>>, realm: int,
                                isBot: bool): set<int> {
    set u | u in w.users && u in histories && w.users[u].realm == realm && w.users[u].isBot == isBot
            && AreAccountEvents(log, histories[u]) && Replay(log, histories[u])
  }

  /** active_users_audit:is_bot:day counts, per realm and is_bot, exactly the users left active
      by replaying their audit events before the end time. */
  lemma AuditCountsReplay(w: World, p: string, log: seq<Event>, end: Time, histories: map<int, seq<int>>, realm: int,
                          isBot: bool)
    requires DistinctEventTimes(log) && Histories(histories, w, log, end)
    ensures CountsSet(ActiveUsersAudit(w, p, log, end), Key(p, end, realm, Some(if isBot then "true" else "false")),
                      ReplayedActive(w, log, histories, realm, isBot))
  {
    hide CountsSet;
    hide PerRealm;
    hide Grouped;
    hide CountedActive;
    hide Replay;
    HistoriesDecide(w, log, histories, end);
    hide HistoryOf;
    hide DistinctEventTimes;
    hide AreAccountEvents;
    var k, s := Key(p, end, realm, Some(if isBot then "true" else "false")), ReplayedActive(w, log, histories, realm, isBot);
    CountsFiber(ActiveOnes(w, log, end), RealmAndBot(w, p, end), k, s);
  }

  /* check_useractivityinterval_by_user_query. */

  /** The user was active at some moment of the window [start, end). */
  ghost predicate ActiveIn(log: seq<Event>, user: int, start: Time, end: Time) {
    exists i :: 0 <= i < |log| && log[i].Activity? && log[i].user == user && log[i].until >= start && log[i].time < end
  }

  ghost function Actives(w: World, p: string, log: seq<Event>, start: Time, end: Time): Rows {
    map u | u in w.users && ActiveIn(log, u, start, end) :: Key(p, end, u, None) := Cell(w.users[u].realm, 1)
  }

  /** A user's row is in their own realm, has value 1, and exists exactly when some interval of
      theirs had not ended before the window and had begun before its end. */
  lemma ActiveUsersAreMarked(w: World, p: string, log: seq<Event>, start: Time, end: Time, user: int)
    ensures var rows, k := Actives(w, p, log, start, end), Key(p, end, user, None);
            && (k in rows <==> user in w.users && exists i ::
                  0 <= i < |log| && log[i].Activity? && log[i].user == user && log[i].until >= start && log[i].time < end)
            && (k in rows ==> rows[k] == Cell(w.users[user].realm, 1))
    ensures forall k | k in Actives(w, p, log, start, end) :: k == Key(p, end, k.id, None)
  {}

  /* count_realm_active_humans_query. */

  /** The UserCount rows of the dependency that survive the joins and the WHERE clause. */
  ghost function ActiveHumanRows(w: World, input: Rows, log: seq<Event>, end: Time): map<Key, int> {
    map k | k in input && k.id in w.users && w.users[k.id].realm == input[k].realm
            && !w.users[k.id].isBot && CountedActive(log, k.id, end) :: 1
  }

  function RealmKeysOf(input: Rows, p: string, end: Time): map<Key, Key> {
    map k | k in input :: Key(p, end, input[k].realm, None)
  }

  ghost function RealmActiveHumans(w: World, p: string, input: Rows, log: seq<Event>, end: Time): Rows {
    PerRealm(Grouped(ActiveHumanRows(w, input, log, end), RealmKeysOf(input, p, end)))
  }

  /** The humans of a realm who were active in the window and whom replaying their account events
      before its end leaves active. */
  ghost function ActiveHumans(w: World, log: seq<Event>, histories: map<int, seq<int>>, realm: int, start: Time, end: Time): set<int> {
    set u | u in w.users && u in histories && w.users[u].realm == realm && !w.users[u].isBot
            && (exists i :: 0 <= i < |log| && log[i].Activity? && log[i].user == u && log[i].until >= start && log[i].time < end)
            && AreAccountEvents(log, histories[u]) && Replay(log, histories[u])
  }

  lemma ActiveHumansAre(w: World, log: seq<Event>, histories: map<int, seq<int>>, realm: int, start: Time, end: Time)
    ensures forall u :: u in ActiveHumans(w, log, histories, realm, start, end) <==>
              u in w.users && u in histories && w.users[u].realm == realm && !w.users[u].isBot
              && ActiveIn(log, u, start, end) && AreAccountEvents(log, histories[u]) && Replay(log, histories[u])
  {
    hide Replay;
    hide AreAccountEvents;
  }

  /** Fed with the complete rows of its dependency, realm_active_humans::day counts each such human
      of a realm once. */
  lemma HumansAreCountedOnce(w: World, p: string, d: string, log: seq<Event>, histories: map<int, seq<int>>, start: Time,
                             end: Time, realm: int)
    requires DistinctEventTimes(log) && Histories(histories, w, log, end)
    ensures CountsSet(RealmActiveHumans(w, p, Actives(w, d, log, start, end), log, end), Key(p, end, realm, None),
                      ActiveHumans(w, log, histories, realm, start, end))
  {
    hide Grouped;
    hide PerRealm;
    hide CountedActive;
    hide ActiveIn;
    hide CountsSet;
    hide Replay;
    hide ActiveHumans;
    ActiveHumansAre(w, log, histories, realm, start, end);
    var input := Actives(w, d, log, start, end);
    var k, humans := Key(p, end, realm, None), ActiveHumans(w, log, histories, realm, start, end);
    HistoriesDecide(w, log, histories, end);
    hide HistoryOf;
    hide DistinctEventTimes;
    hide AreAccountEvents;
    CountsHumans(ActiveHumanRows(w, input, log, end), RealmKeysOf(input, p, end), k, d, end, humans);
  }

  /** Replaying each user's history tells whom the query counts as active. */
  lemma HistoriesDecide(w: World, log: seq<Event>, histories: map<int, seq<int>>, end: Time)
    requires DistinctEventTimes(log) && Histories(histories, w, log, end)
    ensures forall u | u in w.users ::
              AreAccountEvents(log, histories[u]) && (CountedActive(log, u, end) <==> Replay(log, histories[u]))
  {
    hide CountedActive;
    hide HistoryOf;
    hide Replay;
    hide DistinctEventTimes;
    hide TiesAgree;
    forall u | u in w.users
      ensures AreAccountEvents(log, histories[u]) && (CountedActive(log, u, end) <==> Replay(log, histories[u]))
    {
      DistinctTimesAgree(log, u, end);
      LastEventIsReplay(log, u, end, histories[u]);
    }
  }

  /** Counting rows of which each human has one is counting humans. */
  lemma CountsHumans(counted: map<Key, int>, keys: map<Key, Key>, k: Key, d: string, end: Time, humans: set<int>)
    requires counted.Keys <= keys.Keys && (forall x | x in counted :: counted[x] == 1 && x == Key(d, end, x.id, None))
    requires forall u :: u in humans <==> Key(d, end, u, None) in counted && keys[Key(d, end, u, None)] == k
    ensures CountsSet(PerRealm(Grouped(counted, keys)), k, humans)
  {
    hide Sum;
    hide Grouped;
    GroupedCount(counted, keys, k);
    var ids := map x | x in Fiber(counted, keys, k) :: x.id;
    assert ids.Keys == Fiber(counted, keys, k).Keys;
    forall u | u in humans ensures u in ids.Values {
      assert Key(d, end, u, None) in ids;
    }
    assert ids.Values == humans;
    ImageSize(ids);
    assert ids != map[] <==> Fiber(counted, keys, k) != map[];
  }
}
