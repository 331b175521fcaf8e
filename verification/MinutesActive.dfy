/** do_pull_minutes_active (analytics/lib/counts.py): minutes_active::day adds up each user's
    activity intervals, clipped to the day. */
module MinutesActive {
  import opened Options
  import opened Sums
  import opened CountTables
  import opened Events
  import opened World

  const MINUTE: Time := 60_000_000

  /** `log[i]` passes the filter of the query. */
  predicate Touches(ev: Event, start: Time, end: Time) {
    ev.Activity? && ev.until > start && ev.time < end
  }

  /** The part of an interval inside the window. */
  function Clipped(ev: Event, start: Time, end: Time): Time
    requires ev.Activity?
  {
    (if end < ev.until then end else ev.until) - (if start > ev.time then start else ev.time)
  }

  /** How long one interval keeps `user` active in the window. */
  function Share(ev: Event, user: int, start: Time, end: Time): Time {
    if Touches(ev, start, end) && ev.user == user then Clipped(ev, start, end) else 0
  }

  /** How long `user` was active in the window [start, end). */
  function ActiveTime(log: seq<Event>, user: int, start: Time, end: Time): Time
    decreases |log|
  {
    if log == [] then 0
    else ActiveTime(log[..|log| - 1], user, start, end) + Share(log[|log| - 1], user, start, end)
  }

  /** The rows of minutes_active::day. */
  function MinuteRows(w: World, p: string, log: seq<Event>, start: Time, end: Time): Rows {
    map u | u in w.users && ActiveTime(log, u, start, end) >= MINUTE ::
      Key(p, end, u, None) := Cell(w.users[u].realm, ActiveTime(log, u, start, end) / MINUTE)
  }

  /** The entries of seconds_active after some of the intervals. */
  ghost predicate Accumulated(active: map<(int, int), Time>, w: World, seen: seq<Event>, start: Time, end: Time) {
    && OwnRealms(w, active)
    && (forall u | u in w.users ::
          var k := (u, w.users[u].realm); ActiveTime(seen, u, start, end) == if k in active then active[k] else 0)
  }

  /** One interval more. */
  lemma OneMoreInterval(active: map<(int, int), Time>, w: World, seen: seq<Event>, ev: Event, start: Time, end: Time)
    requires Accumulated(active, w, seen, start, end)
    ensures if Touches(ev, start, end) && ev.user in w.users then
              var k := (ev.user, w.users[ev.user].realm);
              Accumulated(active[k := (if k in active then active[k] else 0) + Clipped(ev, start, end)], w, seen + [ev], start, end)
            else Accumulated(active, w, seen + [ev], start, end)
  {
    assert (seen + [ev])[..|seen|] == seen;
    assert forall u | u in w.users ::
        ActiveTime(seen + [ev], u, start, end) == ActiveTime(seen, u, start, end) + Share(ev, u, start, end);
  }

  /** do_pull_minutes_active. */
  method DoPullMinutesActive(w: World, p: string, log: seq<Event>, start: Time, end: Time) returns (rows: Rows)
    ensures rows == MinuteRows(w, p, log, start, end)
  {
    hide Accumulated;
    hide MinuteRows;
    hide RowsFrom;
    hide OwnRealms;
    var active: map<(int, int), Time> := map[];
    assert Accumulated(active, w, [], start, end) by { NothingSeen(w, start, end); }
    var i := 0;
    while i < |log|
      invariant 0 <= i <= |log|
      invariant Accumulated(active, w, log[..i], start, end)
    {
      var ev := log[i];
      assert log[..i + 1] == log[..i] + [ev];
      OneMoreInterval(active, w, log[..i], ev, start, end);
      if Touches(ev, start, end) && ev.user in w.users {
        var k := (ev.user, w.users[ev.user].realm);
        active := active[k := (if k in active then active[k] else 0) + Clipped(ev, start, end)];
      }
      i := i + 1;
    }
    assert log[..|log|] == log;
    RowsOfAccumulated(active, w, p, log, start, end);
    rows := RowsFrom(w, active, p, end);
  }

  lemma NothingSeen(w: World, start: Time, end: Time)
    ensures Accumulated(map[], w, [], start, end)
  {}

  predicate OwnRealms(w: World, active: map<(int, int), Time>) {
    forall k | k in active :: k.0 in w.users && k.1 == w.users[k.0].realm
  }

  /** The list of UserCount objects. */
  function RowsFrom(w: World, active: map<(int, int), Time>, p: string, end: Time): Rows
    requires OwnRealms(w, active)
  {
    map k | k in active && active[k] >= MINUTE :: Key(p, end, k.0, None) := Cell(k.1, active[k] / MINUTE)
  }

  lemma RowsOfAccumulated(active: map<(int, int), Time>, w: World, p: string, log: seq<Event>, start: Time, end: Time)
    requires Accumulated(active, w, log, start, end)
    ensures OwnRealms(w, active) && RowsFrom(w, active, p, end) == MinuteRows(w, p, log, start, end)
  {
    var rows, expected := RowsFrom(w, active, p, end), MinuteRows(w, p, log, start, end);
    forall x | x in rows ensures x in expected && expected[x] == rows[x] {
      var k :| k in active && active[k] >= MINUTE && x == Key(p, end, k.0, None);
      assert k.0 in w.users;
    }
    forall x | x in expected ensures x in rows {
      var u :| u in w.users && ActiveTime(log, u, start, end) >= MINUTE && x == Key(p, end, u, None);
      assert (u, w.users[u].realm) in active;
    }
  }

  /* What the accumulated time means. */

  /** How much of each of the user's intervals lies in the window, for those that overlap it. */
  function Overlaps(log: seq<Event>, user: int, start: Time, end: Time): map<int, int> {
    map i: int | 0 <= i < |log| && log[i].Activity? && log[i].user == user && log[i].until > start && log[i].time < end ::
      (if log[i].until < end then log[i].until else end) - (if log[i].time > start then log[i].time else start)
  }

  lemma {:induction false} ActiveTimeIsSum(log: seq<Event>, user: int, start: Time, end: Time)
    ensures ActiveTime(log, user, start, end) == Sum(Overlaps(log, user, start, end))
    decreases |log|
  {
    hide Sum;
    var n, all := |log| - 1, Overlaps(log, user, start, end);
    if log == [] {
      NoOverlaps(user, start, end);
    } else {
      var rest := Overlaps(log[..n], user, start, end);
      ActiveTimeIsSum(log[..n], user, start, end);
      assert n !in rest;
      if n in all {
        assert all == rest[n := all[n]];
        SumInsert(rest, n, all[n]);
      } else {
        assert all == rest;
      }
    }
  }

  lemma NoOverlaps(user: int, start: Time, end: Time)
    ensures Sum(Overlaps([], user, start, end)) == 0
  {
    assert Overlaps([], user, start, end) == map[];
  }

  /** No interval ends before it starts. */
  ghost predicate OrderedIntervals(log: seq<Event>) {
    forall i | 0 <= i < |log| && log[i].Activity? :: log[i].time <= log[i].until
  }

  /** `user`'s intervals do not overlap each other; they may come in any order. */
  ghost predicate Disjoint(log: seq<Event>, user: int) {
    forall i, j | 0 <= i < j < |log| && log[i].Activity? && log[j].Activity? && log[i].user == user && log[j].user == user ::
      log[i].until <= log[j].time || log[j].until <= log[i].time
  }

  /** Splitting a window at any point loses no time. */
  lemma {:induction false} SplitWindow(log: seq<Event>, user: int, start: Time, middle: Time, end: Time)
    requires OrderedIntervals(log) && start <= middle <= end
    ensures ActiveTime(log, user, start, end) == ActiveTime(log, user, start, middle) + ActiveTime(log, user, middle, end)
    decreases |log|
  {
    if log != [] {
      SplitWindow(log[..|log| - 1], user, start, middle, end);
      assert log[|log| - 1].Activity? ==> log[|log| - 1].time <= log[|log| - 1].until;
    }
  }

  /** A window inside one interval contains nothing of the user's other intervals. */
  lemma {:induction false} NothingElse(log: seq<Event>, user: int, start: Time, end: Time)
    requires forall i | 0 <= i < |log| && log[i].Activity? && log[i].user == user :: log[i].until <= start || end <= log[i].time
    ensures ActiveTime(log, user, start, end) == 0
    decreases |log|
  {
    if log != [] {
      assert forall i | 0 <= i < |log| - 1 :: log[..|log| - 1][i] == log[i];
      NothingElse(log[..|log| - 1], user, start, end);
    }
  }

  /** Disjoint intervals, in whatever order they come, never fill more than the window. */
  lemma {:induction false} ActiveTimeIsBounded(log: seq<Event>, user: int, start: Time, end: Time)
    requires OrderedIntervals(log) && Disjoint(log, user) && start <= end
    ensures 0 <= ActiveTime(log, user, start, end) <= end - start
    decreases |log|
  {
    if log != [] {
      var rest, last := log[..|log| - 1], log[|log| - 1];
      assert forall i | 0 <= i < |rest| :: rest[i] == log[i];
      if Touches(last, start, end) && last.user == user {
        var from, to := if start > last.time then start else last.time, if end < last.until then end else last.until;
        assert last.time <= last.until;
        SplitWindow(rest, user, start, from, end);
        SplitWindow(rest, user, from, to, end);
        assert forall i | 0 <= i < |rest| && rest[i].Activity? && rest[i].user == user ::
            rest[i].until <= log[|log| - 1].time || log[|log| - 1].until <= rest[i].time;
        NothingElse(rest, user, from, to);
        ActiveTimeIsBounded(rest, user, start, from);
        ActiveTimeIsBounded(rest, user, to, end);
      } else {
        ActiveTimeIsBounded(rest, user, start, end);
      }
    }
  }

  /** A user has a row exactly when active for a whole minute, and a day has 1440 of them. */
  lemma AtMostADay(w: World, p: string, log: seq<Event>, start: Time, user: int)
    requires OrderedIntervals(log) && Disjoint(log, user) && user in w.users
    ensures var rows, k := MinuteRows(w, p, log, start, start + DAY), Key(p, start + DAY, user, None);
            && (k in rows <==> ActiveTime(log, user, start, start + DAY) >= MINUTE)
            && (k in rows ==> 1 <= rows[k].value <= 1440 && rows[k].realm == w.users[user].realm)
  {
    ActiveTimeIsBounded(log, user, start, start + DAY);
  }

  /** Every interval has a length. */
  ghost predicate PositiveIntervals(log: seq<Event>) {
    forall i | 0 <= i < |log| && log[i].Activity? :: log[i].time < log[i].until
  }

  lemma {:induction false} AtLeastOne(log: seq<Event>, user: int, start: Time, end: Time, i: nat)
    requires OrderedIntervals(log) && start <= end && i < |log|
    ensures Share(log[i], user, start, end) <= ActiveTime(log, user, start, end)
    decreases |log|
  {
    var rest := log[..|log| - 1];
    ActiveTimeIsNatural(rest, user, start, end);
    assert log[|log| - 1].Activity? ==> log[|log| - 1].time <= log[|log| - 1].until;
    if i < |rest| {
      AtLeastOne(rest, user, start, end, i);
    }
  }

  /** Two intervals contribute both, however they overlap. */
  lemma {:induction false} AtLeastBoth(log: seq<Event>, user: int, start: Time, end: Time, i: nat, j: nat)
    requires OrderedIntervals(log) && start <= end && i < j < |log|
    ensures Share(log[i], user, start, end) + Share(log[j], user, start, end) <= ActiveTime(log, user, start, end)
    decreases |log|
  {
    var rest := log[..|log| - 1];
    assert log[|log| - 1].Activity? ==> log[|log| - 1].time <= log[|log| - 1].until;
    if j < |rest| {
      AtLeastBoth(rest, user, start, end, i, j);
    } else {
      AtLeastOne(rest, user, start, end, i);
    }
  }

  /** Exactly when no window can hold more time than it has: when the user's intervals are disjoint.
      Two that overlap exceed the window that is their overlap. */
  lemma BoundedIffDisjoint(log: seq<Event>, user: int)
    requires PositiveIntervals(log)
    ensures Disjoint(log, user)
       <==> forall start, end | start <= end :: ActiveTime(log, user, start, end) <= end - start
  {
    if Disjoint(log, user) {
      forall start, end | start <= end ensures ActiveTime(log, user, start, end) <= end - start {
        ActiveTimeIsBounded(log, user, start, end);
      }
    } else {
      var i, j :| 0 <= i < j < |log| && log[i].Activity? && log[j].Activity? && log[i].user == user && log[j].user == user
                  && !(log[i].until <= log[j].time || log[j].until <= log[i].time);
      var start := if log[i].time < log[j].time then log[j].time else log[i].time;
      var end := if log[i].until < log[j].until then log[i].until else log[j].until;
      AtLeastBoth(log, user, start, end, i, j);
      assert ActiveTime(log, user, start, end) > end - start;
    }
  }

  /** A day with two such intervals, of 2880 minutes. */
  lemma OverlapsExceedTheDay(w: World, p: string)
    requires 1 in w.users
    ensures var log := [Activity(0, 1, DAY), Activity(0, 1, DAY)];
            var rows, k := MinuteRows(w, p, log, 0, DAY), Key(p, DAY, 1, None);
            k in rows && rows[k].value == 2880
  {
    var log := [Activity(0, 1, DAY), Activity(0, 1, DAY)];
    assert log[..1] == [Activity(0, 1, DAY)];
    assert ActiveTime(log[..1][..0], 1, 0, DAY) == 0;
    assert ActiveTime(log[..1], 1, 0, DAY) == DAY;
    assert ActiveTime(log, 1, 0, DAY) == 2 * DAY;
  }

  /** The minutes stored for `user` over `n` days from `start`. */
  function StoredMinutes(w: World, p: string, log: seq<Event>, start: Time, user: int, n: nat): int {
    if n == 0 then 0
    else
      var from := start + (n - 1) * DAY;
      var rows, k := MinuteRows(w, p, log, from, from + DAY), Key(p, from + DAY, user, None);
      StoredMinutes(w, p, log, start, user, n - 1) + if k in rows then rows[k].value else 0
  }

  lemma DayIsRoundedDown(w: World, p: string, log: seq<Event>, from: Time, user: int)
    requires OrderedIntervals(log) && user in w.users
    ensures var rows, k := MinuteRows(w, p, log, from, from + DAY), Key(p, from + DAY, user, None);
            (if k in rows then rows[k].value else 0) == ActiveTime(log, user, from, from + DAY) / MINUTE
  {
    ActiveTimeIsNatural(log, user, from, from + DAY);
  }

  lemma {:induction false} ActiveTimeIsNatural(log: seq<Event>, user: int, start: Time, end: Time)
    requires OrderedIntervals(log) && start <= end
    ensures 0 <= ActiveTime(log, user, start, end)
    decreases |log|
  {
    if log != [] {
      ActiveTimeIsNatural(log[..|log| - 1], user, start, end);
      assert log[|log| - 1].Activity? ==> log[|log| - 1].time <= log[|log| - 1].until;
    }
  }

  lemma {:induction false} EmptyWindow(log: seq<Event>, user: int, t: Time)
    requires OrderedIntervals(log)
    ensures ActiveTime(log, user, t, t) == 0
    decreases |log|
  {
    if log != [] {
      EmptyWindow(log[..|log| - 1], user, t);
      assert log[|log| - 1].Activity? ==> log[|log| - 1].time <= log[|log| - 1].until;
    }
  }

  /** Over any number of days the stored minutes fall short of the time in the whole window by
      less than one minute a day, and never exceed it. */
  lemma {:induction false} StoredMinutesTrackTime(w: World, p: string, log: seq<Event>, start: Time, user: int, n: nat)
    requires OrderedIntervals(log) && user in w.users
    ensures var stored, total := StoredMinutes(w, p, log, start, user, n), ActiveTime(log, user, start, start + n * DAY);
            stored * MINUTE <= total && (n > 0 ==> total < (stored + n) * MINUTE)
  {
    hide MinuteRows;
    hide ActiveTime;
    hide OrderedIntervals;
    if n == 0 {
      EmptyWindow(log, user, start);
    } else {
      var from := start + (n - 1) * DAY;
      var before, day := ActiveTime(log, user, start, from), ActiveTime(log, user, from, from + DAY);
      StoredMinutesTrackTime(w, p, log, start, user, n - 1);
      SplitWindow(log, user, start, from, from + DAY);
      assert ActiveTime(log, user, start, start + n * DAY) == before + day;
      DayIsRoundedDown(w, p, log, from, user);
      var earlier := StoredMinutes(w, p, log, start, user, n - 1);
      assert StoredMinutes(w, p, log, start, user, n) == earlier + day / MINUTE;
      if n == 1 {
        EmptyWindow(log, user, start);
      }
      RoundedSum(earlier, before, n - 1, day);
    }
  }

  lemma RoundedSum(stored: int, total: Time, n: nat, day: Time)
    requires stored * MINUTE <= total && (if n == 0 then total == 0 && stored == 0 else total < (stored + n) * MINUTE)
    ensures (stored + day / MINUTE) * MINUTE <= total + day < (stored + day / MINUTE + n + 1) * MINUTE
  {}
}
