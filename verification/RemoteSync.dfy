/** What the sync protocol between a self-hosted server and the bouncer guarantees, over every
    sequence of polls, posts, lost replies, retries and rejections. */
module RemoteSync {
  import opened Options
  import opened CountTables
  import opened RemoteTables
  import opened RealmReconciliation
  import opened ReconciliationTheorems
  import opened RemotePost
  import opened RemoteRetries

  /* The protocol. */

  /** The client's table of a stat: ids ascend, and its own unique constraints hold. */
  predicate SameCell(c: Content, d: Content) {
    || (c.RealmCountRow? && d.RealmCountRow? && c.realm == d.realm && c.property == d.property
        && c.endTime == d.endTime && c.subgroup == d.subgroup)
    || (c.InstallationCountRow? && d.InstallationCountRow? && c.property == d.property
        && c.endTime == d.endTime && c.subgroup == d.subgroup)
  }

  ghost predicate GoodLog(log: seq<Incoming>) {
    && (forall x | x in log :: x.id.Some? && x.id.value > 0)
    && (forall i, j | 0 <= i < j < |log| :: log[i].id.value < log[j].id.value && !SameCell(log[i].content, log[j].content))
  }

  /** The rows that sync is about: of the counts all but four properties that the bouncer drops, and of
      the audit log only the billing events. */
  predicate ForSync(c: Content) {
    if c.AuditRow? then c.eventType in {101, 102, 103, 104, 105, 201, 202, 229}
    else c.property !in {"invites_sent::day", "mobile_pushes_sent::day", "active_users_log:is_bot:day", "active_users:is_bot:day"}
  }

  /** Rows that a client sends after the bouncer reported `a`: log rows above `a`, leaving out none
      below the last of them, except that it may or may not leave out those that are not for sync. */
  ghost predicate ChunkAbove(log: seq<Incoming>, a: int, rows: seq<Incoming>) {
    && (forall x | x in rows :: x in log && x.id.Some? && a < x.id.value)
    && (forall x, last | x in log && last in rows && x.id.Some? && last.id.Some?
                         && a < x.id.value <= last.id.value && ForSync(x.content) :: x in rows)
  }

  /** The realms of the server under study, by the id of their RemoteRealm. */
  ghost predicate Injective<A(!new), B>(m: map<A, B>) {
    forall a, b | a in m && b in m && m[a] == m[b] :: a == b
  }

  lemma SameValue<A(!new), B>(m: map<A, B>, n: map<A, B>, a: A, b: A)
    requires Injective(n) && Within(m, n) && a in m && b in n && m[a] == n[b]
    ensures a == b
  {}

  /** The bouncer, the client's append-only tables, and every last id the bouncer ever reported. */
  datatype Sync = Sync(store: Store, log: PerTable<seq<Incoming>>, reported: PerTable<set<int>>)

  datatype Action =
    | Append(k: Table, x: Incoming)
    | Poll
    | Send(request: Request, now: Time)
    | SendOther(other: int, request: Request, now: Time)
    | OwnRow(k: Table, i: nat, row: Row)

  /** What may happen in `s` to server `me`, whose realms are `mine`. A chunk may be built on any id
      ever reported, however stale; a lost reply is a Send whose verdict nobody reads, and a retry
      another Send. The server's realms keep their ids and uuids. Other servers send anything. The
      bouncer inserts and updates rows of its own. */
  ghost predicate Enabled(me: int, mine: map<int, Uuid>, s: Sync, a: Action) {
    match a
    case Append(k, x) => GoodLog(s.log.Get(k) + [x])
    case Poll => true
    case Send(request, _) =>
      && Within(RealmIds(request.Infos()), mine)
      && (forall k: Table | request.rows.Get(k) != [] ::
            exists a :: a in s.reported.Get(k) && ChunkAbove(s.log.Get(k), a, request.rows.Get(k)))
    case SendOther(other, _, _) => other != me
    case OwnRow(k, i, row) =>
      && row.remoteId.None? && (OwnContent(row.content) || row.content.AuditRow?)
      && i <= |s.store.tables.Get(k)| && (i < |s.store.tables.Get(k)| ==> s.store.tables.Get(k)[i].remoteId.None?)
      && (forall j | 0 <= j < |s.store.tables.Get(k)| && j != i :: !Clash(s.store.tables.Get(k)[j], row))
  }

  function Put(t: seq<Row>, i: nat, row: Row): seq<Row>
    requires i <= |t|
  {
    if i < |t| then t[i := row] else t + [row]
  }

  function Step(me: int, s: Sync, a: Action): Sync {
    match a
    case Append(k, x) => s.(log := s.log.Set(k, s.log.Get(k) + [x]))
    case Poll =>
      s.(reported := PerTable(s.reported.realmCounts + {LastId(s.store.tables.realmCounts, me)},
                              s.reported.installationCounts + {LastId(s.store.tables.installationCounts, me)},
                              s.reported.auditLog + {LastId(s.store.tables.auditLog, me)}))
    case Send(request, now) => s.(store := Post(s.store, me, request, now).1)
    case SendOther(other, request, now) => s.(store := Post(s.store, other, request, now).1)
    case OwnRow(k, i, row) =>
      if i > |s.store.tables.Get(k)| then s
      else s.(store := s.store.(tables := s.store.tables.Set(k, Put(s.store.tables.Get(k), i, row))))
  }

  ghost predicate Run(me: int, mine: map<int, Uuid>, s: Sync, actions: seq<Action>, end: Sync)
    decreases |actions|
  {
    if actions == [] then s == end
    else Enabled(me, mine, s, actions[0]) && Run(me, mine, Step(me, s, actions[0]), actions[1..], end)
  }

  function Start(): Sync {
    Sync(Store(PerTable([], [], []), Registry([], [], map[]), map[]), PerTable([], [], []), PerTable({}, {}, {}))
  }

  /* The invariant. */

  function Wire(r: Row): Incoming {
    Incoming(r.remoteId, r.content)
  }

  /** A stored row is one the client sent, one of another server, or the bouncer's own. A row that
      some server sent names a realm only of that server. */
  ghost predicate KnownRow(me: int, mine: map<int, Uuid>, realms: seq<RemoteRealm>, log: seq<Incoming>, r: Row) {
    if r.remoteId.None? then OwnContent(r.content) || r.content.AuditRow?
    else
      && (r.remoteRealm.Some? ==> Registered(realms, r.server, r.remoteRealm.value))
      && (r.server == me ==> Mine(mine, log, r))
  }

  /** A row of the server under study. */
  ghost predicate Mine(mine: map<int, Uuid>, log: seq<Incoming>, r: Row) {
    && Wire(r) in log && !Skipped(r.content) && Allowed(r.content)
    && (r.remoteRealm.Some? ==> !r.content.InstallationCountRow? && r.content.realm.Some?
                                && r.content.realm.value in mine && mine[r.content.realm.value] == r.remoteRealm.value)
  }

  /** Nothing of the log up to the last id is missing. */
  ghost predicate NoGap(me: int, t: seq<Row>, log: seq<Incoming>) {
    forall x | x in log && x.id.Some? && x.id.value <= LastId(t, me) && ForSync(x.content) ::
      exists r :: r in t && SyncedBy(r, me) && Wire(r) == x
  }

  ghost predicate TableInv(me: int, mine: map<int, Uuid>, realms: seq<RemoteRealm>, t: seq<Row>, log: seq<Incoming>,
                           reported: set<int>) {
    && GoodLog(log) && UniqueRows(t)
    && (forall r | r in t :: KnownRow(me, mine, realms, log, r))
    && NoGap(me, t, log)
    && (forall a | a in reported :: a <= LastId(t, me)) && 0 <= LastId(t, me)
  }

  ghost predicate SyncInv(me: int, mine: map<int, Uuid>, s: Sync) {
    && DistinctUuids(s.store.registry.realms)
    && forall k: Table :: TableInv(me, mine, s.store.registry.realms, s.store.tables.Get(k), s.log.Get(k), s.reported.Get(k))
  }

  /* Accepted chunks are stored whole. */

  lemma {:induction false} AllFit(t: seq<Row>, rows: seq<Row>)
    requires forall r, x | r in t && x in rows :: !Clash(r, x)
    requires forall i, j | 0 <= i < j < |rows| :: !Clash(rows[i], rows[j])
    ensures InsertIgnoringConflicts(t, rows) == t + rows
    decreases |rows|
  {
    hide Clash;
    if rows != [] {
      var rest, last := rows[..|rows| - 1], rows[|rows| - 1];
      assert forall x | x in rest :: x in rows;
      AllFit(t, rest);
      assert last in rows;
      forall r | r in t + rest ensures !Clash(r, last) {
        if r !in t {
          var i :| 0 <= i < |rest| && rest[i] == r;
          assert rows[i] == r;
        }
      }
      assert t + rest + [last] == t + rows;
    }
  }

  /** Two rows clash only by id, by cell, or by the RemoteRealm's cell. */
  lemma KeysDiffer(a: Row, b: Row)
    requires !(a.server == b.server && a.remoteId.Some? && a.remoteId == b.remoteId)
    requires a.server == b.server ==> !SameCell(a.content, b.content)
    requires a.content.RealmCountRow? && b.content.RealmCountRow? && a.remoteRealm.Some? && a.remoteRealm == b.remoteRealm ==>
               a.content.property != b.content.property || (a.server == b.server && a.content.realm == b.content.realm)
    ensures !Clash(a, b)
  {}

  /** Different rows of the log never share a unique key. */
  lemma LogRowsFit(me: int, mine: map<int, Uuid>, ids: map<int, Uuid>, log: seq<Incoming>, x: Incoming, r: Row)
    requires GoodLog(log) && Injective(mine) && x in log && x != Wire(r)
    requires Within(ids, mine) && r.server == me && Mine(mine, log, r)
    ensures !Clash(r, Resolve(me, ids, x))
  {
    var i :| 0 <= i < |log| && log[i] == x;
    var j :| 0 <= j < |log| && log[j] == Wire(r);
    assert x.id.value != r.remoteId.value && !SameCell(r.content, x.content) by {
      if i < j {
        assert !SameCell(log[i].content, log[j].content);
      } else {
        assert !SameCell(log[j].content, log[i].content);
      }
    }
    hide GoodLog;
    var y := Resolve(me, ids, x);
    if r.remoteRealm.Some? && r.remoteRealm == y.remoteRealm {
      SameValue(ids, mine, y.content.realm.value, r.content.realm.value);
    }
    KeysDiffer(r, y);
  }

  /** The realms that rows are resolved to are the server's. */
  ghost predicate OwnRealms(realms: seq<RemoteRealm>, server: int, ids: map<int, Uuid>) {
    forall a | a in ids :: Registered(realms, server, ids[a])
  }

  lemma ResolvedIsOwn(realms: seq<RemoteRealm>, server: int, ids: map<int, Uuid>, x: Incoming)
    requires OwnRealms(realms, server, ids)
    ensures var y := Resolve(server, ids, x); y.remoteRealm.Some? ==> Registered(realms, server, y.remoteRealm.value)
  {
    hide Registered;
    if Resolve(server, ids, x).remoteRealm.Some? {
      var a := x.content.realm.value;
      assert a in ids;
      assert Registered(realms, server, ids[a]);
    }
  }

  /** A uuid is registered for one server only. */
  lemma OneServer(realms: seq<RemoteRealm>, a: int, b: int, uuid: Uuid)
    requires DistinctUuids(realms) && Registered(realms, a, uuid) && Registered(realms, b, uuid)
    ensures a == b
  {
    var i :| 0 <= i < |realms| && realms[i].server == a && realms[i].uuid == uuid;
    var j :| 0 <= j < |realms| && realms[j].server == b && realms[j].uuid == uuid;
    assert i == j;
  }

  lemma ForeignRowFits(me: int, mine: map<int, Uuid>, realms: seq<RemoteRealm>, ids: map<int, Uuid>, log: seq<Incoming>,
                       x: Incoming, r: Row)
    requires KnownRow(me, mine, realms, log, r) && !SyncedBy(r, me) && Allowed(x.content) && !Skipped(x.content)
    requires DistinctUuids(realms) && OwnRealms(realms, me, ids)
    ensures !Clash(r, Resolve(me, ids, x))
  {
    hide Registered;
    hide DistinctUuids;
    var y := Resolve(me, ids, x);
    ResolvedIsOwn(realms, me, ids, x);
    if y.remoteRealm.Some? && r.remoteId.Some? && r.remoteRealm == y.remoteRealm {
      OneServer(realms, me, r.server, y.remoteRealm.value);
    }
    if r.remoteId.None? && !r.content.AuditRow? && !y.content.AuditRow? {
      assert r.content.property in BOUNCER_ONLY && y.content.property !in BOUNCER_ONLY;
    }
    KeysDiffer(r, y);
  }

  /** A new log row that is allowed and not skipped clashes with nothing stored. */
  lemma NewRowFits(me: int, mine: map<int, Uuid>, realms: seq<RemoteRealm>, ids: map<int, Uuid>, t: seq<Row>,
                   log: seq<Incoming>, reported: set<int>, x: Incoming, r: Row)
    requires TableInv(me, mine, realms, t, log, reported) && Injective(mine) && Within(ids, mine)
    requires DistinctUuids(realms) && OwnRealms(realms, me, ids)
    requires x in log && x.id.Some? && x.id.value > LastId(t, me) && Allowed(x.content) && !Skipped(x.content) && r in t
    ensures !Clash(r, Resolve(me, ids, x))
  {
    hide LastSynced;
    hide DistinctUuids;
    hide Registered;
    hide OwnRealms;
    assert KnownRow(me, mine, realms, log, r);
    if SyncedBy(r, me) {
      LastIdIsMaximum(t, me);
      LogRowsFit(me, mine, ids, log, x, r);
    } else {
      hide GoodLog;
      hide NoGap;
      ForeignRowFits(me, mine, realms, ids, log, x, r);
    }
  }

  /** The row objects of a list in order have ascending ids. */
  lemma {:induction false} ObjectsAscend(server: int, realms: map<int, Uuid>, rows: seq<Incoming>, lastId: int)
    requires InOrder(rows, lastId)
    ensures var objects := RowObjects(server, realms, rows);
            && (forall r | r in objects :: r.remoteId.Some? && exists i :: 0 <= i < |rows| && r.remoteId == rows[i].id)
            && (forall i, j | 0 <= i < j < |objects| :: objects[i].remoteId.Some? && objects[j].remoteId.Some?
                                                        && objects[i].remoteId.value < objects[j].remoteId.value)
    decreases |rows|
  {
    hide Skipped;
    if rows != [] {
      var rest := rows[..|rows| - 1];
      assert forall i | 0 <= i < |rest| :: rest[i] == rows[i];
      ObjectsAscend(server, realms, rest, lastId);
      var objects, before := RowObjects(server, realms, rows), RowObjects(server, realms, rest);
      forall r | r in objects ensures r.remoteId.Some? && exists i :: 0 <= i < |rows| && r.remoteId == rows[i].id {
        if r in before {
          var i :| 0 <= i < |rest| && r.remoteId == rest[i].id;
          assert r.remoteId == rows[i].id;
        } else {
          assert r.remoteId == rows[|rows| - 1].id;
        }
      }
      forall r | r in before ensures r.remoteId.Some? && r.remoteId.value < rows[|rows| - 1].id.value {
        var i :| 0 <= i < |rest| && r.remoteId == rest[i].id;
      }
    }
  }

  /** An accepted chunk is stored whole, up to what is skipped. */
  lemma ChunkIsStored(me: int, mine: map<int, Uuid>, realms: seq<RemoteRealm>, ids: map<int, Uuid>, t: seq<Row>,
                      log: seq<Incoming>, reported: set<int>, a: int, rows: seq<Incoming>)
    requires TableInv(me, mine, realms, t, log, reported) && Injective(mine) && Within(ids, mine)
    requires DistinctUuids(realms) && OwnRealms(realms, me, ids)
    requires ChunkAbove(log, a, rows) && InOrder(rows, LastId(t, me))
    ensures InsertIgnoringConflicts(t, RowObjects(me, ids, rows)) == t + RowObjects(me, ids, rows)
  {
    hide Clash;
    hide Skipped;
    hide Allowed;
    hide Resolve;
    hide DistinctUuids;
    hide OwnRealms;
    var objects := RowObjects(me, ids, rows);
    RowObjectsAre(me, ids, rows);
    ObjectsAscend(me, ids, rows, LastId(t, me));
    hide LastId;
    forall r, y | r in t && y in objects ensures !Clash(r, y) {
      var x :| x in rows && !Skipped(x.content) && y == Resolve(me, ids, x);
      NewRowFits(me, mine, realms, ids, t, log, reported, x, r);
    }
    forall i, j | 0 <= i < j < |objects| ensures !Clash(objects[i], objects[j]) {
      ObjectsFit(me, mine, ids, log, rows, objects[i], objects[j]);
    }
    AllFit(t, objects);
  }

  lemma ObjectsFit(me: int, mine: map<int, Uuid>, ids: map<int, Uuid>, log: seq<Incoming>, rows: seq<Incoming>,
                   r: Row, y: Row)
    requires GoodLog(log) && Injective(mine) && r.remoteId != y.remoteId && Within(ids, mine)
    requires forall x | x in rows :: x in log && Allowed(x.content)
    requires r in RowObjects(me, ids, rows) && y in RowObjects(me, ids, rows)
    ensures !Clash(r, y)
  {
    hide Clash;
    hide Skipped;
    hide Allowed;
    RowObjectsAre(me, ids, rows);
    hide RowObjects;
    var x :| x in rows && !Skipped(x.content) && r == Resolve(me, ids, x);
    var z :| z in rows && !Skipped(z.content) && y == Resolve(me, ids, z);
    assert Wire(r) == x;
    LogRowsFit(me, mine, ids, log, z, r);
  }

  /* Each action keeps the invariant, and no last id ever decreases. */

  /** The last id depends only on which rows the server sent. */
  lemma SentRowsDecide(t: seq<Row>, t': seq<Row>, me: int)
    requires forall r | SyncedBy(r, me) :: r in t <==> r in t'
    ensures LastId(t, me) == LastId(t', me)
  {
    LastIdIsMaximum(t, me);
    LastIdIsMaximum(t', me);
    hide LastSynced;
  }

  lemma OtherRowsKeep(me: int, mine: map<int, Uuid>, realms: seq<RemoteRealm>, t: seq<Row>, t': seq<Row>,
                      log: seq<Incoming>, reported: set<int>)
    requires TableInv(me, mine, realms, t, log, reported) && UniqueRows(t')
    requires forall r | SyncedBy(r, me) :: r in t <==> r in t'
    requires forall r | r in t' && r !in t :: KnownRow(me, mine, realms, log, r)
    ensures TableInv(me, mine, realms, t', log, reported) && LastId(t', me) == LastId(t, me)
  {
    hide GoodLog;
    hide UniqueRows;
    hide KnownRow;
    SentRowsDecide(t, t', me);
  }

  /** The largest id after a chunk is stored: that of its last stored row, if there is one. */
  lemma LastIdGrows(t: seq<Row>, objects: seq<Row>, me: int)
    requires forall r | r in objects :: SyncedBy(r, me) && LastId(t, me) < r.remoteId.value
    requires 0 <= LastId(t, me)
    ensures LastId(t + objects, me) >= LastId(t, me)
    ensures LastId(t + objects, me) > LastId(t, me) ==> exists r :: r in objects && r.remoteId == Some(LastId(t + objects, me))
    ensures objects == [] ==> LastId(t + objects, me) == LastId(t, me)
  {
    LastIdIsMaximum(t, me);
    LastIdIsMaximum(t + objects, me);
    hide LastSynced;
    if objects == [] {
      assert t + objects == t;
    } else {
      assert objects[0] in t + objects;
      assert forall r | r in t + objects :: r in t || r in objects;
    }
  }

  /** A request's realms are known by ids that it reports. */
  lemma {:induction false} IdsAreReported(infos: seq<RealmInfo>)
    ensures forall a | a in RealmIds(infos) :: exists i :: 0 <= i < |infos| && infos[i].report.uuid == RealmIds(infos)[a]
    decreases |infos|
  {
    if infos != [] {
      var rest, last := infos[..|infos| - 1], infos[|infos| - 1];
      IdsAreReported(rest);
      forall a | a in RealmIds(infos) ensures exists i :: 0 <= i < |infos| && infos[i].report.uuid == RealmIds(infos)[a] {
        if a == last.id {
          assert infos[|infos| - 1].report.uuid == RealmIds(infos)[a];
        } else {
          var i :| 0 <= i < |rest| && rest[i].report.uuid == RealmIds(rest)[a];
          assert infos[i].report.uuid == RealmIds(infos)[a];
        }
      }
    }
  }

  /** Once reconciled, every realm a request names is registered for the server that sent it. */
  lemma ReconciledOwnsRealms(g: Registry, server: int, request: Request)
    requires Reconciled(g, server, request).0
    ensures OwnRealms(Reconciled(g, server, request).1.realms, server, RealmIds(request.Infos()))
  {
    hide Reconcile;
    hide Registered;
    var infos, reports := request.Infos(), request.Reports();
    IdsAreReported(infos);
    hide RealmIds;
    if request.realms.Some? {
      ReportedAreRegistered(g, server, reports);
      assert forall i | 0 <= i < |infos| :: reports[i] in reports && reports[i].uuid == infos[i].report.uuid;
    }
  }

  /** Linking rows to RemoteRealms changes nothing that sync is about. */
  lemma LinkedRow(me: int, mine: map<int, Uuid>, realms: seq<RemoteRealm>, log: seq<Incoming>, r: Row, server: int, ids: map<int, Uuid>)
    requires KnownRow(me, mine, realms, log, r) && OwnRealms(realms, server, ids) && (server == me ==> Within(ids, mine))
    ensures KnownRow(me, mine, realms, log, Linked(r, server, ids))
  {
    hide Registered;
    hide Skipped;
    hide Allowed;
    var linked := Linked(r, server, ids);
    assert Wire(linked) == Wire(r);
    if linked != r {
      var a := r.content.realm.value;
      assert Registered(realms, server, ids[a]);
    }
  }

  lemma {:induction false} LinkingKeepsLastId(t: seq<Row>, server: int, ids: map<int, Uuid>, sender: int)
    ensures LastSynced(AllLinked(t, server, ids), sender) == LastSynced(t, sender)
    decreases |t|
  {
    if t != [] {
      LinkingKeepsLastId(t[..|t| - 1], server, ids, sender);
      assert AllLinked(t, server, ids)[..|t| - 1] == AllLinked(t[..|t| - 1], server, ids);
    }
  }

  lemma LinkedAreUnique(t: seq<Row>, linked: seq<Row>)
    requires UniqueRows(t) && |linked| == |t| && NoNewClash(t, linked)
    ensures UniqueRows(linked)
  {
    hide Clash;
  }

  lemma LinkingKeepsNoGap(me: int, t: seq<Row>, log: seq<Incoming>, server: int, ids: map<int, Uuid>)
    requires NoGap(me, t, log)
    ensures NoGap(me, AllLinked(t, server, ids), log)
  {
    hide ForSync;
    LinkingKeepsLastId(t, server, ids, me);
    hide LastSynced;
    var linked := AllLinked(t, server, ids);
    forall x | x in log && x.id.Some? && x.id.value <= LastId(linked, me) && ForSync(x.content)
      ensures exists r :: r in linked && SyncedBy(r, me) && Wire(r) == x
    {
      var r :| r in t && SyncedBy(r, me) && Wire(r) == x;
      var i :| 0 <= i < |t| && t[i] == r;
      assert linked[i] in linked && Wire(linked[i]) == x;
    }
  }

  lemma LinkingKeeps(me: int, mine: map<int, Uuid>, realms: seq<RemoteRealm>, t: seq<Row>, log: seq<Incoming>,
                     reported: set<int>, server: int, ids: map<int, Uuid>)
    requires TableInv(me, mine, realms, t, log, reported) && OwnRealms(realms, server, ids)
    requires (server == me ==> Within(ids, mine)) && NoNewClash(t, AllLinked(t, server, ids))
    ensures TableInv(me, mine, realms, AllLinked(t, server, ids), log, reported)
  {
    hide GoodLog;
    hide KnownRow;
    hide UniqueRows;
    hide NoGap;
    hide NoNewClash;
    hide OwnRealms;
    hide Linked;
    var linked := AllLinked(t, server, ids);
    LinkedAreUnique(t, linked);
    LinkingKeepsNoGap(me, t, log, server, ids);
    LinkingKeepsLastId(t, server, ids, me);
    hide LastSynced;
    forall r | r in linked ensures KnownRow(me, mine, realms, log, r) {
      var i :| 0 <= i < |t| && linked[i] == r;
      assert t[i] in t;
      LinkedRow(me, mine, realms, log, t[i], server, ids);
    }
  }

  /** A table before an accepted list is inserted: rows linked, and the reconciliation's rows added. */
  lemma PreparedKeeps(me: int, mine: map<int, Uuid>, realms: seq<RemoteRealm>, store: Store, server: int, request: Request,
                      now: Time, k: Table, log: seq<Incoming>, reported: set<int>)
    requires TableInv(me, mine, realms, store.tables.Get(k), log, reported) && PostFault(store, server, request).None?
    requires OwnRealms(realms, server, RealmIds(request.Infos())) && (server == me ==> Within(RealmIds(request.Infos()), mine))
    ensures var t' := Prepared(store, server, request, k, now);
            && TableInv(me, mine, realms, t', log, reported)
            && LastId(t', me) == LastId(store.tables.Get(k), me) && LastId(t', server) == LastId(store.tables.Get(k), server)
  {
    hide TableInv;
    hide NoNewClash;
    hide Reconciled;
    hide ListsFault;
    hide OwnRealms;
    hide NewEntries;
    hide RealmIds;
    var t, ids := store.tables.Get(k), RealmIds(request.Infos());
    var linked, own := LinkedTable(store, server, request, k), OwnRows(store, server, request, k, now);
    LinkingKeepsLastId(t, server, ids, me);
    LinkingKeepsLastId(t, server, ids, server);
    hide LastSynced;
    if Links(store, server, request, k) {
      LinkingKeeps(me, mine, realms, t, log, reported, server, ids);
    }
    OwnRowsKeep(me, mine, realms, linked, own, log, reported);
    OwnRowsAreNobodys(linked, own, server);
  }

  /** Reconciliation forgets no realm, so known rows stay known. */
  lemma RealmsGrow(me: int, mine: map<int, Uuid>, g: Registry, g': Registry, t: seq<Row>, log: seq<Incoming>, reported: set<int>)
    requires TableInv(me, mine, g.realms, t, log, reported) && StillRegistered(g, g')
    ensures TableInv(me, mine, g'.realms, t, log, reported)
  {
    hide GoodLog;
    hide UniqueRows;
    hide NoGap;
    hide LastId;
    hide Mine;
    forall server, uuid | Registered(g.realms, server, uuid) ensures Registered(g'.realms, server, uuid) {
      var i :| 0 <= i < |g.realms| && g.realms[i].server == server && g.realms[i].uuid == uuid;
      assert g'.realms[i] in g'.realms;
    }
    hide Registered;
    assert forall r | r in t :: KnownRow(me, mine, g.realms, log, r);
  }

  /** The audit log rows of a reconciliation have neither a remote_id nor any unique key. */
  lemma OwnRowsKeep(me: int, mine: map<int, Uuid>, realms: seq<RemoteRealm>, t: seq<Row>, own: seq<Row>, log: seq<Incoming>,
                    reported: set<int>)
    requires TableInv(me, mine, realms, t, log, reported)
    requires forall r | r in own :: r.remoteId.None? && r.content.AuditRow?
    ensures TableInv(me, mine, realms, t + own, log, reported) && LastId(t + own, me) == LastId(t, me)
  {
    hide GoodLog;
    hide LastId;
    hide NoGap;
    assert forall r | r in own :: UniqueKeys(r) == {};
    hide UniqueKeys;
    assert forall i | |t| <= i < |t + own| :: (t + own)[i] in own;
    assert UniqueRows(t + own);
    hide UniqueRows;
    hide Clash;
    assert forall r | r in t + own :: r in t || r in own;
    OtherRowsKeep(me, mine, realms, t, t + own, log, reported);
  }

  lemma ObjectsAreKnown(me: int, mine: map<int, Uuid>, realms: seq<RemoteRealm>, ids: map<int, Uuid>, log: seq<Incoming>,
                        rows: seq<Incoming>, lastId: int)
    requires Within(ids, mine) && OwnRealms(realms, me, ids) && InOrder(rows, lastId) && (forall x | x in rows :: x in log)
    ensures forall r | r in RowObjects(me, ids, rows) ::
              KnownRow(me, mine, realms, log, r) && SyncedBy(r, me) && lastId < r.remoteId.value && Wire(r) in rows
  {
    hide Skipped;
    hide Allowed;
    hide Registered;
    RowObjectsAre(me, ids, rows);
    hide RowObjects;
    forall r | r in RowObjects(me, ids, rows)
      ensures KnownRow(me, mine, realms, log, r) && SyncedBy(r, me) && lastId < r.remoteId.value && Wire(r) in rows
    {
      var x :| x in rows && !Skipped(x.content) && r == Resolve(me, ids, x);
      ResolvedIsOwn(realms, me, ids, x);
      assert Wire(r) == x;
      if r.remoteRealm.Some? {
        var a := x.content.realm.value;
        assert a in ids && a in mine && mine[a] == ids[a];
      }
    }
  }

  lemma ChunkKeepsNoGap(me: int, ids: map<int, Uuid>, t: seq<Row>, log: seq<Incoming>, a: int, rows: seq<Incoming>)
    requires NoGap(me, t, log) && ChunkAbove(log, a, rows) && a <= LastId(t, me) && 0 <= LastId(t, me)
    requires forall r | r in RowObjects(me, ids, rows) :: SyncedBy(r, me) && LastId(t, me) < r.remoteId.value && Wire(r) in rows
    ensures LastId(t + RowObjects(me, ids, rows), me) >= LastId(t, me)
    ensures NoGap(me, t + RowObjects(me, ids, rows), log)
  {
    assert forall c: Content | ForSync(c) :: !Skipped(c);
    hide ForSync;
    hide Skipped;
    hide LastId;
    var objects := RowObjects(me, ids, rows);
    var t' := t + objects;
    LastIdGrows(t, objects, me);
    RowObjectsAre(me, ids, rows);
    forall x | x in log && x.id.Some? && x.id.value <= LastId(t', me) && ForSync(x.content)
      ensures exists r :: r in t' && SyncedBy(r, me) && Wire(r) == x
    {
      if x.id.value <= LastId(t, me) {
        var r :| r in t && SyncedBy(r, me) && Wire(r) == x;
        assert r in t';
      } else {
        var last :| last in objects && last.remoteId == Some(LastId(t', me));
        assert Wire(last) in rows && x in rows;
        assert Resolve(me, ids, x) in t' && Wire(Resolve(me, ids, x)) == x;
      }
    }
  }

  lemma SendKeeps(me: int, mine: map<int, Uuid>, realms: seq<RemoteRealm>, ids: map<int, Uuid>, t: seq<Row>,
                  log: seq<Incoming>, reported: set<int>, rows: seq<Incoming>)
    requires TableInv(me, mine, realms, t, log, reported) && Injective(mine) && Within(ids, mine)
    requires DistinctUuids(realms) && OwnRealms(realms, me, ids) && InOrder(rows, LastId(t, me))
    requires rows != [] ==> exists a :: a in reported && ChunkAbove(log, a, rows)
    ensures var t' := InsertIgnoringConflicts(t, RowObjects(me, ids, rows));
            TableInv(me, mine, realms, t', log, reported) && LastId(t', me) >= LastId(t, me)
  {
    hide KnownRow;
    hide GoodLog;
    hide UniqueRows;
    hide LastId;
    hide DistinctUuids;
    hide OwnRealms;
    if rows != [] {
      hide InsertIgnoringConflicts;
      var a :| a in reported && ChunkAbove(log, a, rows);
      ChunkIsStored(me, mine, realms, ids, t, log, reported, a, rows);
      InsertCovers(t, RowObjects(me, ids, rows));
      ObjectsAreKnown(me, mine, realms, ids, log, rows, LastId(t, me));
      ChunkKeepsNoGap(me, ids, t, log, a, rows);
    }
  }

  /** Every row after an insert was there before or is one of those inserted. */
  lemma SendOtherKeeps(me: int, mine: map<int, Uuid>, realms: seq<RemoteRealm>, other: int, ids: map<int, Uuid>,
                       t: seq<Row>, log: seq<Incoming>, reported: set<int>, rows: seq<Incoming>)
    requires TableInv(me, mine, realms, t, log, reported) && other != me && InOrder(rows, LastId(t, other))
    requires OwnRealms(realms, other, ids)
    ensures var t' := InsertIgnoringConflicts(t, RowObjects(other, ids, rows));
            TableInv(me, mine, realms, t', log, reported) && LastId(t', me) == LastId(t, me)
  {
    hide GoodLog;
    hide UniqueRows;
    hide LastId;
    hide Skipped;
    hide Allowed;
    hide NoGap;
    hide Registered;
    hide Mine;
    var objects := RowObjects(other, ids, rows);
    var t' := InsertIgnoringConflicts(t, objects);
    InsertCovers(t, objects);
    InsertedFrom(t, objects);
    hide InsertIgnoringConflicts;
    RowObjectsAre(other, ids, rows);
    hide RowObjects;
    assert forall r | r in t :: r in t';
    forall r | r in objects ensures !SyncedBy(r, me) && KnownRow(me, mine, realms, log, r) {
      var x :| x in rows && !Skipped(x.content) && r == Resolve(other, ids, x);
    }
    OtherRowsKeep(me, mine, realms, t, t', log, reported);
  }

  lemma OwnRowKeeps(me: int, mine: map<int, Uuid>, realms: seq<RemoteRealm>, t: seq<Row>, log: seq<Incoming>,
                    reported: set<int>, i: nat, row: Row)
    requires TableInv(me, mine, realms, t, log, reported)
    requires row.remoteId.None? && (OwnContent(row.content) || row.content.AuditRow?)
    requires i <= |t| && (i < |t| ==> t[i].remoteId.None?)
    requires forall j | 0 <= j < |t| && j != i :: !Clash(t[j], row)
    ensures TableInv(me, mine, realms, Put(t, i, row), log, reported) && LastId(Put(t, i, row), me) == LastId(t, me)
  {
    hide GoodLog;
    hide LastId;
    hide NoGap;
    hide UniqueKeys;
    hide OwnContent;
    hide Registered;
    hide Mine;
    var t' := Put(t, i, row);
    assert forall j | 0 <= j < |t| && j != i :: t'[j] == t[j] && t'[j] in t';
    forall r | SyncedBy(r, me) ensures r in t <==> r in t' {
      if r in t {
        var j :| 0 <= j < |t| && t[j] == r;
        assert t'[j] == r;
      }
    }
    OtherRowsKeep(me, mine, realms, t, t', log, reported);
  }

  /** The log grew by a row above all stored ones. */
  lemma AppendKeeps(me: int, mine: map<int, Uuid>, realms: seq<RemoteRealm>, t: seq<Row>, log: seq<Incoming>,
                    reported: set<int>, x: Incoming)
    requires TableInv(me, mine, realms, t, log, reported) && GoodLog(log + [x])
    ensures TableInv(me, mine, realms, t, log + [x], reported)
  {
    hide Skipped;
    hide Allowed;
    hide ForSync;
    hide UniqueRows;
    hide Registered;
    assert forall y | y in log :: y in log + [x];
    assert forall r | r in t :: KnownRow(me, mine, realms, log, r) ==> KnownRow(me, mine, realms, log + [x], r);
    LastIdBelow(me, mine, realms, t, log, x);
    hide LastId;
  }

  lemma LastIdBelow(me: int, mine: map<int, Uuid>, realms: seq<RemoteRealm>, t: seq<Row>, log: seq<Incoming>, x: Incoming)
    requires GoodLog(log + [x]) && forall r | r in t :: KnownRow(me, mine, realms, log, r)
    ensures x.id.Some? && LastId(t, me) < x.id.value
  {
    hide Skipped;
    hide Allowed;
    hide Registered;
    LastIdIsMaximum(t, me);
    assert x in log + [x] && (log + [x])[|log|] == x;
    if LastSynced(t, me).Some? {
      hide LastSynced;
      var r :| r in t && SyncedBy(r, me) && r.remoteId.value == LastId(t, me);
      var i :| 0 <= i < |log| && log[i] == Wire(r);
      assert (log + [x])[i] == log[i] && log[i] in log + [x];
    }
  }

  /** An accepted post of any server, on one table: reconciliation, its audit rows, then the list. */
  lemma AcceptedPost(store: Store, server: int, request: Request, now: Time, k: Table)
    requires PostFault(store, server, request).None?
    ensures var g' := Post(store, server, request, now).1.registry;
            && StillRegistered(store.registry, g') && OwnRealms(g'.realms, server, RealmIds(request.Infos()))
            && Post(store, server, request, now).1.tables.Get(k)
               == InsertIgnoringConflicts(Prepared(store, server, request, k, now),
                                          RowObjects(server, RealmIds(request.Infos()), request.rows.Get(k)))
            && InOrder(request.rows.Get(k), LastId(store.tables.Get(k), server))
  {
    hide StillRegistered;
    hide StillClash;
    hide OwnRealms;
    hide Prepared;
    hide ListsFault;
    hide LinksFit;
    hide InsertIgnoringConflicts;
    hide RowObjects;
    hide Validate;
    hide InOrder;
    hide LastId;
    ValidatedInOrder(store, server, request, k);
    PostGrows(store, server, request, now, k);
    ReconciledOwnsRealms(store.registry, server, request);
    hide Reconciled;
    hide VersionUpdated;
  }

  lemma SendStep(me: int, mine: map<int, Uuid>, s: Sync, request: Request, now: Time, k: Table)
    requires Injective(mine) && SyncInv(me, mine, s) && Enabled(me, mine, s, Send(request, now))
    requires PostFault(s.store, me, request).None?
    ensures var after := Post(s.store, me, request, now).1;
            && TableInv(me, mine, after.registry.realms, after.tables.Get(k), s.log.Get(k), s.reported.Get(k))
            && LastId(s.store.tables.Get(k), me) <= LastId(after.tables.Get(k), me)
  {
    hide TableInv;
    hide LastId;
    hide Post;
    hide PostFault;
    hide Prepared;
    hide InsertIgnoringConflicts;
    hide RowObjects;
    hide RealmIds;
    hide InOrder;
    hide ChunkAbove;
    hide DistinctUuids;
    hide OwnRealms;
    AcceptedPost(s.store, me, request, now, k);
    var t, t', g' := s.store.tables.Get(k), Prepared(s.store, me, request, k, now), Post(s.store, me, request, now).1.registry;
    RealmsGrow(me, mine, s.store.registry, g', t, s.log.Get(k), s.reported.Get(k));
    PreparedKeeps(me, mine, g'.realms, s.store, me, request, now, k, s.log.Get(k), s.reported.Get(k));
    SendKeeps(me, mine, g'.realms, RealmIds(request.Infos()), t', s.log.Get(k), s.reported.Get(k), request.rows.Get(k));
  }

  lemma SendOtherStep(me: int, mine: map<int, Uuid>, s: Sync, other: int, request: Request, now: Time, k: Table)
    requires SyncInv(me, mine, s) && other != me && PostFault(s.store, other, request).None?
    ensures var after := Post(s.store, other, request, now).1;
            && TableInv(me, mine, after.registry.realms, after.tables.Get(k), s.log.Get(k), s.reported.Get(k))
            && LastId(s.store.tables.Get(k), me) <= LastId(after.tables.Get(k), me)
  {
    hide TableInv;
    hide LastId;
    hide Post;
    hide PostFault;
    hide Prepared;
    hide InsertIgnoringConflicts;
    hide RowObjects;
    hide RealmIds;
    hide InOrder;
    hide DistinctUuids;
    hide OwnRealms;
    AcceptedPost(s.store, other, request, now, k);
    var t, t', g' := s.store.tables.Get(k), Prepared(s.store, other, request, k, now), Post(s.store, other, request, now).1.registry;
    RealmsGrow(me, mine, s.store.registry, g', t, s.log.Get(k), s.reported.Get(k));
    PreparedKeeps(me, mine, g'.realms, s.store, other, request, now, k, s.log.Get(k), s.reported.Get(k));
    SendOtherKeeps(me, mine, g'.realms, other, RealmIds(request.Infos()), t', s.log.Get(k), s.reported.Get(k), request.rows.Get(k));
  }

  lemma OwnRowsAreNobodys(t: seq<Row>, own: seq<Row>, server: int)
    requires forall r | r in own :: r.remoteId.None?
    ensures LastId(t + own, server) == LastId(t, server)
  {
    hide LastId;
    assert forall r | r in t + own :: r in t || r in own;
    SentRowsDecide(t, t + own, server);
  }

  lemma TableStep(me: int, mine: map<int, Uuid>, s: Sync, a: Action, k: Table)
    requires Injective(mine) && SyncInv(me, mine, s) && Enabled(me, mine, s, a)
    ensures var s' := Step(me, s, a);
            && TableInv(me, mine, s'.store.registry.realms, s'.store.tables.Get(k), s'.log.Get(k), s'.reported.Get(k))
            && LastId(s.store.tables.Get(k), me) <= LastId(s'.store.tables.Get(k), me)
            && s.log.Get(k) <= s'.log.Get(k)
  {
    hide LastId;
    hide PostFault;
    hide Stored;
    hide ChunkAbove;
    hide Clash;
    hide OwnContent;
    hide DistinctUuids;
    hide GoodLog;
    hide KnownRow;
    hide NoGap;
    hide UniqueRows;
    assert TableInv(me, mine, s.store.registry.realms, s.store.tables.Get(k), s.log.Get(k), s.reported.Get(k));
    match a
    case Append(k', x) =>
      if k' == k {
        AppendKeeps(me, mine, s.store.registry.realms, s.store.tables.Get(k), s.log.Get(k), s.reported.Get(k), x);
      }
    case Poll =>
    case Send(request, now) =>
      if PostFault(s.store, me, request).None? {
        SendStep(me, mine, s, request, now, k);
      }
    case SendOther(other, request, now) =>
      if PostFault(s.store, other, request).None? {
        SendOtherStep(me, mine, s, other, request, now, k);
      }
    case OwnRow(k', i, row) =>
      if k' == k {
        OwnRowKeeps(me, mine, s.store.registry.realms, s.store.tables.Get(k), s.log.Get(k), s.reported.Get(k), i, row);
      }
  }

  /** uuids stay distinct, whoever posts. */
  lemma UuidsStayDistinct(me: int, s: Sync, a: Action)
    requires DistinctUuids(s.store.registry.realms)
    ensures DistinctUuids(Step(me, s, a).store.registry.realms)
  {
    hide Post;
    hide DistinctUuids;
    match a
    case Send(request, now) => PostGrows(s.store, me, request, now, AuditLog);
    case SendOther(other, request, now) => PostGrows(s.store, other, request, now, AuditLog);
    case _ =>
  }

  lemma StepKeeps(me: int, mine: map<int, Uuid>, s: Sync, a: Action)
    requires Injective(mine) && SyncInv(me, mine, s) && Enabled(me, mine, s, a)
    ensures SyncInv(me, mine, Step(me, s, a))
  {
    hide TableInv;
    hide Step;
    hide Enabled;
    hide DistinctUuids;
    UuidsStayDistinct(me, s, a);
    forall k: Table { TableStep(me, mine, s, a, k); }
  }

  lemma {:induction false} RunKeeps(me: int, mine: map<int, Uuid>, s: Sync, actions: seq<Action>, end: Sync)
    requires Injective(mine) && SyncInv(me, mine, s) && Run(me, mine, s, actions, end)
    ensures SyncInv(me, mine, end)
    decreases |actions|
  {
    hide SyncInv;
    hide Step;
    hide Enabled;
    if actions != [] {
      StepKeeps(me, mine, s, actions[0]);
      RunKeeps(me, mine, Step(me, s, actions[0]), actions[1..], end);
    }
  }

  lemma StartIsGood(me: int, mine: map<int, Uuid>)
    ensures SyncInv(me, mine, Start())
  {}

  /* The theorems. */

  ghost function StoredOf(t: seq<Row>, me: int): set<Incoming> {
    set r | r in t && SyncedBy(r, me) :: Wire(r)
  }

  ghost function LogUpTo(log: seq<Incoming>, last: int): set<Incoming> {
    set x | x in log && x.id.Some? && x.id.value <= last && ForSync(x.content)
  }

  /** Gap-free sync. After every run, what is stored of the server's rows in a table is exactly the
      log up to the last id, without what the bouncer skips, and each row only once. */
  lemma GapFree(me: int, mine: map<int, Uuid>, actions: seq<Action>, s: Sync, k: Table)
    requires Injective(mine) && Run(me, mine, Start(), actions, s)
    ensures StoredOf(s.store.tables.Get(k), me) == LogUpTo(s.log.Get(k), LastId(s.store.tables.Get(k), me))
    ensures forall i, j | 0 <= i < j < |s.store.tables.Get(k)| && SyncedBy(s.store.tables.Get(k)[i], me) && SyncedBy(s.store.tables.Get(k)[j], me) ::
              s.store.tables.Get(k)[i].remoteId != s.store.tables.Get(k)[j].remoteId
  {
    hide Enabled;
    hide Step;
    hide Run;
    StartIsGood(me, mine);
    RunKeeps(me, mine, Start(), actions, s);
    var t := s.store.tables.Get(k);
    assert TableInv(me, mine, s.store.registry.realms, t, s.log.Get(k), s.reported.Get(k));
    StoredIsLog(me, mine, s.store.registry.realms, t, s.log.Get(k), s.reported.Get(k));
    forall i, j | 0 <= i < j < |t| && SyncedBy(t[i], me) && SyncedBy(t[j], me) ensures t[i].remoteId != t[j].remoteId {
      IdsDiffer(t[i], t[j], me);
    }
  }

  lemma IdsDiffer(a: Row, b: Row, me: int)
    requires SyncedBy(a, me) && SyncedBy(b, me) && !Clash(a, b)
    ensures a.remoteId != b.remoteId
  {
    var x, y := IdKey(me, a.remoteId.value), IdKey(me, b.remoteId.value);
    assert x in UniqueKeys(a) && y in UniqueKeys(b);
    assert UniqueKeys(a) * UniqueKeys(b) == {};
    assert x !in UniqueKeys(a) * UniqueKeys(b);
  }

  lemma StoredIsLog(me: int, mine: map<int, Uuid>, realms: seq<RemoteRealm>, t: seq<Row>, log: seq<Incoming>,
                    reported: set<int>)
    requires TableInv(me, mine, realms, t, log, reported)
    ensures StoredOf(t, me) == LogUpTo(log, LastId(t, me))
  {
    hide GoodLog;
    hide UniqueRows;
    hide Registered;
    LastIdIsMaximum(t, me);
    hide LastId;
    forall x | x in StoredOf(t, me) ensures x in LogUpTo(log, LastId(t, me)) {
      var r :| r in t && SyncedBy(r, me) && x == Wire(r);
      assert KnownRow(me, mine, realms, log, r);
    }
  }

  /** The last id of a table never decreases, in any run from any reachable state. */
  lemma {:induction false} LastIdNeverDecreases(me: int, mine: map<int, Uuid>, s: Sync, actions: seq<Action>,
                                                end: Sync, k: Table)
    requires Injective(mine) && SyncInv(me, mine, s) && Run(me, mine, s, actions, end)
    ensures LastId(s.store.tables.Get(k), me) <= LastId(end.store.tables.Get(k), me)
    decreases |actions|
  {
    hide SyncInv;
    hide Step;
    hide Enabled;
    hide LastId;
    if actions != [] {
      StepKeeps(me, mine, s, actions[0]);
      TableStep(me, mine, s, actions[0], k);
      LastIdNeverDecreases(me, mine, Step(me, s, actions[0]), actions[1..], end, k);
    }
  }

  /* Linking is never refused. */

  lemma LinkedToOther(me: int, mine: map<int, Uuid>, realms: seq<RemoteRealm>, log: seq<Incoming>, ids: map<int, Uuid>, a: Row, b: Row)
    requires KnownRow(me, mine, realms, log, a) && KnownRow(me, mine, realms, log, b)
    requires Injective(mine) && Within(ids, mine) && OwnRealms(realms, me, ids) && DistinctUuids(realms)
    requires a.content.RealmCountRow? && b.content.RealmCountRow? && a.content.property == b.content.property
    requires Unlinked(a, me, ids) && Linked(b, me, ids).remoteRealm == Linked(a, me, ids).remoteRealm
    ensures b.server == me && b.content.realm == a.content.realm
  {
    hide Registered;
    hide DistinctUuids;
    var realm := a.content.realm.value;
    assert SyncedBy(a, me) && a.content.property !in BOUNCER_ONLY;
    assert Registered(realms, me, ids[realm]);
    if b.remoteRealm.Some? {
      OneServer(realms, me, b.server, b.remoteRealm.value);
      SameValue(ids, mine, realm, b.content.realm.value);
    } else {
      SameValue(ids, mine, realm, b.content.realm.value);
    }
  }

  lemma LinkedRowsFit(me: int, mine: map<int, Uuid>, realms: seq<RemoteRealm>, log: seq<Incoming>, ids: map<int, Uuid>, a: Row, b: Row)
    requires KnownRow(me, mine, realms, log, a) && KnownRow(me, mine, realms, log, b)
    requires Injective(mine) && Within(ids, mine) && OwnRealms(realms, me, ids) && DistinctUuids(realms)
    ensures Clash(Linked(a, me, ids), Linked(b, me, ids)) ==> Clash(a, b)
  {
    hide KnownRow;
    hide OwnRealms;
    hide DistinctUuids;
    hide Injective;
    var a', b' := Linked(a, me, ids), Linked(b, me, ids);
    if k :| k in UniqueKeys(a') * UniqueKeys(b') && k !in UniqueKeys(a) * UniqueKeys(b) {
      assert k.RemoteRealmKey? && a'.remoteRealm == b'.remoteRealm;
      if Unlinked(a, me, ids) {
        LinkedToOther(me, mine, realms, log, ids, a, b);
      } else {
        LinkedToOther(me, mine, realms, log, ids, b, a);
      }
      var c := a.content;
      var realmKey := RealmKey(me, c.realm.value, c.property, c.endTime, c.subgroup);
      assert realmKey in UniqueKeys(a) * UniqueKeys(b);
    }
  }

  /** In every reachable state, an upgraded server's request whose realms are accepted can have its
      older rows linked to them: no unique constraint is in the way. */
  lemma LinksAlwaysFit(me: int, mine: map<int, Uuid>, s: Sync, request: Request)
    requires Injective(mine) && SyncInv(me, mine, s) && Within(RealmIds(request.Infos()), mine)
    requires Reconciled(s.store.registry, me, request).0
    ensures LinksFit(s.store, me, request)
  {
    hide Reconciled;
    hide RealmIds;
    hide Linked;
    hide Clash;
    hide KnownRow;
    hide DistinctUuids;
    hide GoodLog;
    hide NoGap;
    hide LastId;
    hide StillRegistered;
    hide OwnRealms;
    hide Injective;
    var ids, g' := RealmIds(request.Infos()), Reconciled(s.store.registry, me, request).1;
    ReconciledOwnsRealms(s.store.registry, me, request);
    ReconciledStillRegistered(s.store.registry, me, request);
    forall k: Table, i, j | 0 <= i < j < |s.store.tables.Get(k)|
      ensures !Clash(Linked(s.store.tables.Get(k)[i], me, ids), Linked(s.store.tables.Get(k)[j], me, ids))
    {
      var t := s.store.tables.Get(k);
      assert TableInv(me, mine, s.store.registry.realms, t, s.log.Get(k), s.reported.Get(k));
      RealmsGrow(me, mine, s.store.registry, g', t, s.log.Get(k), s.reported.Get(k));
      LinkedRowsFit(me, mine, g'.realms, s.log.Get(k), ids, t[i], t[j]);
    }
    assert s.store.tables.realmCounts == s.store.tables.Get(RealmCounts) && s.store.tables.auditLog == s.store.tables.Get(AuditLog);
    SameTableFits(s.store.tables.realmCounts);
    SameTableFits(s.store.tables.auditLog);
  }

  lemma ReconciledStillRegistered(g: Registry, server: int, request: Request)
    requires DistinctUuids(g.realms)
    ensures var g' := Reconciled(g, server, request).1; StillRegistered(g, g') && DistinctUuids(g'.realms)
  {
    hide Reconcile;
    hide DistinctUuids;
    NothingHappened(g);
    ReconcileStillRegistered(g, server, request.Reports());
  }
}
