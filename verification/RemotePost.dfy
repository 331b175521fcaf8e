/** remote_server_post_analytics (zilencer/views.py): one transaction that validates three lists of
    rows, reconciles the reported realms, and stores everything or nothing. */
module RemotePost {
  import opened Options
  import opened CountTables
  import opened RemoteTables
  import opened RealmReconciliation

  /** RealmDataForAnalytics: a realm's id on its own server, and what is reconciled. */
  datatype RealmInfo = RealmInfo(id: int, report: Report)

  /** What a server says it runs. */
  datatype Version = Version(version: Option<string>, mergeBase: Option<string>, featureLevel: Option<int>)

  const NO_VERSION := Version(None, None, None)

  const VERSION_MAX_LENGTH := 128

  /** A request; the list of realms may be missing. A missing audit log list is an empty one. */
  datatype Request = Request(rows: PerTable<seq<Incoming>>, realms: Option<seq<RealmInfo>>, version: Version) {
    function Infos(): seq<RealmInfo> {
      if realms.Some? then realms.value else []
    }

    function Reports(): (reports: seq<Report>)
      ensures |reports| == |Infos()| && forall i | 0 <= i < |reports| :: reports[i] == Infos()[i].report
    {
      seq(|Infos()|, i requires 0 <= i < |Infos()| => Infos()[i].report)
    }
  }

  datatype Verdict = Accepted | Rejected(fault: Fault)

  /** The three synced tables, the registered realms, and the version each server last sent. */
  datatype Store = Store(tables: Database, registry: Registry, versions: map<int, Version>)

  /** `version[0:VERSION_MAX_LENGTH]`. */
  function Shortened(v: Version): Version {
    if v.version.Some? && |v.version.value| > VERSION_MAX_LENGTH then v.(version := Some(v.version.value[..VERSION_MAX_LENGTH]))
    else v
  }

  function LastVersion(versions: map<int, Version>, server: int): Version {
    if server in versions then versions[server] else NO_VERSION
  }

  /** remote_server_version_updated. */
  predicate VersionUpdated(store: Store, server: int, request: Request) {
    Shortened(request.version) != LastVersion(store.versions, server)
  }

  /** build_realm_id_to_remote_realm_dict; a RemoteRealm is known by its uuid. */
  function RealmIds(infos: seq<RealmInfo>): map<int, Uuid>
    decreases |infos|
  {
    if infos == [] then map[]
    else RealmIds(infos[..|infos| - 1])[infos[|infos| - 1].id := infos[|infos| - 1].report.uuid]
  }

  function Resolve(server: int, realms: map<int, Uuid>, r: Incoming): Row {
    var c := r.content;
    var known := !c.InstallationCountRow? && c.realm.Some? && c.realm.value in realms;
    Row(server, r.id, if known then Some(realms[c.realm.value]) else None, c)
  }

  /** The row objects built from a list, without the skipped properties. */
  function RowObjects(server: int, realms: map<int, Uuid>, rows: seq<Incoming>): seq<Row>
    decreases |rows|
  {
    if rows == [] then []
    else
      var r := rows[|rows| - 1];
      RowObjects(server, realms, rows[..|rows| - 1]) + if Skipped(r.content) then [] else [Resolve(server, realms, r)]
  }

  predicate SomeMalformed(rows: seq<Incoming>) {
    exists r | r in rows :: r.content.AuditRow? && r.content.extraData.Malformed?
  }

  /* The rows that reconciliation adds to RemoteRealmAuditLog. */

  function EventTypeOf(change: Change): int {
    match change
    case ValueUpdated(_, _, _) => 20001
    case LocallyDeleted => 20003
    case Restored => 20004
  }

  function IdOf(infos: seq<RealmInfo>, uuid: Uuid): Option<int>
    decreases |infos|
  {
    if infos == [] then None
    else if infos[|infos| - 1].report.uuid == uuid then Some(infos[|infos| - 1].id)
    else IdOf(infos[..|infos| - 1], uuid)
  }

  /** A row of the bouncer's own, without a remote_id. */
  function EntryRow(server: int, infos: seq<RealmInfo>, entry: Entry, now: Time): Row {
    var id := if entry.change.LocallyDeleted? then None else IdOf(infos, entry.uuid);
    Row(server, None, Some(entry.uuid), AuditRow(id, now, EventTypeOf(entry.change), Logged(entry.change)))
  }

  function EntryRows(server: int, infos: seq<RealmInfo>, entries: seq<Entry>, now: Time): (rows: seq<Row>)
    ensures |rows| == |entries|
    ensures forall i | 0 <= i < |rows| :: rows[i] == EntryRow(server, infos, entries[i], now)
  {
    seq(|entries|, i requires 0 <= i < |entries| => EntryRow(server, infos, entries[i], now))
  }

  /** What reconciling the request's realms logs. */
  function NewEntries(g: Registry, server: int, request: Request): seq<Entry> {
    if request.realms.None? then []
    else AllSyncEntries(g.realms, server, request.Reports()) + AllDeleteEntries(g.realms, server, request.Reports())
  }

  /** The registry after the request, and whether its realms are accepted. */
  function Reconciled(g: Registry, server: int, request: Request): (bool, Registry) {
    if request.realms.None? then (true, g) else Reconcile(g, server, request.Reports())
  }

  /* fix_remote_realm_foreign_keys. */

  /** A row that a server sent before its realm was known. */
  predicate Unlinked(r: Row, server: int, realms: map<int, Uuid>) {
    r.server == server && r.remoteRealm.None? && !r.content.InstallationCountRow? && r.content.realm.Some?
    && r.content.realm.value in realms
  }

  function Linked(r: Row, server: int, realms: map<int, Uuid>): Row {
    if Unlinked(r, server, realms) then r.(remoteRealm := Some(realms[r.content.realm.value])) else r
  }

  /** `UPDATE ... SET remote_realm` for each of the realms. */
  function AllLinked(t: seq<Row>, server: int, realms: map<int, Uuid>): (linked: seq<Row>)
    ensures |linked| == |t| && forall i | 0 <= i < |t| :: linked[i] == Linked(t[i], server, realms)
  {
    seq(|t|, i requires 0 <= i < |t| => Linked(t[i], server, realms))
  }

  /** An update is accepted when it violates no unique constraint. */
  predicate NoNewClash(before: seq<Row>, after: seq<Row>)
    requires |before| == |after|
  {
    forall i, j | 0 <= i < j < |after| && Clash(after[i], after[j]) :: Clash(before[i], before[j])
  }

  /** The one map says what the other does. */
  ghost predicate Within<A(!new), B>(m: map<A, B>, n: map<A, B>) {
    forall a | a in m :: a in n && m[a] == n[a]
  }

  lemma WithinMore<A(!new), B>(m: map<A, B>, n: map<A, B>, a: A)
    requires Within(m, n) && a in n
    ensures Within(m[a := n[a]], n)
  {}

  lemma WithinAll<A(!new), B>(m: map<A, B>, n: map<A, B>)
    requires Within(m, n) && m.Keys == n.Keys
    ensures m == n
  {}

  /** Linking more rows only adds unique keys. */
  lemma LinkingAddsKeys(r: Row, server: int, some: map<int, Uuid>, realms: map<int, Uuid>)
    requires Within(some, realms)
    ensures UniqueKeys(Linked(r, server, some)) <= UniqueKeys(Linked(r, server, realms))
  {}

  lemma ClashStays(a: Row, b: Row, server: int, some: map<int, Uuid>, realms: map<int, Uuid>)
    requires Within(some, realms) && Clash(Linked(a, server, some), Linked(b, server, some))
    ensures Clash(Linked(a, server, realms), Linked(b, server, realms))
  {
    LinkingAddsKeys(a, server, some, realms);
    LinkingAddsKeys(b, server, some, realms);
    hide Linked;
    hide UniqueKeys;
    var k :| k in UniqueKeys(Linked(a, server, some)) * UniqueKeys(Linked(b, server, some));
    assert k in UniqueKeys(Linked(a, server, realms)) * UniqueKeys(Linked(b, server, realms));
  }

  lemma LinkNone(t: seq<Row>, server: int)
    ensures AllLinked(t, server, map[]) == t
  {}

  lemma LinkOneMore(t: seq<Row>, server: int, done: map<int, Uuid>, a: int, uuid: Uuid)
    requires a !in done
    ensures AllLinked(AllLinked(t, server, done), server, map[a := uuid]) == AllLinked(t, server, done[a := uuid])
  {}

  /** One UPDATE for the realm `a`: accepted so far, or refused in the end. */
  lemma UpdateOne(t: seq<Row>, server: int, done: map<int, Uuid>, realms: map<int, Uuid>, a: int)
    requires Within(done, realms) && a in realms && a !in done && NoNewClash(t, AllLinked(t, server, done))
    ensures var now := AllLinked(t, server, done); var next := AllLinked(now, server, map[a := realms[a]]);
            && next == AllLinked(t, server, done[a := realms[a]])
            && (NoNewClash(now, next) ==> NoNewClash(t, next))
            && (!NoNewClash(now, next) ==> !NoNewClash(t, AllLinked(t, server, realms)))
  {
    hide Clash;
    hide Linked;
    var now, done' := AllLinked(t, server, done), done[a := realms[a]];
    LinkOneMore(t, server, done, a, realms[a]);
    WithinMore(done, realms, a);
    var next := AllLinked(t, server, done');
    if i, j :| 0 <= i < j < |t| && Clash(next[i], next[j]) && !Clash(now[i], now[j]) {
      ClashStays(t[i], t[j], server, done', realms);
      UnlinkedClash(t[i], t[j], server, done);
    }
  }

  lemma UnlinkedClash(a: Row, b: Row, server: int, done: map<int, Uuid>)
    ensures Clash(a, b) ==> Clash(Linked(a, server, done), Linked(b, server, done))
  {
    var none: map<int, Uuid> := map[];
    assert Linked(a, server, none) == a && Linked(b, server, none) == b;
    if Clash(a, b) {
      ClashStays(a, b, server, none, done);
    }
  }

  /** Whether the post sets RemoteRealms in this table: a server that upgrades may have sent rows
      before it reported its realms. */
  predicate Links(store: Store, server: int, request: Request, k: Table) {
    request.realms.Some? && VersionUpdated(store, server, request) && k != InstallationCounts
  }

  function LinkedTable(store: Store, server: int, request: Request, k: Table): (linked: seq<Row>)
    ensures |linked| == |store.tables.Get(k)|
  {
    var t := store.tables.Get(k);
    if Links(store, server, request, k) then AllLinked(t, server, RealmIds(request.Infos())) else t
  }

  predicate LinksFit(store: Store, server: int, request: Request) {
    && NoNewClash(store.tables.realmCounts, LinkedTable(store, server, request, RealmCounts))
    && NoNewClash(store.tables.auditLog, LinkedTable(store, server, request, AuditLog))
  }

  /* The transaction. */

  /** The three validations, which come before any other write than that of the version. */
  function ListsFault(db: Database, server: int, request: Request): Option<Fault> {
    var fault0 := Validate(request.rows.realmCounts, LastId(db.realmCounts, server));
    var fault1 := Validate(request.rows.installationCounts, LastId(db.installationCounts, server));
    if fault0.Some? then fault0
    else if fault1.Some? then fault1
    else Validate(request.rows.auditLog, LastId(db.auditLog, server))
  }

  function PostFault(store: Store, server: int, request: Request): Option<Fault> {
    if ListsFault(store.tables, server, request).Some? then ListsFault(store.tables, server, request)
    else if !Reconciled(store.registry, server, request).0 then Some(RealmsRefused)
    else if !LinksFit(store, server, request) then Some(LinkConflict)
    else if SomeMalformed(request.rows.auditLog) then Some(MalformedAuditData)
    else None
  }

  /** The bouncer's own rows that a request adds to a table. */
  function OwnRows(store: Store, server: int, request: Request, k: Table, now: Time): seq<Row> {
    if k == AuditLog then EntryRows(server, request.Infos(), NewEntries(store.registry, server, request), now) else []
  }

  /** A table before the rows of an accepted request are inserted. */
  function Prepared(store: Store, server: int, request: Request, k: Table, now: Time): seq<Row> {
    LinkedTable(store, server, request, k) + OwnRows(store, server, request, k, now)
  }

  /** A table after an accepted request. */
  function Stored(store: Store, server: int, request: Request, k: Table, now: Time): seq<Row> {
    InsertIgnoringConflicts(Prepared(store, server, request, k, now),
                            RowObjects(server, RealmIds(request.Infos()), request.rows.Get(k)))
  }

  /** The verdict on a request that arrives at `now`, and the store after it: all three lists and
      the reported realms are stored, or nothing is. */
  function Post(store: Store, server: int, request: Request, now: Time): (Verdict, Store) {
    var fault := PostFault(store, server, request);
    if fault.Some? then (Rejected(fault.value), store)
    else
      (Accepted,
       Store(PerTable(Stored(store, server, request, RealmCounts, now),
                      Stored(store, server, request, InstallationCounts, now),
                      Stored(store, server, request, AuditLog, now)),
             Reconciled(store.registry, server, request).1,
             if VersionUpdated(store, server, request) then store.versions[server := Shortened(request.version)]
             else store.versions))
  }

  /** Which honest requests are accepted, their realms being acceptable: exactly those whose every
      list starts above the last id stored at that moment. So one built on a fresh report always is,
      and one that repeats a stored row never is. */
  lemma AcceptedIffFresh(store: Store, me: int, request: Request, now: Time)
    requires forall k: Table :: Honest(request.rows.Get(k))
    requires Reconciled(store.registry, me, request).0 && LinksFit(store, me, request) && !SomeMalformed(request.rows.auditLog)
    ensures Post(store, me, request, now).0 == Accepted
       <==> forall k: Table :: StartsAbove(request.rows.Get(k), LastId(store.tables.Get(k), me))
  {
    hide Honest;
    hide LastId;
    hide Stored;
    hide Reconciled;
    hide LinksFit;
    hide SomeMalformed;
    forall k: Table
      ensures Validate(request.rows.Get(k), LastId(store.tables.Get(k), me)).None?
         <==> StartsAbove(request.rows.Get(k), LastId(store.tables.Get(k), me))
    {
      HonestInOrder(request.rows.Get(k), LastId(store.tables.Get(k), me));
    }
    hide Validate;
    hide StartsAbove;
    assert request.rows.Get(RealmCounts) == request.rows.realmCounts;
    assert request.rows.Get(InstallationCounts) == request.rows.installationCounts;
    assert request.rows.Get(AuditLog) == request.rows.auditLog;
  }

  /** The two count tables get no rows of the bouncer's own. */
  lemma PreparedCounts(store: Store, server: int, request: Request, k: Table, now: Time)
    requires k != AuditLog
    ensures Prepared(store, server, request, k, now) == LinkedTable(store, server, request, k)
  {
    assert LinkedTable(store, server, request, k) + [] == LinkedTable(store, server, request, k);
  }

  /** The rows that reconciliation has just logged are linked already, and have no unique keys. */
  lemma OwnRowsAreLinked(t: seq<Row>, own: seq<Row>, server: int, realms: map<int, Uuid>)
    requires forall r | r in own :: r.remoteId.None? && r.remoteRealm.Some? && r.content.AuditRow?
    ensures AllLinked(t + own, server, realms) == AllLinked(t, server, realms) + own
    ensures NoNewClash(t + own, AllLinked(t + own, server, realms)) <==> NoNewClash(t, AllLinked(t, server, realms))
  {
    var all, linked := t + own, AllLinked(t, server, realms);
    forall i | |t| <= i < |all| ensures Linked(all[i], server, realms) == all[i] && UniqueKeys(all[i]) == {} {
      assert all[i] in own;
    }
    hide UniqueKeys;
    hide Linked;
    var after := AllLinked(all, server, realms);
    assert after == linked + own;
    assert forall i | 0 <= i < |t| :: all[i] == t[i] && after[i] == linked[i];
    assert forall i, j | 0 <= i < j < |all| && Clash(after[i], after[j]) :: j < |t|;
    SameClashes(t, all, linked, after);
  }

  lemma SameClashes(t: seq<Row>, all: seq<Row>, linked: seq<Row>, after: seq<Row>)
    requires |t| == |linked| <= |all| == |after|
    requires forall i | 0 <= i < |t| :: all[i] == t[i] && after[i] == linked[i]
    requires forall i, j | 0 <= i < j < |all| && Clash(after[i], after[j]) :: j < |t|
    ensures NoNewClash(all, after) <==> NoNewClash(t, linked)
  {
    hide Clash;
    if NoNewClash(all, after) {
      forall i, j | 0 <= i < j < |t| && Clash(linked[i], linked[j]) ensures Clash(t[i], t[j]) {
        assert Clash(after[i], after[j]);
      }
    }
    if NoNewClash(t, linked) {
      forall i, j | 0 <= i < j < |all| && Clash(after[i], after[j]) ensures Clash(all[i], all[j]) {
        assert Clash(linked[i], linked[j]);
      }
    }
  }

  class Bouncer {
    var db: Database
    var versions: map<int, Version>
    const registry: RealmRegistry

    ghost function State(): Store
      reads this, registry
    {
      Store(db, registry.State(), versions)
    }

    constructor ()
      ensures fresh(registry) && State() == Store(PerTable([], [], []), Registry([], [], map[]), map[])
    {
      db := PerTable([], [], []);
      versions := map[];
      registry := new RealmRegistry();
    }

    /** remote_server_check_analytics. */
    method CheckAnalytics(server: int) returns (lastIds: PerTable<int>)
      ensures forall k :: lastIds.Get(k) == LastId(db.Get(k), server)
    {
      lastIds := PerTable(LastId(db.realmCounts, server), LastId(db.installationCounts, server),
                          LastId(db.auditLog, server));
    }

    /** Saves the rows of one list, as remote_server_post_analytics does for each table. */
    method Save(k: Table, server: int, realms: map<int, Uuid>, rows: seq<Incoming>)
      modifies this`db
      ensures db == old(db).Set(k, InsertIgnoringConflicts(old(db).Get(k), RowObjects(server, realms, rows)))
    {
      hide InsertIgnoringConflicts;
      hide Resolve;
      hide Skipped;
      var objects: seq<Row>, i := [], 0;
      while i < |rows|
        invariant 0 <= i <= |rows| && objects == RowObjects(server, realms, rows[..i]) && db == old(db)
      {
        assert rows[..i + 1][..i] == rows[..i];
        if !Skipped(rows[i].content) {
          objects := objects + [Resolve(server, realms, rows[i])];
        }
        i := i + 1;
      }
      assert rows[..|rows|] == rows;
      var after, dropped := BatchCreateTableData(db.Get(k), objects);
      db := db.Set(k, after);
    }

    /** The reconciliation of the reported realms, and the audit log rows it creates. */
    method ReconcileRealms(server: int, request: Request, now: Time) returns (ok: bool)
      modifies this`db, registry
      ensures (ok, registry.State()) == Reconciled(old(registry.State()), server, request)
      ensures db == if ok then old(db).(auditLog := old(db).auditLog + OwnRows(old(State()), server, request, AuditLog, now))
                    else old(db)
    {
      hide AllSyncEntries;
      hide AllDeleteEntries;
      hide NewRealms;
      hide DistinctUuids;
      if request.realms.None? {
        assert db.auditLog + [] == db.auditLog;
        return true;
      }
      var n := |registry.audit|;
      ok := registry.UpdateRemoteRealmData(server, request.Reports());
      if ok {
        assert registry.audit[n..] == NewEntries(old(registry.State()), server, request);
        db := db.(auditLog := db.auditLog + EntryRows(server, request.Infos(), registry.audit[n..], now));
      }
    }

    /** fix_remote_realm_foreign_keys, with two UPDATEs a realm; false for an IntegrityError. */
    method FixForeignKeys(server: int, realms: map<int, Uuid>) returns (ok: bool)
      modifies this`db
      ensures var counts, log := AllLinked(old(db).realmCounts, server, realms), AllLinked(old(db).auditLog, server, realms);
              && (ok <==> NoNewClash(old(db).realmCounts, counts) && NoNewClash(old(db).auditLog, log))
              && (ok ==> db == old(db).(realmCounts := counts, auditLog := log))
    {
      hide NoNewClash;
      hide Linked;
      NothingLinked(db.realmCounts, server, realms);
      NothingLinked(db.auditLog, server, realms);
      if AllHaveRealm(db.realmCounts, server) && AllHaveRealm(db.auditLog, server) {
        return true;
      }
      var todo := realms.Keys;
      ghost var done: map<int, Uuid> := map[];
      LinkNone(db.realmCounts, server);
      LinkNone(db.auditLog, server);
      while todo != {}
        invariant Remaining(done, todo, realms)
        invariant db == old(db).(realmCounts := AllLinked(old(db).realmCounts, server, done),
                                 auditLog := AllLinked(old(db).auditLog, server, done))
        invariant NoNewClash(old(db).realmCounts, db.realmCounts) && NoNewClash(old(db).auditLog, db.auditLog)
        decreases todo
      {
        var a := OneOf(todo);
        TakeOne(done, todo, realms, a);
        UpdateOne(old(db).realmCounts, server, done, realms, a);
        UpdateOne(old(db).auditLog, server, done, realms, a);
        var counts := AllLinked(db.realmCounts, server, map[a := realms[a]]);
        var log := AllLinked(db.auditLog, server, map[a := realms[a]]);
        if !NoNewClash(db.realmCounts, counts) || !NoNewClash(db.auditLog, log) {
          return false;
        }
        db := db.(realmCounts := counts, auditLog := log);
        todo := todo - {a};
        done := done[a := realms[a]];
      }
      WithinAll(done, realms);
      ok := true;
    }

    /** What a post does about the reported realms; `store` is the bouncer before it. */
    method SyncRealms(server: int, request: Request, updated: bool, now: Time, ghost store: Store) returns (fault: Option<Fault>)
      requires db == store.tables && registry.State() == store.registry && updated == VersionUpdated(store, server, request)
      modifies this`db, registry
      ensures fault == if !Reconciled(store.registry, server, request).0 then Some(RealmsRefused)
                       else if !LinksFit(store, server, request) then Some(LinkConflict)
                       else None
      ensures fault.None? ==> registry.State() == Reconciled(store.registry, server, request).1
      ensures fault.None? ==> forall k: Table :: db.Get(k) == Prepared(store, server, request, k, now)
    {
      hide Reconciled;
      hide NoNewClash;
      hide NewEntries;
      hide RealmIds;
      hide VersionUpdated;
      PreparedCounts(store, server, request, RealmCounts, now);
      PreparedCounts(store, server, request, InstallationCounts, now);
      var ok := ReconcileRealms(server, request, now);
      if !ok {
        return Some(RealmsRefused);
      }
      if request.realms.Some? && updated {
        OwnRowsAreLinked(store.tables.auditLog, OwnRows(store, server, request, AuditLog, now), server, RealmIds(request.Infos()));
        ok := FixForeignKeys(server, RealmIds(request.Infos()));
        if !ok {
          return Some(LinkConflict);
        }
      } else {
        SameTableFits(store.tables.realmCounts);
        SameTableFits(store.tables.auditLog);
      }
      fault := None;
    }

    /** The three validations. */
    method ValidateLists(server: int, request: Request) returns (fault: Option<Fault>)
      ensures fault == ListsFault(db, server, request)
    {
      hide Validate;
      hide LastId;
      fault := ValidateIncomingTableData(db.realmCounts, server, request.rows.realmCounts);
      if fault.Some? {
        return;
      }
      fault := ValidateIncomingTableData(db.installationCounts, server, request.rows.installationCounts);
      if fault.Some? {
        return;
      }
      fault := ValidateIncomingTableData(db.auditLog, server, request.rows.auditLog);
    }

    /** The writes of a request, up to the first error. */
    method Write(server: int, request: Request, now: Time) returns (fault: Option<Fault>)
      modifies this`db, this`versions, registry
      ensures fault == PostFault(old(State()), server, request)
      ensures fault.None? ==> State() == Post(old(State()), server, request, now).1
    {
      hide ListsFault;
      hide LinksFit;
      hide Reconciled;
      hide InsertIgnoringConflicts;
      hide RowObjects;
      hide Prepared;
      hide SomeMalformed;
      ghost var before := State();
      var updated := Shortened(request.version) != LastVersion(versions, server);
      if updated {
        versions := versions[server := Shortened(request.version)];
      }
      fault := ValidateLists(server, request);
      if fault.Some? {
        return;
      }
      fault := SyncRealms(server, request, updated, now, before);
      if fault.Some? {
        return;
      }
      var realms := RealmIds(request.Infos());
      Save(RealmCounts, server, realms, request.rows.realmCounts);
      Save(InstallationCounts, server, realms, request.rows.installationCounts);
      if SomeMalformed(request.rows.auditLog) {
        return Some(MalformedAuditData);
      }
      Save(AuditLog, server, realms, request.rows.auditLog);
    }

    /** remote_server_post_analytics: rolled back when anything raises. */
    method PostAnalytics(server: int, request: Request, now: Time) returns (verdict: Verdict)
      modifies this`db, this`versions, registry
      ensures (verdict, State()) == Post(old(State()), server, request, now)
    {
      hide PostFault;
      hide Stored;
      hide Reconciled;
      var savedTables, savedVersions, savedRealms, savedAudit := db, versions, registry.realms, registry.audit;
      ghost var savedCreated := registry.created;
      var fault := Write(server, request, now);
      if fault.None? {
        return Accepted;
      }
      db, versions, registry.realms, registry.audit := savedTables, savedVersions, savedRealms, savedAudit;
      registry.created := savedCreated;
      verdict := Rejected(fault.value);
    }
  }

  method OneOf<T(==)>(s: set<T>) returns (x: T)
    requires s != {}
    ensures x in s
  {
    x :| x in s;
  }

  lemma SameTableFits(t: seq<Row>)
    ensures NoNewClash(t, t)
  {}

  /** `filter(server=server, remote_realm=None).exists()` is false. */
  predicate AllHaveRealm(t: seq<Row>, server: int) {
    forall r | r in t && r.server == server :: r.remoteRealm.Some?
  }

  lemma NothingLinked(t: seq<Row>, server: int, realms: map<int, Uuid>)
    ensures AllHaveRealm(t, server) ==> AllLinked(t, server, realms) == t
    ensures NoNewClash(t, t)
  {
    if AllHaveRealm(t, server) {
      forall i | 0 <= i < |t| ensures Linked(t[i], server, realms) == t[i] {
        assert t[i] in t;
      }
    }
  }

  /** `done` holds the entries of `realms` that are no longer in `todo`. */
  ghost predicate Remaining<A(!new), B>(done: map<A, B>, todo: set<A>, realms: map<A, B>) {
    Within(done, realms) && todo <= realms.Keys && todo + done.Keys == realms.Keys && todo !! done.Keys
  }

  lemma TakeOne<A(!new), B>(done: map<A, B>, todo: set<A>, realms: map<A, B>, a: A)
    requires Remaining(done, todo, realms) && a in todo
    ensures a in realms && a !in done && Remaining(done[a := realms[a]], todo - {a}, realms)
  {
    assert done[a := realms[a]].Keys == done.Keys + {a};
  }
}
