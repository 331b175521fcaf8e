/** Which rows an accepted post leaves in the three tables, told from the request and the tables alone. */
module RemoteRows {
  import opened Options
  import opened CountTables
  import opened RemoteTables
  import opened RealmReconciliation
  import opened ReconciliationTheorems
  import opened RemotePost
  import opened RemoteRetries

  /* The RemoteRealm of a row. */

  /** `infos[i]` is the last report of the realm with this id. */
  predicate LastReport(infos: seq<RealmInfo>, id: int, i: int) {
    0 <= i < |infos| && infos[i].id == id && forall j | i < j < |infos| :: infos[j].id != id
  }

  /** A row of this content belongs to `realm`: that of the last report of its realm id, and none when
      it has no realm id or that realm is not reported. */
  ghost predicate BelongsTo(infos: seq<RealmInfo>, c: Content, realm: Option<Uuid>) {
    var id := if c.InstallationCountRow? then None else c.realm;
    match realm
    case Some(uuid) => id.Some? && exists i :: LastReport(infos, id.value, i) && infos[i].report.uuid == uuid
    case None => id.None? || forall i | 0 <= i < |infos| :: infos[i].id != id.value
  }

  lemma {:induction false} RealmIdsAre(infos: seq<RealmInfo>, id: int)
    ensures id in RealmIds(infos) ==> exists i :: LastReport(infos, id, i) && infos[i].report.uuid == RealmIds(infos)[id]
    ensures id !in RealmIds(infos) ==> forall i | 0 <= i < |infos| :: infos[i].id != id
    decreases |infos|
  {
    if infos != [] {
      var rest, last := infos[..|infos| - 1], infos[|infos| - 1];
      RealmIdsAre(rest, id);
      if last.id == id {
        assert LastReport(infos, id, |infos| - 1);
      } else if id in RealmIds(rest) {
        var i :| LastReport(rest, id, i) && rest[i].report.uuid == RealmIds(rest)[id];
        assert LastReport(infos, id, i);
      }
    }
  }

  /** There is one answer. */
  lemma OneRealmOf(infos: seq<RealmInfo>, c: Content, a: Option<Uuid>, b: Option<Uuid>)
    requires BelongsTo(infos, c, a) && BelongsTo(infos, c, b)
    ensures a == b
  {}

  /* The rows that a request sends. */

  /** The bouncer stores a row as it was sent, with its server and RemoteRealm. */
  ghost predicate StoredAs(server: int, infos: seq<RealmInfo>, x: Incoming, r: Row) {
    r.server == server && r.remoteId == x.id && r.content == x.content && BelongsTo(infos, x.content, r.remoteRealm)
  }

  /** Rows of four properties are dropped. */
  predicate Dropped(c: Content) {
    !c.AuditRow?
    && c.property in {"invites_sent::day", "mobile_pushes_sent::day", "active_users_log:is_bot:day", "active_users:is_bot:day"}
  }

  /** A stored row that excludes another one: a count of the same realm of the server, of the same
      RemoteRealm, or of the same server's installation, for the same property, end time and subgroup. */
  ghost predicate Excludes(r: Row, server: int, infos: seq<RealmInfo>, c: Content) {
    || (r.content.RealmCountRow? && c.RealmCountRow? && r.content.property == c.property && r.content.endTime == c.endTime
        && r.content.subgroup == c.subgroup
        && ((r.server == server && c.realm.Some? && r.content.realm == c.realm)
            || (r.remoteRealm.Some? && BelongsTo(infos, c, r.remoteRealm))))
    || (r.content.InstallationCountRow? && c.InstallationCountRow? && r.content.property == c.property
        && r.content.endTime == c.endTime && r.content.subgroup == c.subgroup && r.server == server)
  }

  lemma ResolvedAs(server: int, infos: seq<RealmInfo>, x: Incoming)
    ensures StoredAs(server, infos, x, Resolve(server, RealmIds(infos), x))
  {
    if !x.content.InstallationCountRow? && x.content.realm.Some? {
      RealmIdsAre(infos, x.content.realm.value);
    }
  }

  /** Two rows that cannot both be stored share the sender's id or exclude each other. */
  lemma ClashIs(server: int, infos: seq<RealmInfo>, x: Incoming, r: Row)
    requires Clash(r, Resolve(server, RealmIds(infos), x))
    ensures (r.server == server && r.remoteId.Some? && r.remoteId == x.id) || Excludes(r, server, infos, x.content)
  {
    ResolvedAs(server, infos, x);
    hide BelongsTo;
  }

  /** Older rows of the server have smaller ids. */
  lemma OldIdsAreSmaller(store: Store, server: int, request: Request, now: Time, k: Table, r: Row, x: Incoming)
    requires Post(store, server, request, now).0 == Accepted && x in request.rows.Get(k)
    requires r in Prepared(store, server, request, k, now) && r.server == server && r.remoteId.Some?
    ensures x.id.Some? && r.remoteId != x.id
  {
    hide Reconciled;
    hide Resolve;
    hide Stored;
    hide NewEntries;
    hide SomeMalformed;
    hide Validate;
    ValidatedInOrder(store, server, request, k);
    var t, prepared := store.tables.Get(k), Prepared(store, server, request, k, now);
    OwnRowsHaveNoId(store, server, request, k, now);
    LastIdIsMaximum(t, server);
    hide LastId;
    var i :| 0 <= i < |prepared| && prepared[i] == r;
    assert i < |t| && t[i].server == server && t[i].remoteId == r.remoteId;
    assert t[i] in t;
  }

  lemma SameIdIsSame(rows: seq<Incoming>, last: int, a: Incoming, b: Incoming)
    requires InOrder(rows, last) && a in rows && b in rows && a.id == b.id
    ensures a == b
  {
    hide Allowed;
  }

  lemma SentRowIsStored(store: Store, server: int, request: Request, now: Time, k: Table, x: Incoming)
    requires Post(store, server, request, now).0 == Accepted && x in request.rows.Get(k) && !Skipped(x.content)
    ensures var after := Post(store, server, request, now).1.tables.Get(k);
            exists r :: r in after && (StoredAs(server, request.Infos(), x, r) || Excludes(r, server, request.Infos(), x.content))
  {
    hide PostFault;
    hide Reconciled;
    hide RowObjects;
    hide InsertIgnoringConflicts;
    hide Resolve;
    hide Clash;
    hide Skipped;
    hide StoredAs;
    hide Excludes;
    hide Prepared;
    hide InOrder;
    var infos, rows, prepared := request.Infos(), request.rows.Get(k), Prepared(store, server, request, k, now);
    var objects, after := RowObjects(server, RealmIds(infos), rows), Stored(store, server, request, k, now);
    assert after == Post(store, server, request, now).1.tables.Get(k);
    AcceptedRowsAreCovered(store, server, request, k, now);
    AppendedAreSent(prepared, objects);
    RowObjectsAre(server, RealmIds(infos), rows);
    var y := Resolve(server, RealmIds(infos), x);
    assert y in objects && HasClash(after, y);
    var r :| r in after && Clash(r, y);
    ClashIs(server, infos, x, r);
    if !Excludes(r, server, infos, x.content) {
      if r in prepared {
        OldIdsAreSmaller(store, server, request, now, k, r, x);
      }
      assert r in objects;
      var x' :| x' in rows && !Skipped(x'.content) && r == Resolve(server, RealmIds(infos), x');
      ResolvedAs(server, infos, x');
      assert x'.id == r.remoteId by { SentId(server, RealmIds(infos), x'); }
      ValidatedInOrder(store, server, request, k) by { AcceptedHasNoFault(store, server, request, now); }
      SameIdIsSame(rows, LastId(store.tables.Get(k), server), x', x);
    }
  }

  lemma SentId(server: int, realms: map<int, Uuid>, x: Incoming)
    ensures Resolve(server, realms, x).remoteId == x.id
  {}

  lemma AcceptedHasNoFault(store: Store, server: int, request: Request, now: Time)
    requires Post(store, server, request, now).0 == Accepted
    ensures PostFault(store, server, request).None?
  {
    hide PostFault;
  }

  /** What an accepted list is stored as: nothing else with a remote_id comes in, and every row that is not
      dropped is there, or was left out because a stored row excludes it. Rows of the audit log
      exclude none, so they are all there. */
  lemma SentRowsAreStored(store: Store, server: int, request: Request, now: Time, k: Table)
    requires Post(store, server, request, now).0 == Accepted
    ensures var t, after, rows := store.tables.Get(k), Post(store, server, request, now).1.tables.Get(k), request.rows.Get(k);
            && (forall x | x in rows && !Dropped(x.content) ::
                  exists r :: r in after && (StoredAs(server, request.Infos(), x, r) || Excludes(r, server, request.Infos(), x.content)))
            && (forall i | |t| <= i < |after| && after[i].remoteId.Some? ::
                  exists x :: x in rows && !Dropped(x.content) && StoredAs(server, request.Infos(), x, after[i]))
  {
    hide PostFault;
    hide Reconciled;
    hide RowObjects;
    hide InsertIgnoringConflicts;
    hide Resolve;
    hide Clash;
    hide Skipped;
    hide StoredAs;
    hide Excludes;
    hide NewEntries;
    assert forall c: Content :: Dropped(c) <==> Skipped(c) by { DroppedIsSkipped(); }
    hide Dropped;
    var infos, rows, prepared := request.Infos(), request.rows.Get(k), Prepared(store, server, request, k, now);
    var objects, after := RowObjects(server, RealmIds(infos), rows), Stored(store, server, request, k, now);
    assert after == Post(store, server, request, now).1.tables.Get(k);
    AcceptedRowsAreCovered(store, server, request, k, now);
    AppendedAreSent(prepared, objects);
    RowObjectsAre(server, RealmIds(infos), rows);
    forall x { ResolvedAs(server, infos, x); }
    forall x | x in rows && !Dropped(x.content)
      ensures exists r :: r in after && (StoredAs(server, infos, x, r) || Excludes(r, server, infos, x.content))
    {
      SentRowIsStored(store, server, request, now, k, x);
    }
    forall i | |store.tables.Get(k)| <= i < |after| && after[i].remoteId.Some?
      ensures exists x :: x in rows && !Dropped(x.content) && StoredAs(server, infos, x, after[i])
    {
      OwnRowsHaveNoId(store, server, request, k, now);
      assert after[i] in objects;
    }
  }

  lemma DroppedIsSkipped()
    ensures forall c: Content :: Dropped(c) <==> Skipped(c)
  {}

  /** The inserted rows come after all others. */
  lemma {:induction false} AppendedAreSent(t: seq<Row>, rows: seq<Row>)
    ensures var after := InsertIgnoringConflicts(t, rows);
            t <= after && forall i | |t| <= i < |after| :: after[i] in rows
    decreases |rows|
  {
    hide HasClash;
    if rows != [] {
      var rest := rows[..|rows| - 1];
      AppendedAreSent(t, rest);
      assert forall r | r in rest :: r in rows;
    }
  }

  lemma OwnRowsHaveNoId(store: Store, server: int, request: Request, k: Table, now: Time)
    ensures var t, prepared := store.tables.Get(k), Prepared(store, server, request, k, now);
            |t| <= |prepared| && forall i | |t| <= i < |prepared| :: prepared[i].remoteId.None?
  {
    hide NewEntries;
  }

  /* The rows that were there before. */

  /** The version a server sends is the one the bouncer has; only 128 characters of it are kept. */
  predicate SameVersion(kept: Version, sent: Version) {
    && kept.mergeBase == sent.mergeBase && kept.featureLevel == sent.featureLevel
    && match sent.version
       case None => kept.version == None
       case Some(text) => kept.version == Some(if |text| > 128 then text[..128] else text)
  }

  /** The version that the bouncer has of a server. */
  function KeptVersion(store: Store, server: int): Version {
    if server in store.versions then store.versions[server] else Version(None, None, None)
  }

  lemma VersionIsKept(store: Store, server: int, request: Request, now: Time)
    requires Post(store, server, request, now).0 == Accepted
    ensures SameVersion(KeptVersion(Post(store, server, request, now).1, server), request.version)
    ensures forall other | other != server :: KeptVersion(Post(store, server, request, now).1, other) == KeptVersion(store, other)
  {
    hide PostFault;
    hide Stored;
    hide Reconciled;
  }

  /** A row the server sent before its realm was known to the bouncer, when the request reports it. */
  predicate CanBeLinked(r: Row, server: int, infos: seq<RealmInfo>) {
    r.server == server && r.remoteRealm.None? && !r.content.InstallationCountRow? && r.content.realm.Some?
    && exists i :: 0 <= i < |infos| && infos[i].id == r.content.realm.value
  }

  /** Older rows stay where they are and as they are, but that a post which reports realms, and comes with
      another version than the last one, gives those that can be linked their RemoteRealm. */
  lemma OlderRowsStay(store: Store, server: int, request: Request, now: Time, k: Table, i: nat)
    requires Post(store, server, request, now).0 == Accepted && i < |store.tables.Get(k)|
    ensures i < |Post(store, server, request, now).1.tables.Get(k)|
    ensures var r, r' := store.tables.Get(k)[i], Post(store, server, request, now).1.tables.Get(k)[i];
            if k != InstallationCounts && request.realms.Some? && !SameVersion(KeptVersion(store, server), request.version)
               && CanBeLinked(r, server, request.Infos()) then
              r'.remoteRealm.Some? && r' == r.(remoteRealm := r'.remoteRealm) && BelongsTo(request.Infos(), r.content, r'.remoteRealm)
            else r' == r
  {
    hide PostFault;
    hide Reconciled;
    hide RowObjects;
    hide InsertIgnoringConflicts;
    hide NewEntries;
    hide RealmIds;
    var infos, t, prepared := request.Infos(), store.tables.Get(k), Prepared(store, server, request, k, now);
    AppendedAreSent(prepared, RowObjects(server, RealmIds(infos), request.rows.Get(k)));
    assert Post(store, server, request, now).1.tables.Get(k) == Stored(store, server, request, k, now);
    var r := t[i];
    if !r.content.InstallationCountRow? && r.content.realm.Some? {
      RealmIdsAre(infos, r.content.realm.value);
    }
  }

  /** The bouncer's unique constraints hold after every post if they held before. */
  lemma ConstraintsHold(store: Store, server: int, request: Request, now: Time, k: Table)
    requires UniqueRows(store.tables.Get(k)) && Post(store, server, request, now).0 == Accepted
    ensures UniqueRows(Post(store, server, request, now).1.tables.Get(k))
  {
    hide Reconciled;
    hide RowObjects;
    hide InsertIgnoringConflicts;
    hide NewEntries;
    hide RealmIds;
    hide ListsFault;
    hide Clash;
    var linked, own := LinkedTable(store, server, request, k), OwnRows(store, server, request, k, now);
    InsertCovers(linked + own, RowObjects(server, RealmIds(request.Infos()), request.rows.Get(k)));
    forall r, x | r in own ensures !Clash(x, r) {
      OwnRowClashesNever(store, server, request, k, now, r, x);
    }
  }

  lemma OwnRowClashesNever(store: Store, server: int, request: Request, k: Table, now: Time, r: Row, x: Row)
    requires r in OwnRows(store, server, request, k, now)
    ensures !Clash(x, r)
  {
    hide NewEntries;
  }

  /* The bouncer's own rows. */

  predicate LastNamed(infos: seq<RealmInfo>, uuid: Uuid, i: int) {
    0 <= i < |infos| && infos[i].report.uuid == uuid && forall j | i < j < |infos| :: infos[j].report.uuid != uuid
  }

  lemma {:induction false} IdIs(infos: seq<RealmInfo>, uuid: Uuid, i: int)
    requires LastNamed(infos, uuid, i)
    ensures IdOf(infos, uuid) == Some(infos[i].id)
    decreases |infos|
  {
    if i < |infos| - 1 {
      IdIs(infos[..|infos| - 1], uuid, i);
    }
  }

  /** Each change that a post makes to the server's realms becomes one row of the audit log, in order: of
      the server and the RemoteRealm, without a remote_id, with the type of the change and, unless the
      realm is gone, its id on the server. */
  lemma ChangesAreLogged(store: Store, server: int, request: Request, now: Time, j: nat)
    requires Post(store, server, request, now).0 == Accepted
    requires |store.registry.audit| + j < |Post(store, server, request, now).1.registry.audit|
    ensures var after, t := Post(store, server, request, now).1, store.tables.auditLog;
            var entry, i := after.registry.audit[|store.registry.audit| + j], |t| + j;
            && i < |after.tables.auditLog|
            && var r := after.tables.auditLog[i];
               && r.server == server && r.remoteId == None && r.remoteRealm == Some(entry.uuid) && r.content.AuditRow?
               && r.content.eventTime == now && r.content.extraData == Logged(entry.change)
               && (match entry.change
                   case ValueUpdated(_, _, _) => r.content.eventType == 20001
                   case LocallyDeleted => r.content.eventType == 20003 && r.content.realm == None
                   case Restored => r.content.eventType == 20004)
               && (forall m | LastNamed(request.Infos(), entry.uuid, m) && !entry.change.LocallyDeleted? ::
                     r.content.realm == Some(request.Infos()[m].id))
  {
    hide PostFault;
    hide RowObjects;
    hide InsertIgnoringConflicts;
    hide AllSyncEntries;
    hide AllDeleteEntries;
    hide NewRealms;
    hide DistinctUuids;
    hide Creations;
    hide UpdatedAll;
    hide IdOf;
    hide LinkedTable;
    var after, prepared := Post(store, server, request, now).1, Prepared(store, server, request, AuditLog, now);
    AppendedAreSent(prepared, RowObjects(server, RealmIds(request.Infos()), request.rows.auditLog));
    assert after.tables.auditLog == Stored(store, server, request, AuditLog, now);
    var entry := after.registry.audit[|store.registry.audit| + j];
    assert entry == NewEntries(store.registry, server, request)[j];
    assert prepared[|store.tables.auditLog| + j] == EntryRow(server, request.Infos(), entry, now);
    forall m | LastNamed(request.Infos(), entry.uuid, m) ensures IdOf(request.Infos(), entry.uuid) == Some(request.Infos()[m].id) {
      IdIs(request.Infos(), entry.uuid, m);
    }
  }

  /* Which posts are accepted. */

  /** Exactly the posts are accepted whose lists are in order above the last ids, whose realms, if they are
      reported, belong to no other server and are new only once, for which no unique constraint is in the
      way of linking older rows, and whose audit log data can be parsed. */
  lemma AcceptedIff(store: Store, server: int, request: Request, now: Time)
    requires DistinctUuids(store.registry.realms)
    ensures Post(store, server, request, now).0 == Accepted <==>
              && (forall k: Table :: InOrder(request.rows.Get(k), LastId(store.tables.Get(k), server)))
              && (request.realms.Some? ==>
                    && (forall i, r | 0 <= i < |request.Infos()| && r in store.registry.realms && r.uuid == request.Infos()[i].report.uuid ::
                          r.server == server)
                    && (forall i, j | 0 <= i < j < |request.Infos()| && request.Infos()[i].report.uuid == request.Infos()[j].report.uuid ::
                          exists r :: r in store.registry.realms && r.server == server && r.uuid == request.Infos()[i].report.uuid))
              && LinksFit(store, server, request)
              && (forall x | x in request.rows.auditLog && x.content.AuditRow? :: !x.content.extraData.Malformed?)
  {
    hide LinksFit;
    hide Stored;
    hide LastId;
    hide Reconcile;
    hide InOrder;
    ListsIff(store.tables, server, request);
    hide ListsFault;
    RealmsIff(store.registry, server, request);
    hide Reconciled;
  }

  lemma ListsIff(db: Database, server: int, request: Request)
    ensures ListsFault(db, server, request).None? <==> forall k: Table :: InOrder(request.rows.Get(k), LastId(db.Get(k), server))
  {
    hide InOrder;
    hide LastId;
    forall k: Table { ValidateIffInOrder(request.rows.Get(k), LastId(db.Get(k), server)); }
    assert request.rows.Get(RealmCounts) == request.rows.realmCounts && db.Get(RealmCounts) == db.realmCounts;
    assert request.rows.Get(InstallationCounts) == request.rows.installationCounts && db.Get(InstallationCounts) == db.installationCounts;
    assert request.rows.Get(AuditLog) == request.rows.auditLog && db.Get(AuditLog) == db.auditLog;
    hide Validate;
  }

  lemma RealmsIff(g: Registry, server: int, request: Request)
    requires DistinctUuids(g.realms)
    ensures Reconciled(g, server, request).0 <==>
              (request.realms.Some? ==>
                 && (forall i, r | 0 <= i < |request.Infos()| && r in g.realms && r.uuid == request.Infos()[i].report.uuid :: r.server == server)
                 && (forall i, j | 0 <= i < j < |request.Infos()| && request.Infos()[i].report.uuid == request.Infos()[j].report.uuid ::
                       exists r :: r in g.realms && r.server == server && r.uuid == request.Infos()[i].report.uuid))
  {
    hide Reconcile;
    hide DistinctUuids;
    if request.realms.Some? {
      var reports := request.Reports();
      RefusedIff(g, server, reports);
      assert forall i | 0 <= i < |reports| :: reports[i] == request.Infos()[i].report && reports[i] in reports;
    }
  }
}
