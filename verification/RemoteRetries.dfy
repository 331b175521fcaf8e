/** A request that was accepted once and is sent again later. */
module RemoteRetries {
  import opened Options
  import opened CountTables
  import opened RemoteTables
  import opened RealmReconciliation
  import opened ReconciliationTheorems
  import opened RemotePost

  /* Lists and row objects. */

  lemma {:induction false} NothingNew(t: seq<Row>, rows: seq<Row>)
    requires forall r | r in rows :: HasClash(t, r)
    ensures InsertIgnoringConflicts(t, rows) == t
    decreases |rows|
  {
    hide HasClash;
    if rows != [] {
      assert forall r | r in rows[..|rows| - 1] :: r in rows;
      NothingNew(t, rows[..|rows| - 1]);
    }
  }

  /** Row objects come from rows that are not skipped. */
  lemma {:induction false} RowObjectsAre(server: int, realms: map<int, Uuid>, rows: seq<Incoming>)
    ensures forall r | r in RowObjects(server, realms, rows) ::
              exists x :: x in rows && !Skipped(x.content) && r == Resolve(server, realms, x)
    ensures forall x | x in rows && !Skipped(x.content) :: Resolve(server, realms, x) in RowObjects(server, realms, rows)
    decreases |rows|
  {
    hide Skipped;
    hide Resolve;
    if rows != [] {
      var rest, last := rows[..|rows| - 1], rows[|rows| - 1];
      RowObjectsAre(server, realms, rest);
      forall r | r in RowObjects(server, realms, rows)
        ensures exists x :: x in rows && !Skipped(x.content) && r == Resolve(server, realms, x)
      {
        if r in RowObjects(server, realms, rest) {
          var x :| x in rest && !Skipped(x.content) && r == Resolve(server, realms, x);
          assert x in rows;
        } else {
          assert last in rows;
        }
      }
      forall x | x in rows && !Skipped(x.content)
        ensures Resolve(server, realms, x) in RowObjects(server, realms, rows)
      {
        assert x in rest || x == last;
      }
    }
  }

  /** Inserting brings in nothing that was not asked for. */
  lemma {:induction false} InsertedFrom(t: seq<Row>, rows: seq<Row>)
    ensures forall r | r in InsertIgnoringConflicts(t, rows) :: r in t || r in rows
    decreases |rows|
  {
    hide HasClash;
    if rows != [] {
      InsertedFrom(t, rows[..|rows| - 1]);
      assert forall r | r in rows[..|rows| - 1] :: r in rows;
    }
  }

  lemma ValidatedInOrder(store: Store, server: int, request: Request, k: Table)
    requires PostFault(store, server, request).None?
    ensures InOrder(request.rows.Get(k), LastId(store.tables.Get(k), server))
  {
    hide Reconciled;
    hide LinksFit;
    ValidateIffInOrder(request.rows.Get(k), LastId(store.tables.Get(k), server));
  }

  /** Once accepted, every row object of a request is in the table or conflicts with it. */
  lemma AcceptedRowsAreCovered(store: Store, server: int, request: Request, k: Table, now: Time)
    requires Post(store, server, request, now).0 == Accepted
    ensures forall r | r in RowObjects(server, RealmIds(request.Infos()), request.rows.Get(k)) ::
              HasClash(Post(store, server, request, now).1.tables.Get(k), r)
  {
    hide HasClash;
    hide InsertIgnoringConflicts;
    hide RowObjects;
    hide Prepared;
    hide LinksFit;
    hide Reconciled;
    hide SomeMalformed;
    ValidatedInOrder(store, server, request, k);
    hide PostFault;
    hide LastId;
    var realms := RealmIds(request.Infos());
    var objects := RowObjects(server, realms, request.rows.Get(k));
    InsertCovers(Prepared(store, server, request, k, now), objects);
    RowObjectsAre(server, realms, request.rows.Get(k));
    forall r | r in objects ensures UniqueKeys(r) != {} {
      var x :| x in request.rows.Get(k) && !Skipped(x.content) && r == Resolve(server, realms, x);
      assert IdKey(server, x.id.value) in UniqueKeys(r);
    }
  }

  /* What happens in between. */

  /** Another post, or a row of the bouncer's own that it inserts or updates: an update keeps the
      columns that identify the row. */
  datatype Event = Posted(server: int, request: Request, now: Time) | Own(k: Table, i: nat, row: Row)

  function AfterOwn(t: seq<Row>, i: nat, row: Row): seq<Row> {
    if row.remoteId.Some? then t
    else if i < |t| then
      if t[i].remoteId.None? && UniqueKeys(t[i]) == UniqueKeys(row) then t[i := row] else t
    else if HasClash(t, row) then t
    else t + [row]
  }

  function AfterEvent(store: Store, e: Event): Store {
    match e
    case Posted(server, request, now) => Post(store, server, request, now).1
    case Own(k, i, row) => store.(tables := store.tables.Set(k, AfterOwn(store.tables.Get(k), i, row)))
  }

  function AfterEvents(store: Store, events: seq<Event>): Store
    decreases |events|
  {
    if events == [] then store else AfterEvents(AfterEvent(store, events[0]), events[1..])
  }

  /** What conflicted still does. */
  ghost predicate StillClash(before: seq<Row>, after: seq<Row>) {
    forall r | HasClash(before, r) :: HasClash(after, r)
  }

  /** Realms stay registered, with their server and uuid. */
  ghost predicate StillRegistered(g: Registry, g': Registry) {
    && |g.realms| <= |g'.realms|
    && (forall i | 0 <= i < |g.realms| :: g'.realms[i].server == g.realms[i].server && g'.realms[i].uuid == g.realms[i].uuid)
    && (DistinctUuids(g.realms) ==> DistinctUuids(g'.realms))
  }

  lemma PrefixStillClashes(before: seq<Row>, after: seq<Row>)
    requires before <= after
    ensures StillClash(before, after)
  {
    hide Clash;
    assert forall x | x in before :: x in after;
  }

  lemma OwnStillClashes(t: seq<Row>, i: nat, row: Row)
    ensures StillClash(t, AfterOwn(t, i, row))
  {
    var after := AfterOwn(t, i, row);
    if i < |t| && row.remoteId.None? && t[i].remoteId.None? && UniqueKeys(t[i]) == UniqueKeys(row) {
      hide UniqueKeys;
      forall r | HasClash(t, r) ensures HasClash(after, r) {
        var j :| 0 <= j < |t| && Clash(t[j], r);
        assert after[j] in after && Clash(after[j], r);
      }
    } else {
      PrefixStillClashes(t, after);
    }
  }

  lemma ReconcileStillRegistered(g: Registry, server: int, reports: seq<Report>)
    ensures StillRegistered(g, Reconcile(g, server, reports).1)
  {
    hide NewRealms;
    hide DistinctUuids;
    hide AllSyncEntries;
    hide AllDeleteEntries;
    hide Creations;
    hide FindReport;
    if Reconcile(g, server, reports).0 {
      KeepsUuids(g, server, reports);
    }
  }

  lemma LinkedStillClashes(t: seq<Row>, server: int, realms: map<int, Uuid>)
    ensures StillClash(t, AllLinked(t, server, realms))
  {
    var linked := AllLinked(t, server, realms);
    forall r | HasClash(t, r) ensures HasClash(linked, r) {
      var i :| 0 <= i < |t| && Clash(t[i], r);
      assert UniqueKeys(t[i]) <= UniqueKeys(linked[i]);
      MoreKeysClash(t[i], linked[i], r);
      assert linked[i] in linked;
    }
  }

  lemma MoreKeysClash(a: Row, b: Row, r: Row)
    requires UniqueKeys(a) <= UniqueKeys(b) && Clash(a, r)
    ensures Clash(b, r)
  {
    hide UniqueKeys;
    var k :| k in UniqueKeys(a) * UniqueKeys(r);
    assert k in UniqueKeys(b) * UniqueKeys(r);
  }

  lemma PreparedStillClashes(store: Store, server: int, request: Request, k: Table, now: Time)
    ensures StillClash(store.tables.Get(k), Prepared(store, server, request, k, now))
  {
    hide HasClash;
    hide OwnRows;
    var t, linked := store.tables.Get(k), LinkedTable(store, server, request, k);
    LinkedStillClashes(t, server, RealmIds(request.Infos()));
    PrefixStillClashes(linked, Prepared(store, server, request, k, now));
  }

  lemma PostGrows(store: Store, server: int, request: Request, now: Time, k: Table)
    ensures var after := Post(store, server, request, now).1;
            StillClash(store.tables.Get(k), after.tables.Get(k)) && StillRegistered(store.registry, after.registry)
  {
    hide HasClash;
    hide InsertIgnoringConflicts;
    hide RowObjects;
    hide PostFault;
    hide Prepared;
    hide StillRegistered;
    var prepared := Prepared(store, server, request, k, now);
    PreparedStillClashes(store, server, request, k, now);
    InsertCovers(prepared, RowObjects(server, RealmIds(request.Infos()), request.rows.Get(k)));
    PrefixStillClashes(prepared, Stored(store, server, request, k, now));
    ReconcileStillRegistered(store.registry, server, request.Reports());
    NothingHappened(store.registry);
  }

  lemma NothingHappened(g: Registry)
    ensures StillRegistered(g, g)
  {}

  lemma EventGrows(store: Store, e: Event, k: Table)
    ensures StillClash(store.tables.Get(k), AfterEvent(store, e).tables.Get(k))
    ensures StillRegistered(store.registry, AfterEvent(store, e).registry)
  {
    hide Post;
    hide StillClash;
    hide StillRegistered;
    hide AfterOwn;
    match e
    case Posted(server, request, now) =>
      PostGrows(store, server, request, now, k);
    case Own(k', i, row) =>
      OwnStillClashes(store.tables.Get(k), i, row);
      PrefixStillClashes(store.tables.Get(k), store.tables.Get(k));
      NothingHappened(store.registry);
  }

  lemma {:induction false} EventsGrow(store: Store, events: seq<Event>, k: Table)
    ensures StillClash(store.tables.Get(k), AfterEvents(store, events).tables.Get(k))
    ensures StillRegistered(store.registry, AfterEvents(store, events).registry)
    decreases |events|
  {
    hide AfterEvent;
    hide HasClash;
    hide DistinctUuids;
    if events != [] {
      EventGrows(store, events[0], k);
      EventsGrow(AfterEvent(store, events[0]), events[1..], k);
    }
  }

  /* Which realms a report would change. */

  /** A realm of the server that differs from its report, or is neither reported nor marked. */
  predicate Differs(r: RemoteRealm, server: int, reports: seq<Report>) {
    && r.server == server
    && match FindReport(reports, r.uuid)
       case Some(report) => r.attributes != report.attributes || r.locallyDeleted
       case None => !r.locallyDeleted
  }

  lemma {:induction false} NothingSet(uuid: Uuid, current: Attributes, reported: Attributes, attrs: seq<Attr>)
    requires AttributeEntries(uuid, current, reported, attrs) == []
    ensures Set(current, reported, attrs) == current
    decreases |attrs|
  {
    if attrs != [] {
      AttributeStep(uuid, current, reported, attrs);
      NothingSet(uuid, current, reported, attrs[1..]);
    }
  }

  lemma LogsIffDiffers(r: RemoteRealm, server: int, reports: seq<Report>)
    ensures RowEntries(r, server, reports) != [] <==> Differs(r, server, reports)
  {
    hide FindReport;
    if IsReported(r, server, reports) {
      var reported := FindReport(reports, r.uuid).value.attributes;
      SetAll(r.attributes, reported);
      if AttributeEntries(r.uuid, r.attributes, reported, ATTRS) == [] {
        NothingSet(r.uuid, r.attributes, reported, ATTRS);
      }
      if r.attributes == reported {
        NothingToSet(r.uuid, r.attributes, ATTRS);
      }
    }
  }

  lemma {:induction false} LogsIffSomeDiffers(realms: seq<RemoteRealm>, server: int, reports: seq<Report>)
    ensures AllSyncEntries(realms, server, reports) + AllDeleteEntries(realms, server, reports) != []
       <==> exists r :: r in realms && Differs(r, server, reports)
    decreases |realms|
  {
    hide SyncEntries;
    hide DeleteEntries;
    hide Differs;
    if realms != [] {
      var rest, last := realms[..|realms| - 1], realms[|realms| - 1];
      LogsIffSomeDiffers(rest, server, reports);
      LogsIffDiffers(last, server, reports);
      assert realms == rest + [last];
    }
  }

  /* The theorem. */

  /** The realms of an accepted request are accepted ever after. */
  lemma RealmsStillFit(store: Store, server: int, request: Request, now: Time, later: Store)
    requires Post(store, server, request, now).0 == Accepted
    requires StillRegistered(Post(store, server, request, now).1.registry, later.registry)
    ensures Reconciled(later.registry, server, request).0
  {
    hide InsertIgnoringConflicts;
    hide RowObjects;
    hide OwnRows;
    hide Validate;
    hide LastId;
    hide Reconcile;
    if request.realms.Some? {
      var reports, g' := request.Reports(), Reconcile(store.registry, server, request.Reports()).1;
      KeepsUuids(store.registry, server, reports);
      ReportedAreRegistered(store.registry, server, reports);
      AllRegistered(g'.realms, later.registry.realms, server, reports);
      AllRegisteredFit(later.registry, server, reports);
    }
  }

  lemma {:induction false} ListFault(rows: seq<Incoming>, last: int)
    ensures Validate(rows, last) != Some(RealmsRefused)
    decreases |rows|
  {
    hide Allowed;
    if rows != [] && RowFault(rows[0], last).None? {
      ListFault(rows[1..], rows[0].id.value);
    }
  }

  lemma AllRegistered(realms: seq<RemoteRealm>, realms': seq<RemoteRealm>, server: int, reports: seq<Report>)
    requires |realms| <= |realms'|
    requires forall i | 0 <= i < |realms| :: realms'[i].server == realms[i].server && realms'[i].uuid == realms[i].uuid
    requires forall x | x in reports :: Registered(realms, server, x.uuid)
    ensures forall x | x in reports :: Registered(realms', server, x.uuid)
  {
    forall x | x in reports ensures Registered(realms', server, x.uuid) {
      var i :| 0 <= i < |realms| && realms[i].server == server && realms[i].uuid == x.uuid;
      assert realms'[i] in realms';
    }
  }

  lemma AllRegisteredFit(g: Registry, server: int, reports: seq<Report>)
    requires DistinctUuids(g.realms) && forall x | x in reports :: Registered(g.realms, server, x.uuid)
    ensures Reconcile(g, server, reports).0
  {
    NothingToCreate(g.realms, server, reports);
    assert g.realms + [] == g.realms;
    hide AllSyncEntries;
    hide AllDeleteEntries;
    hide UpdatedAll;
    hide Registered;
  }

  /** No row comes that has a remote_id, and every row stays, up to a RemoteRealm it lacked. */
  ghost predicate NothingSentIsStored(before: seq<Row>, after: seq<Row>) {
    && |before| <= |after| && (forall i | |before| <= i < |after| :: after[i].remoteId.None?)
    && (forall i | 0 <= i < |before| ::
          after[i] == before[i] || (before[i].remoteRealm.None? && after[i] == before[i].(remoteRealm := after[i].remoteRealm)))
  }

  lemma PreparingStoresNothing(store: Store, server: int, request: Request, k: Table, now: Time)
    ensures NothingSentIsStored(store.tables.Get(k), Prepared(store, server, request, k, now))
  {
    hide NewEntries;
    var t, own, after := store.tables.Get(k), OwnRows(store, server, request, k, now), Prepared(store, server, request, k, now);
    assert forall i | |t| <= i < |after| :: after[i] == own[i - |t|];
  }

  /** A request that was accepted once and comes again after any other posts and any rows of the
      bouncer's own stores nothing of what it sends. It is rejected, or reconciles its realms and, if
      the server's version changed, links older rows to them. Its realms are never refused. */
  lemma RetryStoresNothing(store: Store, server: int, request: Request, now: Time, between: seq<Event>, again: Time)
    requires Post(store, server, request, now).0 == Accepted
    ensures var later := AfterEvents(Post(store, server, request, now).1, between);
            var (verdict, after) := Post(later, server, request, again);
            && (forall k: Table ::
                  after.tables.Get(k)
                  == if verdict == Accepted then Prepared(later, server, request, k, again) else later.tables.Get(k))
            && (forall k: Table :: NothingSentIsStored(later.tables.Get(k), after.tables.Get(k)))
            && verdict != Rejected(RealmsRefused)
  {
    hide InsertIgnoringConflicts;
    hide RowObjects;
    hide AfterEvents;
    hide Prepared;
    hide Reconcile;
    hide Validate;
    hide LastId;
    hide LinksFit;
    hide SomeMalformed;
    hide StillClash;
    hide NothingSentIsStored;
    hide Stored;
    var first := Post(store, server, request, now).1;
    var later := AfterEvents(first, between);
    EventsGrow(first, between, AuditLog);
    RealmsStillFit(store, server, request, now, later);
    ListsRefuseNoRealms(later.tables, server, request);
    hide ListsFault;
    forall k: Table
      ensures Stored(later, server, request, k, again) == Prepared(later, server, request, k, again)
      ensures NothingSentIsStored(later.tables.Get(k), Prepared(later, server, request, k, again))
      ensures NothingSentIsStored(later.tables.Get(k), later.tables.Get(k))
    {
      NothingStored(store, server, request, now, between, k, again);
      PreparingStoresNothing(later, server, request, k, again);
      NothingChanged(later.tables.Get(k));
    }
  }

  lemma NothingChanged(t: seq<Row>)
    ensures NothingSentIsStored(t, t)
  {}

  lemma ListsRefuseNoRealms(db: Database, server: int, request: Request)
    ensures ListsFault(db, server, request) != Some(RealmsRefused)
  {
    hide Validate;
    ListFault(request.rows.realmCounts, LastId(db.realmCounts, server));
    ListFault(request.rows.installationCounts, LastId(db.installationCounts, server));
    ListFault(request.rows.auditLog, LastId(db.auditLog, server));
  }

  lemma NothingStored(store: Store, server: int, request: Request, now: Time, between: seq<Event>, k: Table, again: Time)
    requires Post(store, server, request, now).0 == Accepted
    ensures var later := AfterEvents(Post(store, server, request, now).1, between);
            Stored(later, server, request, k, again) == Prepared(later, server, request, k, again)
  {
    hide HasClash;
    hide InsertIgnoringConflicts;
    hide RowObjects;
    hide AfterEvents;
    hide Prepared;
    hide PostFault;
    hide Reconciled;
    var first := Post(store, server, request, now).1;
    var later := AfterEvents(first, between);
    AcceptedRowsAreCovered(store, server, request, k, now);
    EventsGrow(first, between, k);
    PreparedStillClashes(later, server, request, k, again);
    NothingNew(Prepared(later, server, request, k, again), RowObjects(server, RealmIds(request.Infos()), request.rows.Get(k)));
  }

  /** Some row of the server still lacks a RemoteRealm that the post would give it. */
  ghost predicate SomeToLink(store: Store, server: int, request: Request, k: Table) {
    Links(store, server, request, k) && exists r :: r in store.tables.Get(k) && Unlinked(r, server, RealmIds(request.Infos()))
  }

  lemma LinkedIff(store: Store, server: int, request: Request, k: Table)
    ensures LinkedTable(store, server, request, k) != store.tables.Get(k) <==> SomeToLink(store, server, request, k)
  {
    hide Links;
    hide RealmIds;
    var t, realms, linked := store.tables.Get(k), RealmIds(request.Infos()), LinkedTable(store, server, request, k);
    if r :| Links(store, server, request, k) && r in t && Unlinked(r, server, realms) {
      var i :| 0 <= i < |t| && t[i] == r;
      assert linked[i] == Linked(r, server, realms) != t[i];
    }
    if !SomeToLink(store, server, request, k) && Links(store, server, request, k) {
      forall i | 0 <= i < |t| ensures linked[i] == t[i] {
        assert t[i] in t;
      }
    }
  }

  lemma PreparedIff(store: Store, server: int, request: Request, k: Table, now: Time)
    ensures Prepared(store, server, request, k, now) != store.tables.Get(k)
       <==> SomeToLink(store, server, request, k) || (k == AuditLog && NewEntries(store.registry, server, request) != [])
  {
    hide NewEntries;
    hide SomeToLink;
    LinkedIff(store, server, request, k);
    hide LinkedTable;
    var t, linked, own := store.tables.Get(k), LinkedTable(store, server, request, k), OwnRows(store, server, request, k, now);
    if own == [] {
      assert linked + own == linked;
    } else {
      assert |linked + own| > |t|;
    }
  }

  /** Lists that were accepted once are honest. */
  lemma AcceptedListIsHonest(store: Store, server: int, request: Request, now: Time, k: Table)
    requires Post(store, server, request, now).0 == Accepted
    ensures Honest(request.rows.Get(k)) && !SomeMalformed(request.rows.auditLog)
  {
    hide Validate;
    hide Allowed;
    hide LastId;
    hide Reconciled;
    hide LinksFit;
    hide Stored;
    ValidatedInOrder(store, server, request, k);
  }

  /** Exactly when a retry is accepted, read off the tables that it meets: when each of its lists starts
      above the last id stored by then, and no unique constraint is in the way of linking older rows. */
  lemma RetryAcceptedIff(store: Store, server: int, request: Request, now: Time, between: seq<Event>, again: Time)
    requires Post(store, server, request, now).0 == Accepted
    ensures var later := AfterEvents(Post(store, server, request, now).1, between);
            Post(later, server, request, again).0 == Accepted
            <==> (forall k: Table :: StartsAbove(request.rows.Get(k), LastId(later.tables.Get(k), server)))
                 && LinksFit(later, server, request)
  {
    hide Honest;
    hide StartsAbove;
    hide LastId;
    hide AfterEvents;
    hide Reconciled;
    hide LinksFit;
    hide Stored;
    hide SomeMalformed;
    hide StillClash;
    hide ListsFault;
    var first := Post(store, server, request, now).1;
    var later := AfterEvents(first, between);
    EventsGrow(first, between, AuditLog);
    RealmsStillFit(store, server, request, now, later);
    forall k: Table { AcceptedListIsHonest(store, server, request, now, k); }
    if LinksFit(later, server, request) {
      AcceptedListIsHonest(store, server, request, now, AuditLog);
      AcceptedIffFresh(later, server, request, again);
    }
  }

  /** Exactly when a retry changes a table at all: when its lists start above the last ids stored by then
      and older rows can be linked, so that it is accepted; when it reports realms; and when some realm of
      the server has come to differ from its report, or the server's version has changed and some older
      row still lacks its RemoteRealm. */
  lemma RetryChangesIff(store: Store, server: int, request: Request, now: Time, between: seq<Event>, again: Time)
    requires Post(store, server, request, now).0 == Accepted
    ensures var later := AfterEvents(Post(store, server, request, now).1, between);
            Post(later, server, request, again).1.tables != later.tables
            <==> (forall k: Table :: StartsAbove(request.rows.Get(k), LastId(later.tables.Get(k), server)))
                 && LinksFit(later, server, request) && request.realms.Some?
                 && ((exists r :: r in later.registry.realms && Differs(r, server, request.Reports()))
                     || (exists k: Table :: SomeToLink(later, server, request, k)))
  {
    hide AfterEvents;
    hide Post;
    hide AllSyncEntries;
    hide AllDeleteEntries;
    hide Differs;
    hide Prepared;
    hide NothingSentIsStored;
    hide StartsAbove;
    hide LastId;
    hide LinksFit;
    var later := AfterEvents(Post(store, server, request, now).1, between);
    var (verdict, after) := Post(later, server, request, again);
    RetryAcceptedIff(store, server, request, now, between, again);
    RetryStoresNothing(store, server, request, now, between, again);
    LogsIffSomeDiffers(later.registry.realms, server, request.Reports());
    SameTables(after.tables, later.tables);
    forall k: Table { PreparedIff(later, server, request, k, again); }
    var log := Prepared(later, server, request, AuditLog, again);
    assert verdict == Accepted ==> after.tables.Get(AuditLog) == log;
  }

  lemma SameTables(a: Database, b: Database)
    ensures a == b <==> forall k: Table :: a.Get(k) == b.Get(k)
  {
    assert a.Get(RealmCounts) == a.realmCounts && a.Get(InstallationCounts) == a.installationCounts && a.Get(AuditLog) == a.auditLog;
    assert b.Get(RealmCounts) == b.realmCounts && b.Get(InstallationCounts) == b.installationCounts && b.Get(AuditLog) == b.auditLog;
  }

  /* A retry that does change a table. */

  /** A request without rows that reports one realm, at the given host. */
  function HostReport(host: string): Request {
    Request(PerTable([], [], []), Some([RealmInfo(1, Report(10, Attributes(host, 0, "", map[], false, false)))]), NO_VERSION)
  }

  /** Without rows only the realms decide. */
  lemma OnlyRealmsDecide(store: Store, server: int, request: Request, now: Time)
    requires request.rows == PerTable([], [], []) && request.version == NO_VERSION && store.versions == map[]
    ensures Post(store, server, request, now).1.versions == map[]
    ensures Post(store, server, request, now).0 == Accepted <==> Reconciled(store.registry, server, request).0
    ensures Post(store, server, request, now).0 == Accepted ==>
              Post(store, server, request, now).1.registry == Reconciled(store.registry, server, request).1
  {
    hide Reconciled;
    hide LastId;
    hide Stored;
    SameTableFits(store.tables.realmCounts);
    SameTableFits(store.tables.auditLog);
    hide NoNewClash;
  }

  lemma OneRealm(g: Registry, realm: RemoteRealm, request: Request)
    requires request.Reports() == [Report(realm.uuid, realm.attributes)] && request.realms.Some? && !realm.locallyDeleted
    requires g.realms == [] || (exists r :: g.realms == [r] && r.uuid == realm.uuid && r.server == realm.server)
    ensures var (ok, g') := Reconciled(g, realm.server, request); ok && g'.realms == [realm]
  {
    hide AllSyncEntries;
    hide AllDeleteEntries;
    var reports := request.Reports();
    assert reports[..0] == [] && NewRealms(g.realms, realm.server, reports[..0]) == [];
    if g.realms == [] {
      assert NewRealms(g.realms, realm.server, reports) == [realm];
    } else {
      assert g.realms[0] in g.realms;
      assert NewRealms(g.realms, realm.server, reports) == [];
      assert Updated(g.realms[0], realm.server, reports) == realm;
    }
  }

  function RealmAt(host: string): RemoteRealm {
    RemoteRealm(1, 10, Attributes(host, 0, "", map[], false, false), false)
  }

  lemma HostReported(store: Store, host: string, now: Time)
    requires store.registry.realms == [] || exists former :: store.registry.realms == [RealmAt(former)]
    requires store.versions == map[]
    ensures var (verdict, after) := Post(store, 1, HostReport(host), now);
            verdict == Accepted && after.registry.realms == [RealmAt(host)] && after.versions == map[]
  {
    OnlyRealmsDecide(store, 1, HostReport(host), now);
    OneRealm(store.registry, RealmAt(host), HostReport(host));
  }

  /** Host a, then host b, then the first request again: accepted, and it logs the change back. */
  lemma OldReportIsLogged()
    ensures var empty := Store(PerTable([], [], []), Registry([], [], map[]), map[]);
            var first := Post(empty, 1, HostReport("a"), 0);
            var second := Post(first.1, 1, HostReport("b"), 1);
            var third := Post(second.1, 1, HostReport("a"), 2);
            && first.0 == Accepted && second.0 == Accepted && third.0 == Accepted
            && third.1.tables != second.1.tables
  {
    hide Post;
    var empty := Store(PerTable([], [], []), Registry([], [], map[]), map[]);
    var a, b := HostReport("a"), HostReport("b");
    var first := Post(empty, 1, a, 0);
    var second := Post(first.1, 1, b, 1);
    HostReported(empty, "a", 0);
    HostReported(first.1, "b", 1);
    HostReported(second.1, "a", 2);
    var between := [Posted(1, b, 1)];
    assert between[1..] == [];
    assert AfterEvents(first.1, between) == AfterEvents(second.1, []) == second.1;
    RetryAcceptedIff(empty, 1, a, 0, between, 2);
    RetryChangesIff(empty, 1, a, 0, between, 2);
    assert Differs(RealmAt("b"), 1, a.Reports()) by {
      assert "b"[0] != "a"[0];
      assert a.Reports() == [RealmInfo(1, Report(10, RealmAt("a").attributes)).report];
    }
    assert RealmAt("b") in second.1.registry.realms;
  }
}
