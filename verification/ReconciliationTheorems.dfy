/** What realm reconciliation guarantees after each call, and its audit log over every run. */
module ReconciliationTheorems {
  import opened Options
  import opened RealmReconciliation

  /* Reports. */

  lemma {:induction false} FindReportFinds(reports: seq<Report>, uuid: Uuid)
    ensures var found := FindReport(reports, uuid);
            if found.Some? then found.value in reports && found.value.uuid == uuid
            else forall x | x in reports :: x.uuid != uuid
    decreases |reports|
  {
    if reports != [] {
      FindReportFinds(reports[..|reports| - 1], uuid);
      assert forall x | x in reports :: x in reports[..|reports| - 1] || x == reports[|reports| - 1];
    }
  }

  lemma {:induction false} FindLastReport(reports: seq<Report>, i: nat)
    requires i < |reports| && forall j | i < j < |reports| :: reports[j].uuid != reports[i].uuid
    ensures FindReport(reports, reports[i].uuid) == Some(reports[i])
    decreases |reports|
  {
    if i < |reports| - 1 {
      FindLastReport(reports[..|reports| - 1], i);
    }
  }

  /* New realms. */

  /** The rows to create are the reports of unregistered uuids. */
  lemma {:induction false} NewRealmsAre(realms: seq<RemoteRealm>, server: int, reports: seq<Report>)
    ensures forall r | r in NewRealms(realms, server, reports) ::
              r.server == server && !r.locallyDeleted && !Registered(realms, server, r.uuid) && Report(r.uuid, r.attributes) in reports
    ensures forall x | x in reports && !Registered(realms, server, x.uuid) ::
              RemoteRealm(server, x.uuid, x.attributes, false) in NewRealms(realms, server, reports)
    decreases |reports|
  {
    hide Registered;
    if reports != [] {
      NewRealmsAre(realms, server, reports[..|reports| - 1]);
      assert forall x | x in reports :: x in reports[..|reports| - 1] || x == reports[|reports| - 1];
      assert forall x | x in reports[..|reports| - 1] :: x in reports;
      assert reports[|reports| - 1] in reports;
    }
  }

  /** When they have distinct uuids, each is what its uuid's last report says. */
  lemma {:induction false} NewRealmIsAsReported(realms: seq<RemoteRealm>, server: int, reports: seq<Report>,
                                                r: RemoteRealm)
    requires DistinctUuids(NewRealms(realms, server, reports)) && r in NewRealms(realms, server, reports)
    ensures FindReport(reports, r.uuid) == Some(Report(r.uuid, r.attributes)) && !r.locallyDeleted
    decreases |reports|
  {
    NewRealmsAre(realms, server, reports);
    hide Registered;
    var all, before, last := NewRealms(realms, server, reports), NewRealms(realms, server, reports[..|reports| - 1]), reports[|reports| - 1];
    assert forall i | 0 <= i < |before| :: all[i] == before[i];
    if last.uuid == r.uuid {
      assert !Registered(realms, server, last.uuid);
      assert all[|all| - 1].uuid == last.uuid;
      var i :| 0 <= i < |all| && all[i] == r;
      assert i == |all| - 1;
    } else {
      assert r in before;
      NewRealmIsAsReported(realms, server, reports[..|reports| - 1], r);
    }
  }

  /* After an accepted call. */

  /** `r` is as the report says, or marked deleted when there is none. */
  predicate AsReported(r: RemoteRealm, server: int, reports: seq<Report>) {
    r.server != server || Updated(r, server, reports) == r
  }

  lemma UpdatedIsStable(r: RemoteRealm, server: int, reports: seq<Report>)
    ensures AsReported(Updated(r, server, reports), server, reports)
  {}

  lemma DisjointParts(a: seq<RemoteRealm>, b: seq<RemoteRealm>)
    requires DistinctUuids(a + b)
    ensures DistinctUuids(b) && forall r, x | r in a && x in b :: r.uuid != x.uuid
  {
    assert forall i | 0 <= i < |b| :: (a + b)[|a| + i] == b[i];
    assert forall i | 0 <= i < |a| :: (a + b)[i] == a[i];
  }

  lemma AcceptedIsAsReported(g: Registry, server: int, reports: seq<Report>)
    requires Reconcile(g, server, reports).0
    ensures forall r | r in Reconcile(g, server, reports).1.realms :: AsReported(r, server, reports)
  {
    hide Updated;
    hide NewRealms;
    hide AllSyncEntries;
    hide AllDeleteEntries;
    hide Creations;
    hide AsReported;
    hide DistinctUuids;
    var added, after := NewRealms(g.realms, server, reports), Reconcile(g, server, reports).1.realms;
    DisjointParts(g.realms, added);
    forall i | 0 <= i < |after| ensures AsReported(after[i], server, reports) {
      if i < |g.realms| {
        UpdatedIsStable(g.realms[i], server, reports);
      } else {
        AddedAsReported(g.realms, server, reports, after[i]);
      }
    }
  }

  lemma AddedAsReported(realms: seq<RemoteRealm>, server: int, reports: seq<Report>, r: RemoteRealm)
    requires DistinctUuids(NewRealms(realms, server, reports)) && r in NewRealms(realms, server, reports)
    ensures AsReported(r, server, reports)
  {
    NewRealmIsAsReported(realms, server, reports, r);
  }

  /** After a call that is accepted, a realm of this server is marked locally deleted exactly when it was
      not reported, every reported realm is registered with the attributes of its last report, other
      servers' realms are as before, and no realm is forgotten, moved or registered twice. */
  lemma RealmsMatchReports(g: Registry, server: int, reports: seq<Report>)
    requires Reconcile(g, server, reports).0
    ensures var g' := Reconcile(g, server, reports).1;
            && (forall r | r in g'.realms && r.server == server :: r.locallyDeleted <==> forall x | x in reports :: x.uuid != r.uuid)
            && (forall r, i | r in g'.realms && r.server == server && 0 <= i < |reports| && reports[i].uuid == r.uuid
                              && (forall j | i < j < |reports| :: reports[j].uuid != r.uuid) :: r.attributes == reports[i].attributes)
            && (forall x | x in reports :: exists r :: r in g'.realms && r.server == server && r.uuid == x.uuid)
            && (forall i, j | 0 <= i < j < |g'.realms| :: g'.realms[i].uuid != g'.realms[j].uuid)
            && |g.realms| <= |g'.realms|
            && (forall i | 0 <= i < |g.realms| :: g'.realms[i].server == g.realms[i].server && g'.realms[i].uuid == g.realms[i].uuid)
            && (forall i | 0 <= i < |g.realms| && g.realms[i].server != server :: g'.realms[i] == g.realms[i])
            && (forall i | |g.realms| <= i < |g'.realms| :: g'.realms[i].server == server)
  {
    var g' := Reconcile(g, server, reports).1;
    AcceptedIsAsReported(g, server, reports);
    NewRealmsAre(g.realms, server, reports);
    forall r | r in g'.realms && r.server == server
      ensures r.locallyDeleted <==> forall x | x in reports :: x.uuid != r.uuid
      ensures forall i | 0 <= i < |reports| && reports[i].uuid == r.uuid && (forall j | i < j < |reports| :: reports[j].uuid != r.uuid) ::
                r.attributes == reports[i].attributes
    {
      AsReportedIs(r, server, reports);
    }
    hide FindReport;
    ReportedAreRegistered(g, server, reports);
    KeepsUuids(g, server, reports);
  }

  lemma AsReportedIs(r: RemoteRealm, server: int, reports: seq<Report>)
    requires AsReported(r, server, reports) && r.server == server
    ensures r.locallyDeleted <==> forall x | x in reports :: x.uuid != r.uuid
    ensures forall i | 0 <= i < |reports| && reports[i].uuid == r.uuid && (forall j | i < j < |reports| :: reports[j].uuid != r.uuid) ::
              r.attributes == reports[i].attributes
  {
    FindReportFinds(reports, r.uuid);
    forall i | 0 <= i < |reports| && reports[i].uuid == r.uuid && (forall j | i < j < |reports| :: reports[j].uuid != r.uuid)
      ensures r.attributes == reports[i].attributes
    {
      FindLastReport(reports, i);
    }
  }

  lemma ReportedAreRegistered(g: Registry, server: int, reports: seq<Report>)
    requires Reconcile(g, server, reports).0
    ensures forall x | x in reports :: Registered(Reconcile(g, server, reports).1.realms, server, x.uuid)
  {
    hide FindReport;
    hide NewRealms;
    var g' := Reconcile(g, server, reports).1;
    NewRealmsAre(g.realms, server, reports);
    forall x | x in reports ensures Registered(g'.realms, server, x.uuid) {
      if Registered(g.realms, server, x.uuid) {
        var i :| 0 <= i < |g.realms| && g.realms[i].server == server && g.realms[i].uuid == x.uuid;
        assert g'.realms[i] in g'.realms;
      } else {
        assert RemoteRealm(server, x.uuid, x.attributes, false) in g'.realms;
      }
    }
  }

  lemma KeepsUuids(g: Registry, server: int, reports: seq<Report>)
    requires Reconcile(g, server, reports).0
    ensures DistinctUuids(Reconcile(g, server, reports).1.realms)
  {
    hide FindReport;
    hide NewRealms;
    var before, after := g.realms + NewRealms(g.realms, server, reports), Reconcile(g, server, reports).1.realms;
    assert forall i | 0 <= i < |after| :: after[i].uuid == before[i].uuid;
  }

  /** A call is refused, and changes nothing, exactly when some uuid it would register is taken by
      another server or reported twice. */
  lemma RefusedIff(g: Registry, server: int, reports: seq<Report>)
    requires DistinctUuids(g.realms)
    ensures !Reconcile(g, server, reports).0 ==> Reconcile(g, server, reports).1 == g
    ensures Reconcile(g, server, reports).0 <==>
              && (forall x, r | x in reports && r in g.realms && r.uuid == x.uuid :: r.server == server)
              && (forall i, j | 0 <= i < j < |reports| && reports[i].uuid == reports[j].uuid ::
                    exists r :: r in g.realms && r.server == server && r.uuid == reports[i].uuid)
  {
    hide AllSyncEntries;
    hide AllDeleteEntries;
    hide Creations;
    hide UpdatedAll;
    DistinctIff(g.realms, server, reports);
  }

  lemma DistinctIff(realms: seq<RemoteRealm>, server: int, reports: seq<Report>)
    requires DistinctUuids(realms)
    ensures DistinctUuids(realms + NewRealms(realms, server, reports)) <==>
              && (forall x, r | x in reports && r in realms && r.uuid == x.uuid :: r.server == server)
              && (forall i, j | 0 <= i < j < |reports| && reports[i].uuid == reports[j].uuid :: Registered(realms, server, reports[i].uuid))
  {
    var added := NewRealms(realms, server, reports);
    NewRealmsAre(realms, server, reports);
    NewUuidsDistinct(realms, server, reports);
    hide NewRealms;
    hide Registered;
    if DistinctUuids(realms + added) {
      forall x, r | x in reports && r in realms && r.uuid == x.uuid ensures r.server == server {
        TakenUuid(realms, added, server, x, r);
      }
      DisjointParts(realms, added);
    }
    if (forall x, r | x in reports && r in realms && r.uuid == x.uuid :: r.server == server) && DistinctUuids(added) {
      forall r, a | r in realms && a in added ensures r.uuid != a.uuid {
        assert Report(a.uuid, a.attributes) in reports;
        IsRegistered(realms, r);
      }
    }
  }

  lemma IsRegistered(realms: seq<RemoteRealm>, r: RemoteRealm)
    requires r in realms
    ensures Registered(realms, r.server, r.uuid)
  {}

  lemma TakenUuid(realms: seq<RemoteRealm>, added: seq<RemoteRealm>, server: int, x: Report, r: RemoteRealm)
    requires DistinctUuids(realms) && DistinctUuids(realms + added) && r in realms && r.uuid == x.uuid
    requires !Registered(realms, server, x.uuid) ==> RemoteRealm(server, x.uuid, x.attributes, false) in added
    ensures r.server == server
  {
    DisjointParts(realms, added);
    var i :| 0 <= i < |realms| && realms[i] == r;
    var j :| 0 <= j < |realms| && realms[j].server == server && realms[j].uuid == x.uuid;
    assert i == j;
  }

  lemma NewUuids(realms: seq<RemoteRealm>, server: int, reports: seq<Report>, uuid: Uuid)
    requires !Registered(realms, server, uuid)
    ensures (exists r :: r in NewRealms(realms, server, reports) && r.uuid == uuid)
       <==> exists i :: 0 <= i < |reports| && reports[i].uuid == uuid
  {
    hide Registered;
    hide NewRealms;
    NewRealmsAre(realms, server, reports);
    if r :| r in NewRealms(realms, server, reports) && r.uuid == uuid {
      assert Report(r.uuid, r.attributes) in reports;
    }
    if i :| 0 <= i < |reports| && reports[i].uuid == uuid {
      assert RemoteRealm(server, reports[i].uuid, reports[i].attributes, false) in NewRealms(realms, server, reports);
    }
  }

  lemma {:induction false} NewUuidsDistinct(realms: seq<RemoteRealm>, server: int, reports: seq<Report>)
    ensures DistinctUuids(NewRealms(realms, server, reports)) <==>
              forall i, j | 0 <= i < j < |reports| && reports[i].uuid == reports[j].uuid :: Registered(realms, server, reports[i].uuid)
    decreases |reports|
  {
    hide Registered;
    if reports != [] {
      var rest, last := reports[..|reports| - 1], reports[|reports| - 1];
      NewUuidsDistinct(realms, server, rest);
      NewRealmsAre(realms, server, rest);
      var all, before := NewRealms(realms, server, reports), NewRealms(realms, server, rest);
      if Registered(realms, server, last.uuid) {
        assert all == before;
      } else {
        assert all == before + [RemoteRealm(server, last.uuid, last.attributes, false)];
        OneMoreUuid(before, all[|all| - 1]);
        NewUuids(realms, server, rest, last.uuid);
      }
    }
  }

  lemma OneMoreUuid(realms: seq<RemoteRealm>, r: RemoteRealm)
    ensures DistinctUuids(realms + [r]) <==> DistinctUuids(realms) && forall x | x in realms :: x.uuid != r.uuid
  {
    var all := realms + [r];
    assert forall i | 0 <= i < |realms| :: all[i] == realms[i];
    assert all[|realms|] == r;
  }

  /* Repeating a call. */

  lemma {:induction false} NothingToSet(uuid: Uuid, attributes: Attributes, attrs: seq<Attr>)
    ensures AttributeEntries(uuid, attributes, attributes, attrs) == []
    decreases |attrs|
  {
    if attrs != [] {
      assert attributes.With(attrs[0], attributes.Get(attrs[0])) == attributes;
      NothingToSet(uuid, attributes, attrs[1..]);
    }
  }

  lemma {:induction false} NothingToLog(realms: seq<RemoteRealm>, server: int, reports: seq<Report>)
    requires forall r | r in realms :: AsReported(r, server, reports)
    ensures AllSyncEntries(realms, server, reports) == [] && AllDeleteEntries(realms, server, reports) == []
    decreases |realms|
  {
    hide FindReport;
    if realms != [] {
      var rest, r := realms[..|realms| - 1], realms[|realms| - 1];
      assert forall x | x in rest :: x in realms;
      NothingToLog(rest, server, reports);
      assert AsReported(r, server, reports);
      NothingToSet(r.uuid, r.attributes, ATTRS);
    }
  }

  lemma {:induction false} NothingToCreate(realms: seq<RemoteRealm>, server: int, reports: seq<Report>)
    requires forall x | x in reports :: Registered(realms, server, x.uuid)
    ensures NewRealms(realms, server, reports) == []
    decreases |reports|
  {
    hide Registered;
    if reports != [] {
      assert forall x | x in reports[..|reports| - 1] :: x in reports;
      NothingToCreate(realms, server, reports[..|reports| - 1]);
    }
  }

  /** Repeating an accepted call writes no row and no audit entry. */
  lemma RepeatingChangesNothing(g: Registry, server: int, reports: seq<Report>)
    requires Reconcile(g, server, reports).0
    ensures var g' := Reconcile(g, server, reports).1;
            Reconcile(g', server, reports) == (true, g')
  {
    var g' := Reconcile(g, server, reports).1;
    AcceptedIsAsReported(g, server, reports);
    ReportedAreRegistered(g, server, reports);
    KeepsUuids(g, server, reports);
    hide Reconcile;
    NothingToLog(g'.realms, server, reports);
    NothingToCreate(g'.realms, server, reports);
    SameRows(g', server, reports);
  }

  lemma SameRows(g: Registry, server: int, reports: seq<Report>)
    requires forall r | r in g.realms :: AsReported(r, server, reports)
    requires NewRealms(g.realms, server, reports) == [] && DistinctUuids(g.realms)
    requires AllSyncEntries(g.realms, server, reports) == [] && AllDeleteEntries(g.realms, server, reports) == []
    ensures Reconcile(g, server, reports) == (true, g)
  {
    hide AllSyncEntries;
    hide AllDeleteEntries;
    hide NewRealms;
    hide FindReport;
    assert forall i | 0 <= i < |g.realms| :: AsReported(g.realms[i], server, reports);
    assert UpdatedAll(g.realms, server, reports) == g.realms;
    assert g.realms + [] == g.realms;
    assert g.created + map[] == g.created;
    assert g.audit + [] + [] == g.audit;
  }

  /* Replaying the audit log. */

  datatype Snapshot = Snapshot(attributes: Attributes, locallyDeleted: bool)

  /** One entry, if it fits the state before it. */
  function ApplyEntry(s: Snapshot, change: Change): Option<Snapshot> {
    match change
    case ValueUpdated(a, oldValue, newValue) =>
      if s.attributes.Get(a) == oldValue && oldValue != newValue then Some(s.(attributes := s.attributes.With(a, newValue))) else None
    case LocallyDeleted => if s.locallyDeleted then None else Some(s.(locallyDeleted := true))
    case Restored => if s.locallyDeleted then Some(s.(locallyDeleted := false)) else None
  }

  /** The entries in order, each fitting the state that the earlier ones leave. */
  function Replay(s: Snapshot, entries: seq<Entry>): Option<Snapshot>
    decreases |entries|
  {
    if entries == [] then Some(s)
    else
      match ApplyEntry(s, entries[0].change)
      case None => None
      case Some(next) => Replay(next, entries[1..])
  }

  /** The entries of one realm. */
  function Of(audit: seq<Entry>, uuid: Uuid): seq<Entry>
    decreases |audit|
  {
    if audit == [] then []
    else Of(audit[..|audit| - 1], uuid) + if audit[|audit| - 1].uuid == uuid then [audit[|audit| - 1]] else []
  }

  lemma {:induction false} OfConcat(a: seq<Entry>, b: seq<Entry>, uuid: Uuid)
    ensures Of(a + b, uuid) == Of(a, uuid) + Of(b, uuid)
    decreases |b|
  {
    if b == [] {
      assert a + b == a;
    } else {
      OfConcat(a, b[..|b| - 1], uuid);
      assert (a + b)[..|a + b| - 1] == a + b[..|b| - 1];
    }
  }

  lemma {:induction false} OfOwn(entries: seq<Entry>, uuid: Uuid, owner: Uuid)
    requires forall e | e in entries :: e.uuid == owner
    ensures Of(entries, uuid) == if uuid == owner then entries else []
    decreases |entries|
  {
    if entries != [] {
      var rest, last := entries[..|entries| - 1], entries[|entries| - 1];
      assert entries == rest + [last];
      OfOwn(rest, uuid, owner);
      assert last.uuid == owner;
    }
  }

  lemma {:induction false} ReplayConcat(s: Snapshot, a: seq<Entry>, b: seq<Entry>, middle: Snapshot)
    requires Replay(s, a) == Some(middle)
    ensures Replay(s, a + b) == Replay(middle, b)
    decreases |a|
  {
    if a == [] {
      assert a + b == b;
    } else {
      ReplayConcat(ApplyEntry(s, a[0].change).value, a[1..], b, middle);
      assert (a + b)[1..] == a[1..] + b;
    }
  }

  lemma {:induction false} AttributeEntriesOwn(uuid: Uuid, current: Attributes, reported: Attributes, attrs: seq<Attr>)
    ensures forall e | e in AttributeEntries(uuid, current, reported, attrs) :: e.uuid == uuid
    decreases |attrs|
  {
    if attrs != [] {
      AttributeEntriesOwn(uuid, current.With(attrs[0], reported.Get(attrs[0])), reported, attrs[1..]);
    }
  }

  /** Replaying what the attribute loop logs does what the loop did. */
  lemma {:induction false} ReplayAttributes(uuid: Uuid, current: Attributes, reported: Attributes, attrs: seq<Attr>,
                                            deleted: bool)
    ensures Replay(Snapshot(current, deleted), AttributeEntries(uuid, current, reported, attrs))
         == Some(Snapshot(Set(current, reported, attrs), deleted))
    decreases |attrs|
  {
    if attrs != [] {
      AttributeStep(uuid, current, reported, attrs);
      var a := attrs[0];
      var next := current.With(a, reported.Get(a));
      ReplayAttributes(uuid, next, reported, attrs[1..], deleted);
      hide AttributeEntries;
      var rest := AttributeEntries(uuid, next, reported, attrs[1..]);
      if current.Get(a) == reported.Get(a) {
        assert next == current;
        assert [] + rest == rest;
      } else {
        var e := Entry(uuid, ValueUpdated(a, current.Get(a), reported.Get(a)));
        assert ([e] + rest)[1..] == rest;
        assert ApplyEntry(Snapshot(current, deleted), e.change) == Some(Snapshot(next, deleted));
      }
    }
  }

  /** The state of a row as replay sees it. */
  function StateOf(r: RemoteRealm): Snapshot {
    Snapshot(r.attributes, r.locallyDeleted)
  }

  /** What a call logs for `r`. */
  function RowEntries(r: RemoteRealm, server: int, reports: seq<Report>): seq<Entry> {
    SyncEntries(r, server, reports) + DeleteEntries(r, server, reports)
  }

  /** Replaying what a call logs for a row turns its state into the updated one. */
  lemma ReplayRow(r: RemoteRealm, server: int, reports: seq<Report>)
    ensures Replay(StateOf(r), RowEntries(r, server, reports)) == Some(StateOf(Updated(r, server, reports)))
  {
    hide FindReport;
    if IsReported(r, server, reports) {
      var reported := FindReport(reports, r.uuid).value.attributes;
      var changes := AttributeEntries(r.uuid, r.attributes, reported, ATTRS);
      ReplayAttributes(r.uuid, r.attributes, reported, ATTRS, r.locallyDeleted);
      SetAll(r.attributes, reported);
      ReplayConcat(StateOf(r), changes, RestoreEntries(r), Snapshot(reported, r.locallyDeleted));
      assert RowEntries(r, server, reports) == changes + RestoreEntries(r);
      assert forall e: Entry :: [e][1..] == [];
    } else {
      assert forall e: Entry :: [e][1..] == [];
    }
  }

  lemma EntriesOwn(r: RemoteRealm, server: int, reports: seq<Report>)
    ensures forall e | e in SyncEntries(r, server, reports) :: e.uuid == r.uuid
    ensures forall e | e in DeleteEntries(r, server, reports) :: e.uuid == r.uuid
  {
    hide FindReport;
    if IsReported(r, server, reports) {
      AttributeEntriesOwn(r.uuid, r.attributes, FindReport(reports, r.uuid).value.attributes, ATTRS);
    }
  }

  lemma OfOneMore(realms: seq<RemoteRealm>, server: int, reports: seq<Report>, uuid: Uuid)
    requires realms != []
    ensures var rest, last := realms[..|realms| - 1], realms[|realms| - 1];
            && Of(AllSyncEntries(realms, server, reports), uuid)
               == Of(AllSyncEntries(rest, server, reports), uuid) + (if last.uuid == uuid then SyncEntries(last, server, reports) else [])
            && Of(AllDeleteEntries(realms, server, reports), uuid)
               == Of(AllDeleteEntries(rest, server, reports), uuid) + (if last.uuid == uuid then DeleteEntries(last, server, reports) else [])
  {
    hide SyncEntries;
    hide DeleteEntries;
    hide Of;
    var rest, last := realms[..|realms| - 1], realms[|realms| - 1];
    EntriesOwn(last, server, reports);
    OfConcat(AllSyncEntries(rest, server, reports), SyncEntries(last, server, reports), uuid);
    OfConcat(AllDeleteEntries(rest, server, reports), DeleteEntries(last, server, reports), uuid);
    OfOwn(SyncEntries(last, server, reports), uuid, last.uuid);
    OfOwn(DeleteEntries(last, server, reports), uuid, last.uuid);
  }

  lemma {:induction false} OfNone(realms: seq<RemoteRealm>, server: int, reports: seq<Report>, uuid: Uuid)
    requires forall r | r in realms :: r.uuid != uuid
    ensures Of(AllSyncEntries(realms, server, reports), uuid) == [] && Of(AllDeleteEntries(realms, server, reports), uuid) == []
    decreases |realms|
  {
    if realms != [] {
      hide Of;
      hide AllSyncEntries;
      hide AllDeleteEntries;
      assert forall r | r in realms[..|realms| - 1] :: r in realms;
      OfOneMore(realms, server, reports, uuid);
      OfNone(realms[..|realms| - 1], server, reports, uuid);
      assert realms[|realms| - 1] in realms;
    }
  }

  /** Of all that a call logs, a realm's entries are those of its row. */
  lemma {:induction false} OfRow(realms: seq<RemoteRealm>, server: int, reports: seq<Report>, i: nat)
    requires DistinctUuids(realms) && i < |realms|
    ensures Of(AllSyncEntries(realms, server, reports), realms[i].uuid) == SyncEntries(realms[i], server, reports)
    ensures Of(AllDeleteEntries(realms, server, reports), realms[i].uuid) == DeleteEntries(realms[i], server, reports)
    decreases |realms|
  {
    hide Of;
    hide AllSyncEntries;
    hide AllDeleteEntries;
    hide SyncEntries;
    hide DeleteEntries;
    var uuid := realms[i].uuid;
    OfOneMore(realms, server, reports, uuid);
    if i == |realms| - 1 {
      OfNone(realms[..i], server, reports, uuid);
    } else {
      OfRow(realms[..|realms| - 1], server, reports, i);
    }
  }

  /* Every run. */

  /** Each realm's entries, replayed from its creation, give its current state. */
  ghost predicate AuditMatches(g: Registry) {
    && DistinctUuids(g.realms)
    && (forall i | 0 <= i < |g.realms| ::
          && g.realms[i].uuid in g.created
          && Replay(Snapshot(g.created[g.realms[i].uuid], false), Of(g.audit, g.realms[i].uuid)) == Some(StateOf(g.realms[i])))
    && OfRows(g.audit, g.realms)
  }

  /** Every entry is about one of the realms. */
  ghost predicate OfRows(entries: seq<Entry>, realms: seq<RemoteRealm>) {
    forall e | e in entries :: exists i :: 0 <= i < |realms| && realms[i].uuid == e.uuid
  }

  lemma {:induction false} NoEntries(audit: seq<Entry>, uuid: Uuid)
    requires forall e | e in audit :: e.uuid != uuid
    ensures Of(audit, uuid) == []
    decreases |audit|
  {
    if audit != [] {
      assert forall e | e in audit[..|audit| - 1] :: e in audit;
      NoEntries(audit[..|audit| - 1], uuid);
      assert audit[|audit| - 1] in audit;
    }
  }

  lemma {:induction false} CreationsOf(realms: seq<RemoteRealm>)
    requires DistinctUuids(realms)
    ensures forall i | 0 <= i < |realms| :: realms[i].uuid in Creations(realms) && Creations(realms)[realms[i].uuid] == realms[i].attributes
    ensures forall u | u in Creations(realms) :: exists i :: 0 <= i < |realms| && realms[i].uuid == u
    decreases |realms|
  {
    if realms != [] {
      var rest := realms[..|realms| - 1];
      CreationsOf(rest);
      assert forall i | 0 <= i < |rest| :: rest[i] == realms[i];
      forall u | u in Creations(realms) ensures exists i :: 0 <= i < |realms| && realms[i].uuid == u {
        if u in Creations(rest) {
          var i :| 0 <= i < |rest| && rest[i].uuid == u;
          assert realms[i].uuid == u;
        } else {
          assert realms[|realms| - 1].uuid == u;
        }
      }
    }
  }

  lemma {:induction false} LoggedAreRows(realms: seq<RemoteRealm>, server: int, reports: seq<Report>)
    ensures OfRows(AllSyncEntries(realms, server, reports) + AllDeleteEntries(realms, server, reports), realms)
    decreases |realms|
  {
    hide SyncEntries;
    hide DeleteEntries;
    if realms != [] {
      var rest, last := realms[..|realms| - 1], realms[|realms| - 1];
      LoggedAreRows(rest, server, reports);
      EntriesOwn(last, server, reports);
      var before := AllSyncEntries(rest, server, reports) + AllDeleteEntries(rest, server, reports);
      forall e | e in AllSyncEntries(realms, server, reports) + AllDeleteEntries(realms, server, reports)
        ensures exists i :: 0 <= i < |realms| && realms[i].uuid == e.uuid
      {
        if e in before {
          var i :| 0 <= i < |rest| && rest[i].uuid == e.uuid;
          assert realms[i].uuid == e.uuid;
        } else {
          assert realms[|realms| - 1].uuid == e.uuid;
        }
      }
    }
  }

  /** A registered realm's entries, old and new, replay to its updated row. */
  lemma OldRowMatches(g: Registry, server: int, reports: seq<Report>, i: nat)
    requires AuditMatches(g) && i < |g.realms|
    ensures var u := g.realms[i].uuid;
            var audit := g.audit + AllSyncEntries(g.realms, server, reports) + AllDeleteEntries(g.realms, server, reports);
            Replay(Snapshot(g.created[u], false), Of(audit, u)) == Some(StateOf(Updated(g.realms[i], server, reports)))
  {
    hide Of;
    hide Replay;
    hide Updated;
    hide SyncEntries;
    hide DeleteEntries;
    hide AllSyncEntries;
    hide AllDeleteEntries;
    var r, u := g.realms[i], g.realms[i].uuid;
    var synced, deleted := AllSyncEntries(g.realms, server, reports), AllDeleteEntries(g.realms, server, reports);
    OfConcat(g.audit + synced, deleted, u);
    OfConcat(g.audit, synced, u);
    OfRow(g.realms, server, reports, i);
    ReplayRow(r, server, reports);
    ReplayConcat(Snapshot(g.created[u], false), Of(g.audit, u), RowEntries(r, server, reports), StateOf(r));
    assert Of(g.audit, u) + SyncEntries(r, server, reports) + DeleteEntries(r, server, reports)
        == Of(g.audit, u) + RowEntries(r, server, reports);
  }

  /** A realm that is created has no entries yet. */
  lemma NewRowMatches(g: Registry, server: int, reports: seq<Report>, r: RemoteRealm)
    requires AuditMatches(g) && DistinctUuids(g.realms + NewRealms(g.realms, server, reports)) && r in NewRealms(g.realms, server, reports)
    ensures Of(g.audit + AllSyncEntries(g.realms, server, reports) + AllDeleteEntries(g.realms, server, reports), r.uuid) == []
  {
    hide NewRealms;
    hide AllSyncEntries;
    hide AllDeleteEntries;
    hide Of;
    hide Replay;
    DisjointParts(g.realms, NewRealms(g.realms, server, reports));
    hide DistinctUuids;
    LoggedAreRows(g.realms, server, reports);
    var logged := AllSyncEntries(g.realms, server, reports) + AllDeleteEntries(g.realms, server, reports);
    assert g.audit + AllSyncEntries(g.realms, server, reports) + AllDeleteEntries(g.realms, server, reports) == g.audit + logged;
    NoEntriesOf(g.audit + logged, g.realms, r.uuid);
  }

  lemma NoEntriesOf(entries: seq<Entry>, realms: seq<RemoteRealm>, uuid: Uuid)
    requires OfRows(entries, realms) && forall r | r in realms :: r.uuid != uuid
    ensures Of(entries, uuid) == []
  {
    hide Of;
    assert forall i | 0 <= i < |realms| :: realms[i] in realms;
    NoEntries(entries, uuid);
  }

  lemma CreatedMatches(g: Registry, server: int, reports: seq<Report>)
    requires AuditMatches(g) && Reconcile(g, server, reports).0
    ensures var g', added := Reconcile(g, server, reports).1, NewRealms(g.realms, server, reports);
            && (forall i | 0 <= i < |g.realms| :: g.realms[i].uuid in g'.created && g'.created[g.realms[i].uuid] == g.created[g.realms[i].uuid])
            && (forall i | 0 <= i < |added| :: added[i].uuid in g'.created && g'.created[added[i].uuid] == added[i].attributes)
  {
    hide NewRealms;
    hide AllSyncEntries;
    hide AllDeleteEntries;
    hide UpdatedAll;
    hide Of;
    hide Replay;
    hide Creations;
    var added := NewRealms(g.realms, server, reports);
    DisjointParts(g.realms, added);
    CreationsOf(added);
    assert forall i | 0 <= i < |g.realms| :: g.realms[i] in g.realms;
    assert forall i | 0 <= i < |added| :: added[i] in added;
  }

  lemma ReconcileKeepsAudit(g: Registry, server: int, reports: seq<Report>)
    requires AuditMatches(g)
    ensures AuditMatches(Reconcile(g, server, reports).1)
  {
    if Reconcile(g, server, reports).0 {
      AcceptedKeepsAudit(g, server, reports);
    }
  }

  lemma AcceptedKeepsAudit(g: Registry, server: int, reports: seq<Report>)
    requires AuditMatches(g) && Reconcile(g, server, reports).0
    ensures AuditMatches(Reconcile(g, server, reports).1)
  {
    hide NewRealms;
    hide AllSyncEntries;
    hide AllDeleteEntries;
    hide Updated;
    hide Of;
    hide Replay;
    hide Creations;
    KeepsUuids(g, server, reports);
    CreatedMatches(g, server, reports);
    LoggedAreRows(g.realms, server, reports);
    NewRealmsAre(g.realms, server, reports);
    var g', added := Reconcile(g, server, reports).1, NewRealms(g.realms, server, reports);
    forall i | 0 <= i < |g'.realms|
      ensures g'.realms[i].uuid in g'.created
      ensures Replay(Snapshot(g'.created[g'.realms[i].uuid], false), Of(g'.audit, g'.realms[i].uuid)) == Some(StateOf(g'.realms[i]))
    {
      if i < |g.realms| {
        OldRowMatches(g, server, reports, i);
        UpdatedKeepsUuid(g.realms[i], server, reports);
      } else {
        NewRowMatches(g, server, reports, added[i - |g.realms|]);
        ReplayNothing(Snapshot(g'.created[g'.realms[i].uuid], false));
      }
    }
    RowsRemain(g, server, reports);
  }

  lemma UpdatedKeepsUuid(r: RemoteRealm, server: int, reports: seq<Report>)
    ensures Updated(r, server, reports).uuid == r.uuid && Updated(r, server, reports).server == r.server
  {}

  lemma ReplayNothing(s: Snapshot)
    ensures Replay(s, []) == Some(s)
  {}

  lemma RowsRemain(g: Registry, server: int, reports: seq<Report>)
    requires OfRows(g.audit, g.realms) && Reconcile(g, server, reports).0
    ensures OfRows(Reconcile(g, server, reports).1.audit, Reconcile(g, server, reports).1.realms)
  {
    hide NewRealms;
    hide AllSyncEntries;
    hide AllDeleteEntries;
    hide Updated;
    hide Creations;
    var g' := Reconcile(g, server, reports).1;
    LoggedAreRows(g.realms, server, reports);
    var logged := AllSyncEntries(g.realms, server, reports) + AllDeleteEntries(g.realms, server, reports);
    assert g'.audit == g.audit + logged;
    forall e | e in g'.audit ensures exists i :: 0 <= i < |g'.realms| && g'.realms[i].uuid == e.uuid {
      var i :| 0 <= i < |g.realms| && g.realms[i].uuid == e.uuid;
      UpdatedKeepsUuid(g.realms[i], server, reports);
      assert g'.realms[i].uuid == e.uuid;
    }
  }

  /** Any sequence of calls by any servers, from an empty registry. */
  function AfterCalls(calls: seq<(int, seq<Report>)>): Registry
    decreases |calls|
  {
    if calls == [] then Registry([], [], map[])
    else
      var last := calls[|calls| - 1];
      Reconcile(AfterCalls(calls[..|calls| - 1]), last.0, last.1).1
  }

  lemma {:induction false} RunsKeepAudit(calls: seq<(int, seq<Report>)>)
    ensures AuditMatches(AfterCalls(calls))
    decreases |calls|
  {
    hide Reconcile;
    hide AuditMatches;
    if calls == [] {
      EmptyMatches();
    } else {
      var last := calls[|calls| - 1];
      RunsKeepAudit(calls[..|calls| - 1]);
      ReconcileKeepsAudit(AfterCalls(calls[..|calls| - 1]), last.0, last.1);
    }
  }

  lemma EmptyMatches()
    ensures AuditMatches(Registry([], [], map[]))
  {}

  /** The deletions (true) and restorations (false) among the entries, in order. */
  function Toggles(entries: seq<Entry>): seq<bool>
    decreases |entries|
  {
    if entries == [] then []
    else (if entries[0].change.ValueUpdated? then [] else [entries[0].change.LocallyDeleted?]) + Toggles(entries[1..])
  }

  lemma {:induction false} TogglesAlternate(s: Snapshot, entries: seq<Entry>)
    requires Replay(s, entries).Some?
    ensures var t := Toggles(entries);
            && (forall i | 0 <= i < |t| :: t[i] == ((i % 2 == 0) != s.locallyDeleted))
            && Replay(s, entries).value.locallyDeleted == ((|t| % 2 == 1) != s.locallyDeleted)
    decreases |entries|
  {
    if entries != [] {
      var next, rest := ApplyEntry(s, entries[0].change).value, entries[1..];
      TogglesAlternate(next, rest);
      var t, later := Toggles(entries), Toggles(rest);
      if entries[0].change.ValueUpdated? {
        assert t == later && next.locallyDeleted == s.locallyDeleted;
      } else {
        assert t == [!s.locallyDeleted] + later && next.locallyDeleted != s.locallyDeleted;
        forall i | 0 < i < |t| ensures t[i] == ((i % 2 == 0) != s.locallyDeleted) {
          assert t[i] == later[i - 1];
        }
      }
    }
  }

  /** After any run, every realm's audit entries, replayed in order from the attributes it was
      created with, each fit the state before them and end in its current row; and its deletions
      and restorations strictly alternate, a deletion coming first. */
  lemma AuditReplaysToState(calls: seq<(int, seq<Report>)>, i: nat)
    requires i < |AfterCalls(calls).realms|
    ensures var g := AfterCalls(calls); var r := g.realms[i];
            && r.uuid in g.created
            && Replay(Snapshot(g.created[r.uuid], false), Of(g.audit, r.uuid)) == Some(StateOf(r))
            && (forall k | 0 <= k < |Toggles(Of(g.audit, r.uuid))| :: Toggles(Of(g.audit, r.uuid))[k] == (k % 2 == 0))
            && r.locallyDeleted == (|Toggles(Of(g.audit, r.uuid))| % 2 == 1)
  {
    hide AfterCalls;
    hide Replay;
    hide Of;
    RunsKeepAudit(calls);
    var g := AfterCalls(calls);
    TogglesAlternate(Snapshot(g.created[g.realms[i].uuid], false), Of(g.audit, g.realms[i].uuid));
  }
}
