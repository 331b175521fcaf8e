/** update_remote_realm_data_for_server (zilencer/views.py): the bouncer's RemoteRealm rows are
    brought in line with the realms a server reports, with an audit entry for every change. */
module RealmReconciliation {
  import opened Options

  type Uuid = int

  /** The attributes that are synced, in the order of the source's list. */
  datatype Attr = Host | OrgType | Name | AuthenticationMethods | RealmDeactivated | IsSystemBotRealm

  const ATTRS: seq<Attr> := [Host, OrgType, Name, AuthenticationMethods, RealmDeactivated, IsSystemBotRealm]

  datatype Value = Text(text: string) | Number(number: int) | Methods(methods: map<string, bool>) | Flag(flag: bool)

  datatype Attributes = Attributes(
    host: string, orgType: int, name: string, authenticationMethods: map<string, bool>, deactivated: bool, isSystemBotRealm: bool)
  {
    /** getattr. */
    function Get(a: Attr): Value {
      match a
      case Host => Text(host)
      case OrgType => Number(orgType)
      case Name => Text(name)
      case AuthenticationMethods => Methods(authenticationMethods)
      case RealmDeactivated => Flag(deactivated)
      case IsSystemBotRealm => Flag(isSystemBotRealm)
    }

    /** setattr. */
    function With(a: Attr, v: Value): Attributes {
      match (a, v)
      case (Host, Text(t)) => this.(host := t)
      case (OrgType, Number(n)) => this.(orgType := n)
      case (Name, Text(t)) => this.(name := t)
      case (AuthenticationMethods, Methods(m)) => this.(authenticationMethods := m)
      case (RealmDeactivated, Flag(b)) => this.(deactivated := b)
      case (IsSystemBotRealm, Flag(b)) => this.(isSystemBotRealm := b)
      case _ => this
    }
  }

  datatype RemoteRealm = RemoteRealm(server: int, uuid: Uuid, attributes: Attributes, locallyDeleted: bool)

  /** RealmDataForAnalytics. */
  datatype Report = Report(uuid: Uuid, attributes: Attributes)

  datatype Change = ValueUpdated(attr: Attr, oldValue: Value, newValue: Value) | LocallyDeleted | Restored

  /** A RemoteRealmAuditLog entry of this function. */
  datatype Entry = Entry(uuid: Uuid, change: Change)

  /** The two tables; `created` is a history variable, the attributes each realm was created with. */
  datatype Registry = Registry(realms: seq<RemoteRealm>, audit: seq<Entry>, created: map<Uuid, Attributes>)

  /* What one call does. */

  /** uuid_to_realm_dict: of several reports of one uuid the last counts. */
  function FindReport(reports: seq<Report>, uuid: Uuid): Option<Report>
    decreases |reports|
  {
    if reports == [] then None
    else if reports[|reports| - 1].uuid == uuid then Some(reports[|reports| - 1])
    else FindReport(reports[..|reports| - 1], uuid)
  }

  predicate Registered(realms: seq<RemoteRealm>, server: int, uuid: Uuid) {
    exists r | r in realms :: r.server == server && r.uuid == uuid
  }

  /** The reports whose uuids this server has not registered yet, as rows. */
  function NewRealms(realms: seq<RemoteRealm>, server: int, reports: seq<Report>): seq<RemoteRealm>
    decreases |reports|
  {
    if reports == [] then []
    else
      var last := reports[|reports| - 1];
      NewRealms(realms, server, reports[..|reports| - 1])
      + if Registered(realms, server, last.uuid) then [] else [RemoteRealm(server, last.uuid, last.attributes, false)]
  }

  /** The unique constraint on uuid, over all servers. */
  predicate DistinctUuids(realms: seq<RemoteRealm>) {
    forall i, j | 0 <= i < j < |realms| :: realms[i].uuid != realms[j].uuid
  }

  /** The attribute loop: compares and sets one attribute after the other. */
  function AttributeEntries(uuid: Uuid, current: Attributes, reported: Attributes, attrs: seq<Attr>): seq<Entry>
    decreases |attrs|
  {
    if attrs == [] then []
    else
      var a := attrs[0];
      (if current.Get(a) == reported.Get(a) then []
       else [Entry(uuid, ValueUpdated(a, current.Get(a), reported.Get(a)))])
      + AttributeEntries(uuid, current.With(a, reported.Get(a)), reported, attrs[1..])
  }

  function RestoreEntries(r: RemoteRealm): seq<Entry> {
    if r.locallyDeleted then [Entry(r.uuid, Restored)] else []
  }

  /** Does the first loop handle `r`, and what does it log? */
  predicate IsReported(r: RemoteRealm, server: int, reports: seq<Report>) {
    r.server == server && FindReport(reports, r.uuid).Some?
  }

  function SyncEntries(r: RemoteRealm, server: int, reports: seq<Report>): seq<Entry> {
    if IsReported(r, server, reports) then
      AttributeEntries(r.uuid, r.attributes, FindReport(reports, r.uuid).value.attributes, ATTRS) + RestoreEntries(r)
    else []
  }

  /** Does the second loop handle `r`, and what does it log? */
  predicate IsMissing(r: RemoteRealm, server: int, reports: seq<Report>) {
    r.server == server && FindReport(reports, r.uuid).None?
  }

  function DeleteEntries(r: RemoteRealm, server: int, reports: seq<Report>): seq<Entry> {
    if IsMissing(r, server, reports) && !r.locallyDeleted then [Entry(r.uuid, LocallyDeleted)] else []
  }

  function AllSyncEntries(realms: seq<RemoteRealm>, server: int, reports: seq<Report>): seq<Entry>
    decreases |realms|
  {
    if realms == [] then []
    else AllSyncEntries(realms[..|realms| - 1], server, reports) + SyncEntries(realms[|realms| - 1], server, reports)
  }

  function AllDeleteEntries(realms: seq<RemoteRealm>, server: int, reports: seq<Report>): seq<Entry>
    decreases |realms|
  {
    if realms == [] then []
    else AllDeleteEntries(realms[..|realms| - 1], server, reports) + DeleteEntries(realms[|realms| - 1], server, reports)
  }

  /** The row of a registered realm after a call. */
  function Updated(r: RemoteRealm, server: int, reports: seq<Report>): RemoteRealm {
    if r.server != server then r
    else match FindReport(reports, r.uuid)
         case Some(report) => r.(attributes := report.attributes, locallyDeleted := false)
         case None => r.(locallyDeleted := true)
  }

  function UpdatedAll(realms: seq<RemoteRealm>, server: int, reports: seq<Report>): (after: seq<RemoteRealm>)
    ensures |after| == |realms| && forall i | 0 <= i < |realms| :: after[i] == Updated(realms[i], server, reports)
  {
    seq(|realms|, i requires 0 <= i < |realms| => Updated(realms[i], server, reports))
  }

  function Creations(realms: seq<RemoteRealm>): map<Uuid, Attributes>
    decreases |realms|
  {
    if realms == [] then map[]
    else Creations(realms[..|realms| - 1])[realms[|realms| - 1].uuid := realms[|realms| - 1].attributes]
  }

  /** The call, and whether it is accepted; a refused registration changes nothing. */
  function Reconcile(g: Registry, server: int, reports: seq<Report>): (bool, Registry) {
    var added := NewRealms(g.realms, server, reports);
    if !DistinctUuids(g.realms + added) then (false, g)
    else
      (true,
       Registry(UpdatedAll(g.realms, server, reports) + added,
                g.audit + AllSyncEntries(g.realms, server, reports) + AllDeleteEntries(g.realms, server, reports),
                g.created + Creations(added)))
  }

  /* Setting all six attributes to the reported ones leaves the reported ones. */

  function Set(current: Attributes, reported: Attributes, attrs: seq<Attr>): Attributes
    decreases |attrs|
  {
    if attrs == [] then current else Set(current.With(attrs[0], reported.Get(attrs[0])), reported, attrs[1..])
  }

  lemma SetAll(current: Attributes, reported: Attributes)
    ensures Set(current, reported, ATTRS) == reported
  {
    var c1 := current.With(Host, reported.Get(Host)).With(OrgType, reported.Get(OrgType)).With(Name, reported.Get(Name));
    var c2 := c1.With(AuthenticationMethods, reported.Get(AuthenticationMethods)).With(RealmDeactivated, reported.Get(RealmDeactivated));
    assert ATTRS[1..][1..][1..] == [AuthenticationMethods, RealmDeactivated, IsSystemBotRealm];
    assert Set(current, reported, ATTRS) == Set(c1, reported, ATTRS[1..][1..][1..]);
    assert ATTRS[1..][1..][1..][1..][1..] == [IsSystemBotRealm];
    assert Set(c1, reported, ATTRS[1..][1..][1..]) == Set(c2, reported, ATTRS[1..][1..][1..][1..][1..]);
    assert [IsSystemBotRealm][1..] == [];
  }

  /** One turn of the attribute loop. */
  lemma AttributeStep(uuid: Uuid, current: Attributes, reported: Attributes, attrs: seq<Attr>)
    requires attrs != []
    ensures var a := attrs[0];
            var next := if current.Get(a) == reported.Get(a) then current else current.With(a, reported.Get(a));
            && AttributeEntries(uuid, current, reported, attrs)
               == (if current.Get(a) == reported.Get(a) then []
                   else [Entry(uuid, ValueUpdated(a, current.Get(a), reported.Get(a)))])
                  + AttributeEntries(uuid, next, reported, attrs[1..])
            && Set(current, reported, attrs) == Set(next, reported, attrs[1..])
  {}

  lemma NoAttributes(uuid: Uuid, current: Attributes, reported: Attributes)
    ensures AttributeEntries(uuid, current, reported, []) == [] && Set(current, reported, []) == current
  {}

  class RealmRegistry {
    var realms: seq<RemoteRealm>
    var audit: seq<Entry>
    ghost var created: map<Uuid, Attributes>

    ghost function State(): Registry
      reads this
    {
      Registry(realms, audit, created)
    }

    constructor ()
      ensures State() == Registry([], [], map[])
    {
      realms, audit, created := [], [], map[];
    }

    /** The body of the first loop: sets what differs, restores, and logs each change. */
    method SyncRealm(r: RemoteRealm, report: Report) returns (after: RemoteRealm, entries: seq<Entry>)
      ensures after == r.(attributes := report.attributes, locallyDeleted := false)
      ensures entries == AttributeEntries(r.uuid, r.attributes, report.attributes, ATTRS) + RestoreEntries(r)
    {
      SetAll(r.attributes, report.attributes);
      hide AttributeEntries;
      hide Set;
      after, entries := r, [];
      var k := 0;
      while k < |ATTRS|
        invariant 0 <= k <= |ATTRS| && after == r.(attributes := after.attributes)
        invariant entries + AttributeEntries(r.uuid, after.attributes, report.attributes, ATTRS[k..])
               == AttributeEntries(r.uuid, r.attributes, report.attributes, ATTRS)
        invariant Set(after.attributes, report.attributes, ATTRS[k..]) == Set(r.attributes, report.attributes, ATTRS)
      {
        var a := ATTRS[k];
        AttributeStep(r.uuid, after.attributes, report.attributes, ATTRS[k..]);
        assert ATTRS[k..][1..] == ATTRS[k + 1..];
        var oldValue, newValue := after.attributes.Get(a), report.attributes.Get(a);
        if oldValue != newValue {
          after := after.(attributes := after.attributes.With(a, newValue));
          entries := entries + [Entry(r.uuid, ValueUpdated(a, oldValue, newValue))];
        }
        k := k + 1;
      }
      assert ATTRS[|ATTRS|..] == [];
      NoAttributes(r.uuid, after.attributes, report.attributes);
      if after.locallyDeleted {
        after := after.(locallyDeleted := false);
        entries := entries + [Entry(r.uuid, Restored)];
      }
    }

    /** bulk_create of the realms that are new. */
    method CreateNew(server: int, reports: seq<Report>) returns (ok: bool)
      modifies this`realms, this`created
      ensures ok == DistinctUuids(old(realms) + NewRealms(old(realms), server, reports))
      ensures realms == if ok then old(realms) + NewRealms(old(realms), server, reports) else old(realms)
      ensures created == if ok then old(created) + Creations(NewRealms(old(realms), server, reports)) else old(created)
    {
      var added: seq<RemoteRealm>, i := [], 0;
      while i < |reports|
        invariant 0 <= i <= |reports| && added == NewRealms(old(realms), server, reports[..i])
        invariant realms == old(realms) && created == old(created)
      {
        assert reports[..i + 1][..i] == reports[..i];
        if !Registered(realms, server, reports[i].uuid) {
          added := added + [RemoteRealm(server, reports[i].uuid, reports[i].attributes, false)];
        }
        i := i + 1;
      }
      assert reports[..|reports|] == reports;
      ok := DistinctUuids(realms + added);
      if ok {
        realms, created := realms + added, created + Creations(added);
      }
    }

    /** The first loop, over the realms registered before. */
    method SyncReported(server: int, reports: seq<Report>, n: nat)
      requires n <= |realms|
      modifies this`realms, this`audit
      ensures |realms| == |old(realms)|
      ensures forall i | 0 <= i < |realms| ::
                realms[i] == if i < n && IsReported(old(realms)[i], server, reports) then Updated(old(realms)[i], server, reports)
                             else old(realms)[i]
      ensures audit == old(audit) + AllSyncEntries(old(realms)[..n], server, reports)
    {
      hide AttributeEntries;
      hide RestoreEntries;
      hide FindReport;
      var i := 0;
      while i < n
        invariant 0 <= i <= n && |realms| == |old(realms)|
        invariant forall j | 0 <= j < |realms| ::
                    realms[j] == if j < i && IsReported(old(realms)[j], server, reports) then Updated(old(realms)[j], server, reports)
                                 else old(realms)[j]
        invariant audit == old(audit) + AllSyncEntries(old(realms)[..i], server, reports)
      {
        assert old(realms)[..i + 1][..i] == old(realms)[..i];
        if IsReported(realms[i], server, reports) {
          var after, entries := SyncRealm(realms[i], FindReport(reports, realms[i].uuid).value);
          realms, audit := realms[i := after], audit + entries;
        }
        i := i + 1;
      }
    }

    /** The second loop, over the registered realms that were not reported. */
    method DeleteMissing(server: int, reports: seq<Report>, n: nat)
      requires n <= |realms|
      modifies this`realms, this`audit
      ensures |realms| == |old(realms)|
      ensures forall i | 0 <= i < |realms| ::
                realms[i] == if i < n && IsMissing(old(realms)[i], server, reports) then old(realms)[i].(locallyDeleted := true)
                             else old(realms)[i]
      ensures audit == old(audit) + AllDeleteEntries(old(realms)[..n], server, reports)
    {
      var i := 0;
      while i < n
        invariant 0 <= i <= n && |realms| == |old(realms)|
        invariant forall j | 0 <= j < |realms| ::
                    realms[j] == if j < i && IsMissing(old(realms)[j], server, reports) then old(realms)[j].(locallyDeleted := true)
                                 else old(realms)[j]
        invariant audit == old(audit) + AllDeleteEntries(old(realms)[..i], server, reports)
      {
        assert old(realms)[..i + 1][..i] == old(realms)[..i];
        if IsMissing(realms[i], server, reports) && !realms[i].locallyDeleted {
          var r := realms[i];
          realms, audit := realms[i := r.(locallyDeleted := true)], audit + [Entry(r.uuid, LocallyDeleted)];
        }
        i := i + 1;
      }
    }

    /** update_remote_realm_data_for_server. */
    method UpdateRemoteRealmData(server: int, reports: seq<Report>) returns (ok: bool)
      modifies this
      ensures (ok, State()) == Reconcile(old(State()), server, reports)
    {
      hide DistinctUuids;
      hide NewRealms;
      hide Updated;
      hide IsReported;
      hide IsMissing;
      hide AllSyncEntries;
      hide AllDeleteEntries;
      hide Creations;
      var n := |realms|;
      ok := CreateNew(server, reports);
      if !ok {
        return;
      }
      ghost var created := realms;
      SyncReported(server, reports, n);
      ghost var synced := realms;
      DeleteMissing(server, reports, n);
      assert created[..n] == old(realms) && created[n..] == NewRealms(old(realms), server, reports);
      SecondLoopEntries(old(realms), synced[..n], server, reports);
      BothLoops(old(realms), created, synced, realms, server, reports);
    }
  }

  /** Between them the loops update every registered realm, and no new one. */
  lemma BothLoops(before: seq<RemoteRealm>, created: seq<RemoteRealm>, synced: seq<RemoteRealm>, after: seq<RemoteRealm>,
                  server: int, reports: seq<Report>)
    requires |before| <= |created| == |synced| == |after| && created[..|before|] == before
    requires forall i | 0 <= i < |created| ::
               synced[i] == if i < |before| && IsReported(created[i], server, reports) then Updated(created[i], server, reports)
                            else created[i]
    requires forall i | 0 <= i < |created| ::
               after[i] == if i < |before| && IsMissing(synced[i], server, reports) then synced[i].(locallyDeleted := true)
                           else synced[i]
    ensures after == UpdatedAll(before, server, reports) + created[|before|..]
  {
    hide FindReport;
    assert forall i | 0 <= i < |before| :: created[i] == before[i];
  }

  /** The second loop sees the missing realms as they were. */
  lemma {:induction false} SecondLoopEntries(realms: seq<RemoteRealm>, synced: seq<RemoteRealm>, server: int,
                                             reports: seq<Report>)
    requires |synced| == |realms|
    requires forall i | 0 <= i < |realms| ::
               synced[i] == if IsReported(realms[i], server, reports) then Updated(realms[i], server, reports) else realms[i]
    ensures AllDeleteEntries(synced, server, reports) == AllDeleteEntries(realms, server, reports)
    decreases |realms|
  {
    if realms != [] {
      SecondLoopEntries(realms[..|realms| - 1], synced[..|realms| - 1], server, reports);
    }
  }
}
