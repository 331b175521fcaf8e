/** The tables that a push bouncer keeps of the rows self-hosted servers send it, and the functions
    that validate and insert such rows (zilencer/views.py, zilencer/models.py). */
module RemoteTables {
  import opened Options
  import opened CountTables
  import Realms = RealmReconciliation

  /** extra_data of an audit log row: what a server sent, which may be a string that is not JSON,
      or the change of a realm that the bouncer itself logs. */
  datatype ExtraData = Parsed(text: string) | Malformed | Logged(change: Realms.Change)

  datatype Content =
    | RealmCountRow(realm: Option<int>, property: string, endTime: Time, subgroup: Option<string>, value: int)
    | InstallationCountRow(property: string, endTime: Time, subgroup: Option<string>, value: int)
    | AuditRow(realm: Option<int>, eventTime: Time, eventType: int, extraData: ExtraData)

  /** A row as the remote server sends it. */
  datatype Incoming = Incoming(id: Option<int>, content: Content)

  /** A row of RemoteRealmCount, RemoteInstallationCount or RemoteRealmAuditLog. The bouncer's own
      rows have no remote_id. */
  datatype Row = Row(server: int, remoteId: Option<int>, remoteRealm: Option<int>, content: Content)

  datatype Table = RealmCounts | InstallationCounts | AuditLog

  datatype PerTable<T> = PerTable(realmCounts: T, installationCounts: T, auditLog: T) {
    function Get(k: Table): T {
      match k
      case RealmCounts => realmCounts
      case InstallationCounts => installationCounts
      case AuditLog => auditLog
    }

    function Set(k: Table, v: T): PerTable<T> {
      match k
      case RealmCounts => this.(realmCounts := v)
      case InstallationCounts => this.(installationCounts := v)
      case AuditLog => this.(auditLog := v)
    }
  }

  type Database = PerTable<seq<Row>>

  /* Unique constraints. */

  /** What a unique index stores for a row. No two rows may share one; a null column never equals
      another, and the subgroup's null is covered by a constraint of its own. */
  datatype UniqueKey =
    | IdKey(server: int, id: int)
    | RealmKey(server: int, realm: int, property: string, endTime: Time, subgroup: Option<string>)
    | RemoteRealmKey(remoteRealm: int, property: string, endTime: Time, subgroup: Option<string>)
    | InstallationKey(server: int, property: string, endTime: Time, subgroup: Option<string>)

  function IdKeys(r: Row): set<UniqueKey> {
    if r.remoteId.Some? then {IdKey(r.server, r.remoteId.value)} else {}
  }

  function NaturalKeys(r: Row): set<UniqueKey> {
    match r.content
    case RealmCountRow(realm, p, e, subgroup, _) =>
      (if realm.Some? then {RealmKey(r.server, realm.value, p, e, subgroup)} else {})
      + (if r.remoteRealm.Some? then {RemoteRealmKey(r.remoteRealm.value, p, e, subgroup)} else {})
    case InstallationCountRow(p, e, subgroup, _) => {InstallationKey(r.server, p, e, subgroup)}
    case AuditRow(_, _, _, _) => {}
  }

  function UniqueKeys(r: Row): set<UniqueKey> {
    IdKeys(r) + NaturalKeys(r)
  }

  predicate Clash(a: Row, b: Row) {
    UniqueKeys(a) * UniqueKeys(b) != {}
  }

  /** Which rows exclude each other. */
  lemma ClashIff(a: Row, b: Row)
    ensures Clash(a, b) <==>
              || (a.server == b.server && a.remoteId.Some? && a.remoteId == b.remoteId)
              || (a.content.RealmCountRow? && b.content.RealmCountRow? && a.content.property == b.content.property
                  && a.content.endTime == b.content.endTime && a.content.subgroup == b.content.subgroup
                  && ((a.server == b.server && a.content.realm.Some? && a.content.realm == b.content.realm)
                      || (a.remoteRealm.Some? && a.remoteRealm == b.remoteRealm)))
              || (a.content.InstallationCountRow? && b.content.InstallationCountRow? && a.server == b.server
                  && a.content.property == b.content.property && a.content.endTime == b.content.endTime
                  && a.content.subgroup == b.content.subgroup)
  {
    var both := UniqueKeys(a) * UniqueKeys(b);
    if a.remoteId.Some? && a.server == b.server && a.remoteId == b.remoteId {
      assert IdKey(a.server, a.remoteId.value) in both;
    }
  }

  ghost predicate UniqueRows(t: seq<Row>) {
    forall i, j | 0 <= i < j < |t| :: !Clash(t[i], t[j])
  }

  /* get_last_id_from_server. */

  function LastSynced(t: seq<Row>, server: int): Option<int>
    decreases |t|
  {
    if t == [] then None
    else
      var r, rest := t[|t| - 1], LastSynced(t[..|t| - 1], server);
      if r.server == server && r.remoteId.Some? && (rest.None? || rest.value < r.remoteId.value) then r.remoteId else rest
  }

  /** get_last_id_from_server. */
  function LastId(t: seq<Row>, server: int): int {
    var last := LastSynced(t, server);
    if last.Some? then last.value else 0
  }

  /** `r` is a row that `server` sent. */
  predicate SyncedBy(r: Row, server: int) {
    r.server == server && r.remoteId.Some?
  }

  /** The id reported to a server is the largest of the ids it sent, ignoring the bouncer's own
      rows, and 0 when there are none. */
  lemma {:induction false} LastIdIsMaximum(t: seq<Row>, server: int)
    ensures forall r | r in t && SyncedBy(r, server) :: LastSynced(t, server).Some? && r.remoteId.value <= LastId(t, server)
    ensures LastSynced(t, server).Some? ==> exists r :: r in t && SyncedBy(r, server) && r.remoteId.value == LastId(t, server)
    ensures LastSynced(t, server).None? ==> LastId(t, server) == 0
    decreases |t|
  {
    if t != [] {
      var rest, r := t[..|t| - 1], t[|t| - 1];
      LastIdIsMaximum(rest, server);
      assert forall x | x in t :: x in rest || x == r;
      assert r in t && forall x | x in rest :: x in t;
      if LastSynced(rest, server).Some? {
        var x :| x in rest && SyncedBy(x, server) && x.remoteId.value == LastId(rest, server);
        assert x in t;
      }
      assert SyncedBy(r, server) ==> r in t && LastSynced(t, server).Some?;
    }
  }

  /* validate_incoming_table_data. */

  const NOT_SENT_TO_BOUNCER: set<string> := {
    "invites_sent::day", "mobile_pushes_sent::day", "active_users_log:is_bot:day", "active_users:is_bot:day"
  }

  const BOUNCER_ONLY: set<string> := {"mobile_pushes_received::day", "mobile_pushes_forwarded::day"}

  /** COUNT_STATS of the bouncer. */
  const COUNT_STATS: set<string> := {
    "messages_sent:is_bot:hour", "messages_sent:message_type:day", "messages_sent:client:day",
    "messages_in_stream:is_bot:day", "active_users_audit:is_bot:day", "upload_quota_used_bytes::day",
    "messages_read::hour", "messages_read_interactions::hour", "1day_actives::day", "7day_actives::day",
    "15day_actives::day", "minutes_active::day", "mobile_pushes_sent::day", "invites_sent::day",
    "realm_active_humans::day", "mobile_pushes_received::day", "mobile_pushes_forwarded::day"
  }

  /** SYNCED_BILLING_EVENTS: users created, activated, deactivated, reactivated or changed in role;
      realms deactivated, reactivated or imported. */
  const SYNCED_EVENTS: set<int> := {101, 102, 103, 104, 105, 201, 202, 229}

  predicate ValidProperty(p: string) {
    !((p !in COUNT_STATS || p in BOUNCER_ONLY) && p !in NOT_SENT_TO_BOUNCER)
  }

  /** The stats whose rows a server may send: those that it keeps itself, and four that are dropped. */
  predicate ServerProperty(p: string) {
    p in {
      "messages_sent:is_bot:hour", "messages_sent:message_type:day", "messages_sent:client:day", "messages_in_stream:is_bot:day",
      "active_users_audit:is_bot:day", "upload_quota_used_bytes::day", "messages_read::hour", "messages_read_interactions::hour",
      "1day_actives::day", "7day_actives::day", "15day_actives::day", "minutes_active::day", "realm_active_humans::day",
      "mobile_pushes_sent::day", "invites_sent::day", "active_users_log:is_bot:day", "active_users:is_bot:day"
    }
  }

  lemma PropertiesOfServers(c: Content)
    ensures Allowed(c) <==> if c.AuditRow? then c.eventType in {101, 102, 103, 104, 105, 201, 202, 229} else ServerProperty(c.property)
  {}

  predicate Allowed(c: Content) {
    if c.AuditRow? then c.eventType in SYNCED_EVENTS else ValidProperty(c.property)
  }

  /** Rows that are validated and then dropped. */
  predicate Skipped(c: Content) {
    !c.AuditRow? && c.property in NOT_SENT_TO_BOUNCER
  }

  /** The counts that the bouncer keeps itself: do_increment_logging_stat gives them no realm id. */
  predicate OwnContent(c: Content) {
    !c.AuditRow? && c.property in BOUNCER_ONLY && (c.RealmCountRow? ==> c.realm.None?)
  }

  datatype Fault = InvalidProperty | InvalidEventType | MissingId | OutOfOrder | RealmsRefused | LinkConflict | MalformedAuditData

  /** The checks on one row, given the id before it. */
  function RowFault(r: Incoming, lastId: int): Option<Fault> {
    if !Allowed(r.content) then Some(if r.content.AuditRow? then InvalidEventType else InvalidProperty)
    else if r.id.None? then Some(MissingId)
    else if r.id.value <= lastId then Some(OutOfOrder)
    else None
  }

  /** Every row is allowed and has an id above the one before it, the first above `lastId`. */
  ghost predicate InOrder(rows: seq<Incoming>, lastId: int) {
    && (forall i | 0 <= i < |rows| :: Allowed(rows[i].content) && rows[i].id.Some? && lastId < rows[i].id.value)
    && (forall i, j | 0 <= i < j < |rows| && rows[i].id.Some? && rows[j].id.Some? :: rows[i].id.value < rows[j].id.value)
  }

  function Validate(rows: seq<Incoming>, lastId: int): Option<Fault> {
    if rows == [] then None
    else
      var fault := RowFault(rows[0], lastId);
      if fault.Some? then fault else Validate(rows[1..], rows[0].id.value)
  }

  /** A list passes exactly when its rows are allowed and in order above the last stored id. */
  lemma {:induction false} ValidateIffInOrder(rows: seq<Incoming>, lastId: int)
    ensures Validate(rows, lastId).None? <==> InOrder(rows, lastId)
    decreases |rows|
  {
    if rows != [] && RowFault(rows[0], lastId).None? {
      var first, rest := rows[0], rows[1..];
      ValidateIffInOrder(rest, first.id.value);
      if InOrder(rest, first.id.value) {
        assert forall i | 0 < i < |rows| :: rows[i] == rest[i - 1];
      }
      if InOrder(rows, lastId) {
        assert forall i | 0 <= i < |rest| :: rest[i] == rows[i + 1];
      }
    }
  }

  /** The error names the first row that is wrong, and the first thing that is wrong with it. */
  lemma {:induction false} FirstFault(rows: seq<Incoming>, lastId: int, i: nat)
    requires i < |rows| && InOrder(rows[..i], lastId) && !InOrder(rows[..i + 1], lastId)
    ensures var c, id, before := rows[i].content, rows[i].id, if i == 0 then Some(lastId) else rows[i - 1].id;
            Validate(rows, lastId)
            == if c.AuditRow? && c.eventType !in {101, 102, 103, 104, 105, 201, 202, 229} then Some(InvalidEventType)
               else if !c.AuditRow? && !ServerProperty(c.property) then Some(InvalidProperty)
               else if id.None? then Some(MissingId)
               else if before.Some? && id.value <= before.value then Some(OutOfOrder)
               else None
    decreases i
  {
    hide InOrder;
    assert rows[..i + 1][..i] == rows[..i];
    ValidateIffInOrder(rows[..i], lastId);
    ValidateIffInOrder(rows[..i + 1], lastId);
    PropertiesOfServers(rows[i].content);
    hide Allowed;
    if i > 0 {
      var rest := rows[1..];
      assert rows[..i][1..] == rest[..i - 1] && rows[..i + 1][1..] == rest[..i];
      assert rows[..i][0] == rows[0] && rows[..i + 1][0] == rows[0];
      assert rows[0].id.Some?;
      ValidateIffInOrder(rest[..i - 1], rows[0].id.value);
      ValidateIffInOrder(rest[..i], rows[0].id.value);
      FirstFault(rest, rows[0].id.value, i - 1);
    } else {
      assert rows[..1][0] == rows[0] && rows[..1][1..] == [];
    }
  }

  /** Allowed rows with ascending ids, as a server that follows the protocol sends them. */
  ghost predicate Honest(rows: seq<Incoming>) {
    && (forall i | 0 <= i < |rows| :: Allowed(rows[i].content) && rows[i].id.Some?)
    && (forall i, j | 0 <= i < j < |rows| :: rows[i].id.value < rows[j].id.value)
  }

  /** What the stored rows decide about such a list. */
  predicate StartsAbove(rows: seq<Incoming>, last: int) {
    rows == [] || (rows[0].id.Some? && last < rows[0].id.value)
  }

  lemma HonestInOrder(rows: seq<Incoming>, last: int)
    requires Honest(rows)
    ensures Validate(rows, last).None? <==> StartsAbove(rows, last)
  {
    hide Allowed;
    ValidateIffInOrder(rows, last);
    hide Validate;
    if rows != [] && last < rows[0].id.value {
      assert InOrder(rows, last);
    }
  }

  /** validate_incoming_table_data; None when it does not raise. */
  method ValidateIncomingTableData(t: seq<Row>, server: int, rows: seq<Incoming>) returns (fault: Option<Fault>)
    ensures fault == Validate(rows, LastId(t, server))
    ensures fault.None? <==> InOrder(rows, LastId(t, server))
  {
    ValidateIffInOrder(rows, LastId(t, server));
    var lastId, i := LastId(t, server), 0;
    while i < |rows|
      invariant 0 <= i <= |rows|
      invariant Validate(rows, LastId(t, server)) == Validate(rows[i..], lastId)
    {
      fault := RowFault(rows[i], lastId);
      if fault.Some? {
        return;
      }
      lastId := rows[i].id.value;
      i := i + 1;
    }
    fault := None;
  }

  /* batch_create_table_data. */

  predicate HasClash(t: seq<Row>, r: Row) {
    exists x | x in t :: Clash(x, r)
  }

  /** bulk_create(ignore_conflicts=True). */
  function InsertIgnoringConflicts(t: seq<Row>, rows: seq<Row>): seq<Row>
    decreases |rows|
  {
    if rows == [] then t
    else
      var before := InsertIgnoringConflicts(t, rows[..|rows| - 1]);
      var r := rows[|rows| - 1];
      if HasClash(before, r) then before else before + [r]
  }

  lemma OneMore(t: seq<Row>, r: Row)
    ensures var after := if HasClash(t, r) then t else t + [r];
            && t <= after && (UniqueRows(t) ==> UniqueRows(after)) && (UniqueKeys(r) == {} || HasClash(after, r))
  {
    if !HasClash(t, r) {
      assert r in t + [r] && UniqueKeys(r) * UniqueKeys(r) == UniqueKeys(r);
    }
  }

  /** Inserting keeps all rows that are there and every unique constraint, and afterwards each row
      asked for is there or shares a unique key with one that is. */
  lemma {:induction false} InsertCovers(t: seq<Row>, rows: seq<Row>)
    ensures var after := InsertIgnoringConflicts(t, rows);
            && t <= after && |after| <= |t| + |rows| && (UniqueRows(t) ==> UniqueRows(after))
            && forall r | r in rows :: UniqueKeys(r) == {} || HasClash(after, r)
    decreases |rows|
  {
    hide UniqueKeys;
    hide UniqueRows;
    hide Clash;
    if rows != [] {
      var before, r := InsertIgnoringConflicts(t, rows[..|rows| - 1]), rows[|rows| - 1];
      InsertCovers(t, rows[..|rows| - 1]);
      OneMore(before, r);
      var after := InsertIgnoringConflicts(t, rows);
      assert forall x | x in before :: x in after;
      assert forall x | x in rows :: x in rows[..|rows| - 1] || x == r;
    }
  }

  /** batch_create_table_data, with the number of rows it reports as dropped. */
  method BatchCreateTableData(t: seq<Row>, rows: seq<Row>) returns (after: seq<Row>, dropped: int)
    ensures after == InsertIgnoringConflicts(t, rows)
    ensures t <= after && (UniqueRows(t) ==> UniqueRows(after))
    ensures forall r | r in rows :: UniqueKeys(r) == {} || HasClash(after, r)
    ensures dropped == |rows| - (|after| - |t|) >= 0
  {
    hide UniqueRows;
    hide UniqueKeys;
    hide HasClash;
    after := t;
    var i := 0;
    while i < |rows|
      invariant 0 <= i <= |rows| && after == InsertIgnoringConflicts(t, rows[..i])
    {
      assert rows[..i + 1][..i] == rows[..i];
      if !HasClash(after, rows[i]) {
        after := after + [rows[i]];
      }
      i := i + 1;
    }
    assert rows[..|rows|] == rows;
    InsertCovers(t, rows);
    dropped := |rows| - (|after| - |t|);
  }
}
