/** The four count tables (analytics/models.py) and the SQL statements that
    analytics/lib/counts.py runs on them. */
module CountTables {
  import opened Options
  import opened Sums

  /** A point in time, in microseconds. */
  type Time = int

  const HOUR: Time := 3_600_000_000
  const DAY: Time := 86_400_000_000

  /** The columns under each table's pair of partial unique constraints: the two constraints,
      one for a null and one for a non-null subgroup, say together that no two rows agree on
      these four. `id` is the user, stream or realm; InstallationCount has none and uses 0. */
  datatype Key = Key(property: string, endTime: Time, id: int, subgroup: Option<string>)

  /** The remaining columns. InstallationCount has no realm and uses 0. */
  datatype Cell = Cell(realm: int, value: int)

  type Rows = map<Key, Cell>

  datatype TableId = UserCount | StreamCount | RealmCount | InstallationCount

  datatype Tables = Tables(user: Rows, stream: Rows, realm: Rows, installation: Rows) {
    function Get(t: TableId): Rows {
      match t
      case UserCount => user
      case StreamCount => stream
      case RealmCount => realm
      case InstallationCount => installation
    }

    function Set(t: TableId, rows: Rows): Tables {
      match t
      case UserCount => this.(user := rows)
      case StreamCount => this.(stream := rows)
      case RealmCount => this.(realm := rows)
      case InstallationCount => this.(installation := rows)
    }
  }

  const NO_ROWS: Rows := map[]

  /** `WHERE property = p AND end_time = e`. */
  function Slot(t: Rows, p: string, e: Time): Rows {
    map k | k in t && k.property == p && k.endTime == e :: t[k]
  }

  /** `DELETE ... WHERE property = p AND end_time = e`. */
  function DeleteAt(t: Rows, p: string, e: Time): Rows {
    map k | k in t && !(k.property == p && k.endTime == e) :: t[k]
  }

  /** An INSERT of several rows either adds all of them or, when a unique constraint is
      violated, raises IntegrityError and adds none. */
  function Insert(t: Rows, rows: Rows): Option<Rows> {
    if t.Keys !! rows.Keys then Some(t + rows) else None
  }

  /** All rows carry property `p` and end time `e`. */
  ghost predicate InSlot(rows: Rows, p: string, e: Time) {
    forall k | k in rows :: k.property == p && k.endTime == e
  }

  function Values(rows: Rows): map<Key, int> {
    map k | k in rows :: rows[k].value
  }

  /** The value of a row, and 0 without one. */
  function ValueAt(rows: Rows, k: Key): int {
    if k in rows then rows[k].value else 0
  }

  /** `GROUP BY zerver_realm.id, subgroup`, as the key each row contributes to. */
  function RealmKeys(rows: Rows, p: string, e: Time): map<Key, Key> {
    map k | k in rows :: Key(p, e, rows[k].realm, k.subgroup)
  }

  /** `GROUP BY subgroup`. */
  function InstallationKeys(rows: Rows, p: string, e: Time): map<Key, Key> {
    map k | k in rows :: Key(p, e, 0, k.subgroup)
  }

  /** The rows the RealmCount aggregation statement inserts. */
  ghost function RealmRows(rows: Rows, p: string, e: Time): Rows {
    var sums := Grouped(Values(rows), RealmKeys(rows, p, e));
    map k | k in sums :: Cell(k.id, sums[k])
  }

  /** The rows the InstallationCount aggregation statement inserts. */
  ghost function InstallationRows(rows: Rows, p: string, e: Time): Rows {
    var sums := Grouped(Values(rows), InstallationKeys(rows, p, e));
    map k | k in sums :: Cell(0, sums[k])
  }

  /* How the statements act on the rows of one property and end time. */

  lemma SlotOfDelete(t: Rows, p: string, e: Time, p': string, e': Time)
    ensures Slot(DeleteAt(t, p, e), p', e') == if p == p' && e == e' then NO_ROWS else Slot(t, p', e')
  {}

  lemma SlotOfInsert(t: Rows, rows: Rows, p: string, e: Time, p': string, e': Time)
    requires InSlot(rows, p, e) && Slot(t, p, e) == NO_ROWS
    ensures Slot(t + rows, p', e') == if p == p' && e == e' then rows else Slot(t, p', e')
  {
    if p == p' && e == e' {
      forall k | k in t ensures !(k.property == p && k.endTime == e) {
        assert k !in Slot(t, p, e);
      }
    }
  }

  lemma SlotOfOtherInsert(t: Rows, rows: Rows, p: string, e: Time, p': string, e': Time)
    requires InSlot(rows, p, e) && p != p'
    ensures Slot(t + rows, p', e') == Slot(t, p', e')
  {}

  /** An insert of rows of one slot raises IntegrityError only if that slot already holds one of them. */
  lemma InsertIntoSlot(t: Rows, rows: Rows, p: string, e: Time)
    requires InSlot(rows, p, e) && Slot(t, p, e) == NO_ROWS
    ensures Insert(t, rows) == Some(t + rows)
  {
    assert forall k | k in t && k in rows :: k in Slot(t, p, e);
  }

  lemma AggregatesInSlot(rows: Rows, p: string, e: Time)
    ensures InSlot(RealmRows(rows, p, e), p, e)
    ensures InSlot(InstallationRows(rows, p, e), p, e)
  {}

  /** Aggregating first per realm and then over realms is aggregating directly: the
      InstallationCount row of a subgroup is the sum of all its base rows. */
  lemma TwoLevelAggregation(rows: Rows, p: string, e: Time)
    ensures InstallationRows(RealmRows(rows, p, e), p, e) == InstallationRows(rows, p, e)
  {
    var realm := RealmRows(rows, p, e);
    var sums := Grouped(Values(rows), RealmKeys(rows, p, e));
    assert Values(realm) == sums;
    GroupedTwice(Values(rows), RealmKeys(rows, p, e), InstallationKeys(realm, p, e), InstallationKeys(rows, p, e));
  }

  /** Aggregation conserves the total count. */
  lemma AggregationConserves(rows: Rows, p: string, e: Time)
    ensures Sum(Values(RealmRows(rows, p, e))) == Sum(Values(rows))
    ensures Sum(Values(InstallationRows(rows, p, e))) == Sum(Values(rows))
  {
    hide Sum;
    hide Grouped;
    SumGrouped(Values(rows), RealmKeys(rows, p, e));
    SumGrouped(Values(rows), InstallationKeys(rows, p, e));
    assert Values(RealmRows(rows, p, e)) == Grouped(Values(rows), RealmKeys(rows, p, e));
    assert Values(InstallationRows(rows, p, e)) == Grouped(Values(rows), InstallationKeys(rows, p, e));
  }

  /** The rows of a realm, or of all realms, with one subgroup. */
  function OfSubgroup(rows: Rows, realm: Option<int>, subgroup: Option<string>): map<Key, int> {
    map k | k in rows && k.subgroup == subgroup && (realm.None? || rows[k].realm == realm.value) :: rows[k].value
  }

  /** What the aggregation statements insert: for each realm and subgroup that occur, and for each
      subgroup that occurs, one row with the sum of their values. */
  lemma AggregatedRowsAre(rows: Rows, p: string, e: Time, realm: int, subgroup: Option<string>)
    ensures var k, t, ofRealm := Key(p, e, realm, subgroup), RealmRows(rows, p, e), OfSubgroup(rows, Some(realm), subgroup);
            (k in t <==> ofRealm != map[]) && (k in t ==> t[k] == Cell(realm, Sum(ofRealm)))
    ensures var k, t, all := Key(p, e, 0, subgroup), InstallationRows(rows, p, e), OfSubgroup(rows, None, subgroup);
            (k in t <==> all != map[]) && (k in t ==> t[k] == Cell(0, Sum(all)))
  {
    hide Sum;
    hide Grouped;
    GroupedAt(Values(rows), RealmKeys(rows, p, e), Key(p, e, realm, subgroup));
    GroupedAt(Values(rows), InstallationKeys(rows, p, e), Key(p, e, 0, subgroup));
    assert Fiber(Values(rows), RealmKeys(rows, p, e), Key(p, e, realm, subgroup)) == OfSubgroup(rows, Some(realm), subgroup);
    assert Fiber(Values(rows), InstallationKeys(rows, p, e), Key(p, e, 0, subgroup)) == OfSubgroup(rows, None, subgroup);
  }

  /** Executes `SELECT g, sum(m) GROUP BY g` one row at a time, in any order. */
  method GroupSum<K(==), G(==)>(m: map<K, int>, g: map<K, G>) returns (sums: map<G, int>)
    requires m.Keys <= g.Keys
    ensures sums == Grouped(m, g)
  {
    sums := map[];
    var done: map<K, int> := map[];
    while m.Keys - done.Keys != {}
      invariant done.Keys <= m.Keys && sums == Grouped(done, g)
      invariant forall k | k in done :: done[k] == m[k]
      decreases m.Keys - done.Keys
    {
      var k :| k in m.Keys - done.Keys;
      sums := AddRow(sums, done, g, k, m[k]);
      done := done[k := m[k]];
    }
    assert forall k | k in m :: k in m.Keys - done.Keys || k in done;
    assert done == m;
  }

  /** The running totals after one more row. */
  function AddRow<K, G>(sums: map<G, int>, ghost done: map<K, int>, g: map<K, G>, k: K, v: int): (after: map<G, int>)
    requires k !in done && k in g && done.Keys <= g.Keys
    requires sums == Grouped(done, g)
    ensures after == Grouped(done[k := v], g)
  {
    GroupedInsert(done, g, k, v);
    sums[g[k] := (if g[k] in sums then sums[g[k]] else 0) + v]
  }

  /** The SELECT of the RealmCount aggregation. */
  method SelectRealmRows(slot: Rows, p: string, e: Time) returns (rows: Rows)
    ensures rows == RealmRows(slot, p, e)
  {
    var sums := GroupSum(Values(slot), RealmKeys(slot, p, e));
    rows := map k | k in sums :: Cell(k.id, sums[k]);
  }

  /** The SELECT of the InstallationCount aggregation. */
  method SelectInstallationRows(slot: Rows, p: string, e: Time) returns (rows: Rows)
    ensures rows == InstallationRows(slot, p, e)
  {
    var sums := GroupSum(Values(slot), InstallationKeys(slot, p, e));
    rows := map k | k in sums :: Cell(0, sums[k]);
  }
}
