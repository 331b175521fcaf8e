/** get_time_series_by_subgroup (analytics/views/stats.py): the rows of a count table as one value
    array per label. */
module TimeSeries {
  import opened Options
  import opened Sums
  import opened CountTables
  import opened ClientArrays

  const CLIENT_STAT := "messages_sent:client:day"

  /** table_filtered_to_id: InstallationCount has no id to filter by, and 0 in its place here. */
  function RowId(table: TableId, keyId: int): int {
    if table == InstallationCount then 0 else keyId
  }

  predicate Selected(k: Key, p: string, id: int) {
    k.property == p && k.id == id
  }

  /** Some row has this subgroup. */
  predicate Present(rows: Rows, p: string, id: int, subgroup: Option<string>) {
    exists k | k in rows :: Selected(k, p, id) && k.subgroup == subgroup
  }

  function Series(rows: Rows, p: string, id: int, subgroup: Option<string>, endTimes: seq<Time>): (values: seq<int>)
    ensures |values| == |endTimes|
  {
    seq(|endTimes|, i requires 0 <= i < |endTimes| => ValueAt(rows, Key(p, endTimes[i], id, subgroup)))
  }

  /** The value arrays before any relabelling; of two subgroups with one label the later counts. */
  function SeriesByLabel(rows: Rows, p: string, id: int, endTimes: seq<Time>, labels: seq<(Option<string>, string)>,
                         includeEmpty: bool): Arrays
    decreases |labels|
  {
    if labels == [] then map[]
    else
      var rest, last := SeriesByLabel(rows, p, id, endTimes, labels[..|labels| - 1], includeEmpty), labels[|labels| - 1];
      if includeEmpty || Present(rows, p, id, last.0) then rest[last.1 := Series(rows, p, id, last.0, endTimes)] else rest
  }

  /** value_dicts as the loop over the query result builds it. */
  ghost predicate Indexed(dicts: map<Option<string>, map<Time, int>>, rows: Rows, p: string, id: int) {
    && (forall subgroup :: subgroup in dicts <==> Present(rows, p, id, subgroup))
    && (forall subgroup, e | subgroup in dicts ::
          (if e in dicts[subgroup] then dicts[subgroup][e] else 0) == ValueAt(rows, Key(p, e, id, subgroup)))
  }

  lemma IndexOneMore(dicts: map<Option<string>, map<Time, int>>, rows: Rows, p: string, id: int, k: Key, cell: Cell)
    requires Indexed(dicts, rows, p, id) && k !in rows
    ensures var after := rows[k := cell];
            if Selected(k, p, id) then
              var dict := if k.subgroup in dicts then dicts[k.subgroup] else map[];
              Indexed(dicts[k.subgroup := dict[k.endTime := cell.value]], after, p, id)
            else Indexed(dicts, after, p, id)
  {
    var after := rows[k := cell];
    assert forall x | x in rows :: x in after;
    forall subgroup
      ensures Present(after, p, id, subgroup) <==> Present(rows, p, id, subgroup) || (Selected(k, p, id) && k.subgroup == subgroup)
    {
      if Present(rows, p, id, subgroup) {
        var x :| x in rows && Selected(x, p, id) && x.subgroup == subgroup;
        assert x in after;
      }
      assert k in after;
    }
    if Selected(k, p, id) && k.subgroup !in dicts {
      assert forall e :: Key(p, e, id, k.subgroup) !in rows by {
        assert forall e :: Selected(Key(p, e, id, k.subgroup), p, id);
      }
    }
  }

  /** The loop over the query result. */
  method IndexRows(rows: Rows, p: string, id: int) returns (dicts: map<Option<string>, map<Time, int>>)
    ensures Indexed(dicts, rows, p, id)
  {
    dicts := map[];
    ghost var done: Rows := map[];
    var todo := rows.Keys;
    while todo != {}
      invariant todo <= rows.Keys && done == map k | k in rows && k !in todo :: rows[k]
      invariant Indexed(dicts, done, p, id)
      decreases todo
    {
      var k :| k in todo;
      IndexOneMore(dicts, done, p, id, k, rows[k]);
      if k.property == p && k.id == id {
        var dict := if k.subgroup in dicts then dicts[k.subgroup] else map[];
        dicts := dicts[k.subgroup := dict[k.endTime := rows[k].value]];
      }
      todo := todo - {k};
      done := done[k := rows[k]];
    }
    assert done == rows;
  }

  /** `[value_dicts[subgroup][end_time] for end_time in end_times]`. */
  method SeriesArray(dicts: map<Option<string>, map<Time, int>>, ghost rows: Rows, ghost p: string, ghost id: int,
                     subgroup: Option<string>, endTimes: seq<Time>) returns (values: array<int>)
    requires Indexed(dicts, rows, p, id)
    ensures fresh(values) && values[..] == Series(rows, p, id, subgroup, endTimes)
  {
    values := new int[|endTimes|];
    var i := 0;
    while i < |endTimes|
      invariant 0 <= i <= |endTimes|
      invariant forall j | 0 <= j < i :: values[j] == ValueAt(rows, Key(p, endTimes[j], id, subgroup))
    {
      var e := endTimes[i];
      values[i] := if subgroup in dicts && e in dicts[subgroup] then dicts[subgroup][e] else 0;
      if subgroup !in dicts {
        NotPresent(rows, p, id, subgroup, e);
      }
      i := i + 1;
    }
  }

  lemma NotPresent(rows: Rows, p: string, id: int, subgroup: Option<string>, e: Time)
    requires !Present(rows, p, id, subgroup)
    ensures ValueAt(rows, Key(p, e, id, subgroup)) == 0
  {
    assert Selected(Key(p, e, id, subgroup), p, id);
  }

  /** The loop over subgroup_to_label; `order` is the dictionary's order. */
  method ArraysByLabel(rows: Rows, p: string, id: int, endTimes: seq<Time>, labels: seq<(Option<string>, string)>,
                       includeEmpty: bool)
    returns (arrays: map<string, array<int>>, order: seq<string>)
    ensures forall l | l in arrays :: fresh(arrays[l])
    ensures Contents(arrays) == SeriesByLabel(rows, p, id, endTimes, labels, includeEmpty)
    ensures IsOrder(order, arrays.Keys)
  {
    hide Series;
    hide Indexed;
    hide IsOrder;
    var dicts := IndexRows(rows, p, id);
    PresentIsIndexed(dicts, rows, p, id);
    hide Present;
    arrays, order := map[], [];
    NoOrder();
    assert arrays.Keys == {};
    var i := 0;
    while i < |labels|
      invariant 0 <= i <= |labels| && forall l | l in arrays :: fresh(arrays[l])
      invariant Contents(arrays) == SeriesByLabel(rows, p, id, endTimes, labels[..i], includeEmpty)
      invariant IsOrder(order, arrays.Keys)
    {
      assert labels[..i + 1][..i] == labels[..i];
      var subgroup, name := labels[i].0, labels[i].1;
      if subgroup in dicts || includeEmpty {
        ghost var before := Contents(arrays);
        var values := SeriesArray(dicts, rows, p, id, subgroup, endTimes);
        assert Contents(arrays) == before;
        OrderGrows(order, arrays.Keys, name);
        if name !in arrays {
          order := order + [name];
        }
        ghost var keys := arrays.Keys;
        arrays := arrays[name := values];
        assert arrays.Keys == keys + {name};
        assert Contents(arrays) == before[name := values[..]];
      }
      i := i + 1;
    }
    assert labels[..|labels|] == labels;
  }

  /** `order` lists the keys, each once. */
  ghost predicate IsOrder(order: seq<string>, keys: set<string>) {
    (forall l :: l in order <==> l in keys) && forall i, j | 0 <= i < j < |order| :: order[i] != order[j]
  }

  lemma NoOrder()
    ensures IsOrder([], {})
  {}

  lemma OrderGrows(order: seq<string>, keys: set<string>, name: string)
    requires IsOrder(order, keys)
    ensures IsOrder(if name in keys then order else order + [name], keys + {name})
  {
    if name in keys {
      assert keys + {name} == keys;
    }
  }

  lemma PresentIsIndexed(dicts: map<Option<string>, map<Time, int>>, rows: Rows, p: string, id: int)
    requires Indexed(dicts, rows, p, id)
    ensures forall subgroup :: subgroup in dicts <==> Present(rows, p, id, subgroup)
  {}

  function ItemsInOrder(arrays: map<string, array<int>>, order: seq<string>): (items: seq<(string, array<int>)>)
    requires forall l | l in order :: l in arrays
    ensures |items| == |order| && forall i | 0 <= i < |items| :: items[i] == (order[i], arrays[order[i]])
  {
    seq(|order|, i requires 0 <= i < |order| => (order[i], arrays[order[i]]))
  }

  lemma ItemsHoldArrays(arrays: map<string, array<int>>, order: seq<string>, n: nat)
    requires IsOrder(order, arrays.Keys) && forall l | l in arrays :: arrays[l].Length == n
    ensures var items := ItemsOf(ItemsInOrder(arrays, order));
            && DistinctNames(items) && ArraysOf(items) == Contents(arrays)
            && forall i | 0 <= i < |items| :: |items[i].1| == n
  {
    hide ItemsOf;
    hide ArraysOf;
    var items := ItemsOf(ItemsInOrder(arrays, order));
    assert DistinctNames(items);
    forall l ensures l in ArraysOf(items) <==> l in arrays {
      if l in arrays {
        var i :| 0 <= i < |order| && order[i] == l;
        assert items[i].0 == l;
      }
    }
    forall l | l in arrays ensures ArraysOf(items)[l] == arrays[l][..] {
      var i :| 0 <= i < |order| && order[i] == l;
      assert items[i] == (l, arrays[l][..]);
    }
  }

  lemma NoneTooLongOfEqual(items: seq<(string, seq<int>)>, relabel: string -> string, n: nat)
    requires forall i | 0 <= i < |items| :: |items[i].1| == n
    ensures forall j | 0 <= j < |items| :: !TooLong(items, relabel, j)
  {
    forall j | 0 <= j < |items| ensures !TooLong(items, relabel, j) {
      EqualLengthsFit(items[..j], relabel, n, relabel(items[j].0));
    }
  }

  /** get_time_series_by_subgroup; its lists are of one length, so relabelling raises no IndexError. */
  method GetTimeSeriesBySubgroup(rows: Rows, table: TableId, p: string, keyId: int, endTimes: seq<Time>,
                                 labels: seq<(Option<string>, string)>, includeEmpty: bool)
    returns (arrays: map<string, array<int>>)
    ensures forall l | l in arrays :: fresh(arrays[l])
    ensures var series := SeriesByLabel(rows, p, if table == InstallationCount then 0 else keyId, endTimes, labels, includeEmpty);
            if p == "messages_sent:client:day" then Collapsed(Contents(arrays), series, ClientLabel) else Contents(arrays) == series
  {
    var order;
    arrays, order := ArraysByLabel(rows, p, RowId(table, keyId), endTimes, labels, includeEmpty);
    if p == CLIENT_STAT {
      arrays := Relabelled(arrays, order, |endTimes|, SeriesByLabel(rows, p, RowId(table, keyId), endTimes, labels, includeEmpty)) by {
        SeriesAreRectangular(rows, p, RowId(table, keyId), endTimes, labels, includeEmpty);
      }
    }
  }

  /** Hands the dictionary to rewrite_client_arrays. */
  method Relabelled(arrays: map<string, array<int>>, order: seq<string>, ghost n: nat, ghost series: Arrays)
    returns (mapped: map<string, array<int>>)
    requires Contents(arrays) == series && IsOrder(order, arrays.Keys) && OfLength(series, n)
    ensures forall l | l in mapped :: fresh(mapped[l])
    ensures Collapsed(Contents(mapped), series, ClientLabel)
  {
    hide Collapsed;
    hide ClientLabel;
    assert forall l | l in arrays :: Contents(arrays)[l] == arrays[l][..];
    ItemsHoldArrays(arrays, order, n);
    var items := ItemsInOrder(arrays, order);
    NoneTooLongOfEqual(ItemsOf(items), ClientLabel, n);
    hide TooLong;
    var result := RewriteClientArrays(items);
    mapped := result.value;
  }

  predicate OfLength(arrays: Arrays, n: nat) {
    forall l | l in arrays :: |arrays[l]| == n
  }

  lemma {:induction false} SeriesAreRectangular(rows: Rows, p: string, id: int, endTimes: seq<Time>,
                                                labels: seq<(Option<string>, string)>, includeEmpty: bool)
    ensures OfLength(SeriesByLabel(rows, p, id, endTimes, labels, includeEmpty), |endTimes|)
    ensures forall l | l in SeriesByLabel(rows, p, id, endTimes, labels, includeEmpty) :: exists i :: 0 <= i < |labels| && labels[i].1 == l
    decreases |labels|
  {
    if labels != [] {
      var rest, last := labels[..|labels| - 1], labels[|labels| - 1];
      SeriesAreRectangular(rows, p, id, endTimes, rest, includeEmpty);
      var before, series := SeriesByLabel(rows, p, id, endTimes, rest, includeEmpty),
          SeriesByLabel(rows, p, id, endTimes, labels, includeEmpty);
      forall l | l in series ensures |series[l]| == |endTimes| && exists i :: 0 <= i < |labels| && labels[i].1 == l {
        if l == last.1 {
          assert labels[|labels| - 1].1 == l;
          if includeEmpty || Present(rows, p, id, last.0) {
            assert series[l] == Series(rows, p, id, last.0, endTimes);
          } else {
            assert series == before;
          }
        } else {
          assert l in before && series[l] == before[l];
          var i :| 0 <= i < |rest| && rest[i].1 == l;
          assert labels[i].1 == l;
        }
      }
    }
  }

  /** The arrays before relabelling, for labels that are all different: a label has one exactly when empty
      ones are asked for or some row of the table has its subgroup, and it holds, at each end time, the
      value of the row with that property, id, subgroup and end time, or 0 without one. */
  lemma {:induction false} SeriesAre(rows: Rows, p: string, id: int, endTimes: seq<Time>, labels: seq<(Option<string>, string)>,
                                     includeEmpty: bool, i: nat)
    requires DistinctLabels(labels) && i < |labels|
    ensures var series := SeriesByLabel(rows, p, id, endTimes, labels, includeEmpty);
            && (labels[i].1 in series <==>
                  includeEmpty || exists k :: k in rows && k.property == p && k.id == id && k.subgroup == labels[i].0)
            && (labels[i].1 in series ==>
                  && |series[labels[i].1]| == |endTimes|
                  && forall j | 0 <= j < |endTimes| ::
                       series[labels[i].1][j]
                       == var k := Key(p, endTimes[j], id, labels[i].0); if k in rows then rows[k].value else 0)
    decreases |labels|
  {
    hide Series;
    var rest, last := labels[..|labels| - 1], labels[|labels| - 1];
    var before, after := SeriesByLabel(rows, p, id, endTimes, rest, includeEmpty), SeriesByLabel(rows, p, id, endTimes, labels, includeEmpty);
    if i < |labels| - 1 {
      assert rest[i] == labels[i];
      SeriesAre(rows, p, id, endTimes, rest, includeEmpty, i);
    } else {
      SeriesAreRectangular(rows, p, id, endTimes, rest, includeEmpty);
      assert last.1 !in before;
      SeriesIs(rows, p, id, last.0, endTimes);
    }
  }

  lemma SeriesIs(rows: Rows, p: string, id: int, subgroup: Option<string>, endTimes: seq<Time>)
    ensures forall j | 0 <= j < |endTimes| ::
              Series(rows, p, id, subgroup, endTimes)[j]
              == var k := Key(p, endTimes[j], id, subgroup); if k in rows then rows[k].value else 0
  {}

  /* The chart shows everything. */

  /** subgroup_to_label is a dictionary whose labels are different. */
  ghost predicate DistinctLabels(labels: seq<(Option<string>, string)>) {
    forall i, j | 0 <= i < j < |labels| :: labels[i].0 != labels[j].0 && labels[i].1 != labels[j].1
  }

  predicate Listed(labels: seq<(Option<string>, string)>, subgroup: Option<string>) {
    exists x | x in labels :: x.0 == subgroup
  }

  /** The values at one end time of the rows with a listed subgroup. */
  function ListedRows(rows: Rows, p: string, id: int, e: Time, labels: seq<(Option<string>, string)>): map<Key, int> {
    map k | k in rows && Selected(k, p, id) && k.endTime == e && Listed(labels, k.subgroup) :: rows[k].value
  }

  /** All values at one end time. */
  function AllRows(rows: Rows, p: string, id: int, e: Time): map<Key, int> {
    map k | k in rows && Selected(k, p, id) && k.endTime == e :: rows[k].value
  }

  /** One more listed subgroup brings in at most one row. */
  lemma ListOneMore(rows: Rows, p: string, id: int, e: Time, labels: seq<(Option<string>, string)>)
    requires labels != [] && DistinctLabels(labels)
    ensures var rest, k := labels[..|labels| - 1], Key(p, e, id, labels[|labels| - 1].0);
            var before := ListedRows(rows, p, id, e, rest);
            k !in before && ListedRows(rows, p, id, e, labels) == if k in rows then before[k := rows[k].value] else before
  {
    var rest, last := labels[..|labels| - 1], labels[|labels| - 1];
    assert labels == rest + [last];
    assert !Listed(rest, last.0) by {
      assert forall i | 0 <= i < |rest| :: rest[i].0 != last.0;
    }
    forall subgroup ensures Listed(labels, subgroup) <==> Listed(rest, subgroup) || subgroup == last.0 {
      if Listed(rest, subgroup) {
        var x :| x in rest && x.0 == subgroup;
        assert x in labels;
      }
      assert last in labels;
    }
  }

  lemma {:induction false} SeriesSum(rows: Rows, p: string, id: int, endTimes: seq<Time>,
                                     labels: seq<(Option<string>, string)>, includeEmpty: bool, i: nat)
    requires DistinctLabels(labels) && i < |endTimes|
    ensures var series := SeriesByLabel(rows, p, id, endTimes, labels, includeEmpty);
            Sum(Column(series, i)) == Sum(ListedRows(rows, p, id, endTimes[i], labels))
    decreases |labels|
  {
    SeriesAreRectangular(rows, p, id, endTimes, labels, includeEmpty);
    var e := endTimes[i];
    var series := SeriesByLabel(rows, p, id, endTimes, labels, includeEmpty);
    if labels == [] {
      assert Column(series, i) == map[] && ListedRows(rows, p, id, e, labels) == map[];
    } else {
      var rest, last := labels[..|labels| - 1], labels[|labels| - 1];
      assert forall j | 0 <= j < |rest| :: rest[j] == labels[j];
      SeriesSum(rows, p, id, endTimes, rest, includeEmpty, i);
      ListOneMore(rows, p, id, e, labels);
      SeriesStep(rows, p, id, endTimes, labels, includeEmpty, i);
    }
  }

  lemma SeriesStep(rows: Rows, p: string, id: int, endTimes: seq<Time>, labels: seq<(Option<string>, string)>,
                   includeEmpty: bool, i: nat)
    requires labels != [] && DistinctLabels(labels) && i < |endTimes|
    requires Sum(Column(SeriesByLabel(rows, p, id, endTimes, labels[..|labels| - 1], includeEmpty), i))
          == Sum(ListedRows(rows, p, id, endTimes[i], labels[..|labels| - 1]))
    ensures Sum(Column(SeriesByLabel(rows, p, id, endTimes, labels, includeEmpty), i))
         == Sum(ListedRows(rows, p, id, endTimes[i], labels))
  {
    hide Sum;
    hide ListedRows;
    var rest, last := labels[..|labels| - 1], labels[|labels| - 1];
    var before, k := SeriesByLabel(rows, p, id, endTimes, rest, includeEmpty), Key(p, endTimes[i], id, last.0);
    var listed := ListedRows(rows, p, id, endTimes[i], rest);
    ListOneMore(rows, p, id, endTimes[i], labels);
    if includeEmpty || Present(rows, p, id, last.0) {
      SeriesAreRectangular(rows, p, id, endTimes, rest, includeEmpty);
      assert last.1 !in before;
      var value := ValueAt(rows, k);
      assert Column(before[last.1 := Series(rows, p, id, last.0, endTimes)], i) == Column(before, i)[last.1 := value];
      SumInsert(Column(before, i), last.1, value);
      if k in rows {
        SumInsert(listed, k, value);
      }
    } else {
      NotPresent(rows, p, id, last.0, endTimes[i]);
      assert k !in rows by { assert Selected(k, p, id); }
    }
  }

  /** When every subgroup that occurs is listed, under labels of its own, the values shown at each
      end time add up to those in the table; for clients also after similar ones were merged. */
  lemma ChartConservesTotals(rows: Rows, p: string, id: int, endTimes: seq<Time>,
                             labels: seq<(Option<string>, string)>, includeEmpty: bool,
                             shown: Arrays, i: nat)
    requires DistinctLabels(labels) && i < |endTimes|
    requires forall k | k in rows && Selected(k, p, id) :: Listed(labels, k.subgroup)
    requires var series := SeriesByLabel(rows, p, id, endTimes, labels, includeEmpty);
             if p == CLIENT_STAT then Collapsed(shown, series, ClientLabel) else shown == series
    ensures Sum(Column(shown, i)) == Sum(AllRows(rows, p, id, endTimes[i]))
  {
    hide Grouped;
    SeriesSum(rows, p, id, endTimes, labels, includeEmpty, i);
    assert ListedRows(rows, p, id, endTimes[i], labels) == AllRows(rows, p, id, endTimes[i]);
    if p == CLIENT_STAT {
      CollapsingConserves(shown, SeriesByLabel(rows, p, id, endTimes, labels, includeEmpty), ClientLabel, i);
    }
  }
}
