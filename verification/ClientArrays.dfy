/** The value arrays of a chart, and how the rows of similar clients are collapsed
    (analytics/views/stats.py). */
module ClientArrays {
  import opened Options
  import opened Sums
  import opened CountTables

  /** `s.startswith(prefix)` and `s.endswith(suffix)`. */
  predicate StartsWith(s: string, prefix: string) {
    prefix <= s
  }

  predicate EndsWith(s: string, suffix: string) {
    |suffix| <= |s| && s[|s| - |suffix|..] == suffix
  }

  /** The slice s[start:-stop]. */
  function Middle(s: string, start: nat, stop: nat): string {
    if start <= |s| - stop then s[start..|s| - stop] else ""
  }

  /** client_label_map. */
  function ClientLabel(name: string): string {
    if name == "website" then "Web app"
    else if StartsWith(name, "desktop app") then "Old desktop app"
    else if name == "ZulipElectron" then "Desktop app"
    else if name == "ZulipTerminal" then "Terminal app"
    else if name == "ZulipAndroid" then "Old Android app"
    else if name == "ZulipiOS" then "Old iOS app"
    else if name == "ZulipMobile" then "Mobile app (React Native)"
    else if name == "ZulipFlutter" || name == "ZulipMobile/flutter" then "Mobile app beta (Flutter)"
    else if name == "ZulipPython" || name == "API: Python" then "Python API"
    else if StartsWith(name, "Zulip") && EndsWith(name, "Webhook") then Middle(name, 5, 7) + " webhook"
    else name
  }

  /** Integrations are named by what stands between Zulip and Webhook. */
  lemma WebhookLabel(x: string)
    ensures ClientLabel("Zulip" + x + "Webhook") == x + " webhook"
  {
    var name := "Zulip" + x + "Webhook";
    assert name[0] == 'Z' && |name| == |x| + 12 && name[|name| - 1] == 'k';
    assert name[|name| - 7..] == "Webhook" && name[..5] == "Zulip" && name[5..|name| - 7] == x;
    assert "ZulipElectron"[12] == 'n' && "ZulipTerminal"[12] == 'l' && "ZulipAndroid"[11] == 'd' && "ZulipiOS"[7] == 'S';
    assert "ZulipMobile"[10] == 'e' && "ZulipFlutter"[11] == 'r' && "ZulipMobile/flutter"[18] == 'r' && "ZulipPython"[10] == 'n';
  }

  lemma DesktopLabel(x: string)
    ensures ClientLabel("desktop app" + x) == "Old desktop app"
  {
    var name := "desktop app" + x;
    assert name[0] == 'd' && "website"[0] == 'w' && name[..11] == "desktop app";
  }

  lemma NamedLabels()
    ensures ClientLabel("website") == "Web app" && ClientLabel("ZulipElectron") == "Desktop app"
    ensures ClientLabel("ZulipTerminal") == "Terminal app" && ClientLabel("ZulipAndroid") == "Old Android app"
    ensures ClientLabel("ZulipiOS") == "Old iOS app" && ClientLabel("ZulipMobile") == "Mobile app (React Native)"
    ensures ClientLabel("ZulipFlutter") == ClientLabel("ZulipMobile/flutter") == "Mobile app beta (Flutter)"
    ensures ClientLabel("ZulipPython") == ClientLabel("API: Python") == "Python API"
  {
    DesktopAndTerminal();
    MobileAndApi();
    hide ClientLabel;
  }

  lemma DesktopAndTerminal()
    ensures ClientLabel("website") == "Web app" && ClientLabel("ZulipElectron") == "Desktop app"
    ensures ClientLabel("ZulipTerminal") == "Terminal app" && ClientLabel("ZulipAndroid") == "Old Android app"
    ensures ClientLabel("ZulipiOS") == "Old iOS app"
  {
    assert "ZulipElectron"[5] == 'E' && "ZulipTerminal"[5] == 'T' && "ZulipAndroid"[5] == 'A' && "ZulipiOS"[5] == 'i';
    assert "desktop app"[0] == 'd' && "website"[0] == 'w';
  }

  lemma MobileAndApi()
    ensures ClientLabel("ZulipMobile") == "Mobile app (React Native)"
    ensures ClientLabel("ZulipFlutter") == ClientLabel("ZulipMobile/flutter") == "Mobile app beta (Flutter)"
    ensures ClientLabel("ZulipPython") == ClientLabel("API: Python") == "Python API"
  {
    assert "ZulipElectron"[5] == 'E' && "ZulipTerminal"[5] == 'T' && "ZulipAndroid"[5] == 'A' && "ZulipiOS"[5] == 'i';
    assert "ZulipMobile"[5] == 'M' && "ZulipFlutter"[5] == 'F' && "ZulipMobile/flutter"[5] == 'M' && "ZulipPython"[5] == 'P';
    assert |"ZulipMobile/flutter"| == 19 && |"ZulipMobile"| == 11 && "API: Python"[0] == 'A' && "desktop app"[0] == 'd';
  }

  /** Every other client keeps its name. */
  lemma OtherLabels(name: string)
    ensures ClientLabel(name) == name
         || name in {"website", "ZulipElectron", "ZulipTerminal", "ZulipAndroid", "ZulipiOS", "ZulipMobile", "ZulipFlutter",
                     "ZulipMobile/flutter", "ZulipPython", "API: Python"}
         || (exists x :: name == "desktop app" + x) || (exists x :: name == "Zulip" + x + "Webhook")
  {
    if StartsWith(name, "desktop app") {
      assert name == "desktop app" + name[11..];
    } else if StartsWith(name, "Zulip") && EndsWith(name, "Webhook") {
      NoOverlap(name);
      assert name == "Zulip" + name[5..|name| - 7] + "Webhook";
    }
  }

  lemma NoOverlap(name: string)
    requires StartsWith(name, "Zulip") && EndsWith(name, "Webhook")
    ensures |name| >= 12
  {
    var last := name[|name| - 7..];
    assert name[0] == 'Z' && name[1] == 'u' && name[2] == 'l' && name[3] == 'i' && name[4] == 'p';
    assert last == "Webhook" && forall k | 0 <= k < 7 :: last[k] == name[|name| - 7 + k];
    assert last[0] == 'W';
  }

  /* rewrite_client_arrays. */

  type Arrays = map<string, seq<int>>

  /** value_arrays.items(): the labels in the dictionary's order, each with its list. */
  type Items = items: seq<(string, seq<int>)> | DistinctNames(items)

  predicate DistinctNames(items: seq<(string, seq<int>)>) {
    forall i, j | 0 <= i < j < |items| :: items[i].0 != items[j].0
  }

  function ArraysOf(items: Items): (arrays: Arrays)
    ensures forall l :: l in arrays <==> exists i :: 0 <= i < |items| && items[i].0 == l
    ensures forall i | 0 <= i < |items| :: arrays[items[i].0] == items[i].1
  {
    map i | 0 <= i < |items| :: items[i].0 := items[i].1
  }

  /** The values at one index, by label; shorter lists have none. */
  function Column(arrays: Arrays, i: nat): map<string, int> {
    map l | l in arrays && i < |arrays[l]| :: arrays[l][i]
  }

  function NewLabels(arrays: Arrays, relabel: string -> string): map<string, string> {
    map l | l in arrays :: relabel(l)
  }

  /** The length of the first list that gets a new label. */
  function FirstLength(items: seq<(string, seq<int>)>, relabel: string -> string, y: string): Option<nat> {
    if items == [] then None
    else if relabel(items[0].0) == y then Some(|items[0].1|)
    else FirstLength(items[1..], relabel, y)
  }

  /** List `j` is longer than the first one with its new label, so adding it raises IndexError. */
  predicate TooLong(items: seq<(string, seq<int>)>, relabel: string -> string, j: nat)
    requires j < |items|
  {
    var first := FirstLength(items[..j], relabel, relabel(items[j].0));
    first.Some? && first.value < |items[j].1|
  }

  /** `mapped` is `arrays` after relabelling: its labels are the new ones, and at each index a new
      label has the sum of the values of the labels that became it. */
  ghost predicate Collapsed(mapped: Arrays, arrays: Arrays, relabel: string -> string) {
    && (forall y :: y in mapped <==> exists l :: l in arrays && relabel(l) == y)
    && (forall i: nat :: Column(mapped, i) == Grouped(Column(arrays, i), NewLabels(arrays, relabel)))
  }

  /** Collapsing conserves the sum over all labels at every index, whatever labels it merges. */
  lemma CollapsingConserves(mapped: Arrays, arrays: Arrays, relabel: string -> string, i: nat)
    requires Collapsed(mapped, arrays, relabel)
    ensures Sum(Column(mapped, i)) == Sum(Column(arrays, i))
  {
    SumGrouped(Column(arrays, i), NewLabels(arrays, relabel));
  }

  /** A new label's list is as long as the longest that became it. */
  lemma CollapsingKeepsLengths(mapped: Arrays, arrays: Arrays, relabel: string -> string, l: string)
    requires Collapsed(mapped, arrays, relabel) && l in arrays
    ensures relabel(l) in mapped && |arrays[l]| <= |mapped[relabel(l)]|
    ensures |mapped[relabel(l)]| > 0 ==> exists k :: k in arrays && relabel(k) == relabel(l) && |arrays[k]| == |mapped[relabel(l)]|
  {
    hide Sum;
    var y := relabel(l);
    if |arrays[l]| > 0 {
      var i := |arrays[l]| - 1;
      assert l in Column(arrays, i);
      InGrouped(Column(arrays, i), NewLabels(arrays, relabel), l);
      assert y in Column(mapped, i);
    }
    if |mapped[y]| > 0 {
      var i := |mapped[y]| - 1;
      assert y in Column(mapped, i);
      var k :| k in Column(arrays, i) && NewLabels(arrays, relabel)[k] == y;
      InGrouped(Column(arrays, |arrays[k]| - 1), NewLabels(arrays, relabel), k);
      assert y in Column(mapped, |arrays[k]| - 1);
    }
  }

  /** Adds a list to a longer one, as far as it goes. */
  function Plus(a: seq<int>, b: seq<int>): (c: seq<int>)
    requires |b| <= |a|
    ensures |c| == |a| && forall i | 0 <= i < |c| :: c[i] == if i < |b| then a[i] + b[i] else a[i]
  {
    seq(|a|, i requires 0 <= i < |a| => if i < |b| then a[i] + b[i] else a[i])
  }

  /** One more label, whose list is not longer than its new label's. */
  lemma CollapseOneMore(mapped: Arrays, done: Arrays, relabel: string -> string, l: string, values: seq<int>)
    requires Collapsed(mapped, done, relabel) && l !in done
    requires relabel(l) in mapped ==> |values| <= |mapped[relabel(l)]|
    ensures var y := relabel(l);
            Collapsed(mapped[y := if y in mapped then Plus(mapped[y], values) else values], done[l := values], relabel)
  {
    hide Grouped;
    var y := relabel(l);
    var mapped', done' := mapped[y := if y in mapped then Plus(mapped[y], values) else values], done[l := values];
    forall z ensures z in mapped' <==> exists k :: k in done' && relabel(k) == z {
      if z in mapped {
        var k :| k in done && relabel(k) == z;
        assert k in done';
      }
      assert l in done';
      if k :| k in done' && relabel(k) == z {
        assert k in done || k == l;
      }
    }
    forall i: nat ensures Column(mapped', i) == Grouped(Column(done', i), NewLabels(done', relabel)) {
      if y !in mapped {
        assert forall k | k in done :: relabel(k) != y;
      }
      ColumnOneMore(mapped, done, relabel, l, values, i);
    }
  }

  lemma ColumnOneMore(mapped: Arrays, done: Arrays, relabel: string -> string, l: string, values: seq<int>, i: nat)
    requires l !in done && (relabel(l) in mapped ==> |values| <= |mapped[relabel(l)]|)
    requires Column(mapped, i) == Grouped(Column(done, i), NewLabels(done, relabel))
    ensures var y := relabel(l); var done' := done[l := values];
            Column(mapped[y := if y in mapped then Plus(mapped[y], values) else values], i)
            == Grouped(Column(done', i), NewLabels(done', relabel))
  {
    hide Column;
    hide Grouped;
    hide Plus;
    ColumnKeys(done, i);
    var column, y := Column(done, i), relabel(l);
    ColumnAfter(mapped, y, values, i);
    ColumnOfNew(done, l, values, i);
    if i < |values| {
      OneMoreInGroup(column, done, relabel, l, values, values[i]);
    } else {
      NewLabelOnly(column, done, relabel, l, values);
    }
  }

  lemma ColumnKeys(arrays: Arrays, i: nat)
    ensures Column(arrays, i).Keys <= arrays.Keys
  {}

  /** A label without a value at the index does not change the sums there. */
  lemma NewLabelOnly(column: map<string, int>, done: Arrays, relabel: string -> string, l: string, values: seq<int>)
    requires column.Keys <= done.Keys && l !in done
    ensures Grouped(column, NewLabels(done[l := values], relabel)) == Grouped(column, NewLabels(done, relabel))
  {
    hide Grouped;
    SameGroups(column, NewLabels(done, relabel), NewLabels(done[l := values], relabel));
  }

  lemma OneMoreInGroup(column: map<string, int>, done: Arrays, relabel: string -> string, l: string, values: seq<int>,
                       v: int)
    requires column.Keys <= done.Keys && l !in done
    ensures var y, sums := relabel(l), Grouped(column, NewLabels(done, relabel));
            Grouped(column[l := v], NewLabels(done[l := values], relabel))
            == sums[y := (if y in sums then sums[y] else 0) + v]
  {
    hide Grouped;
    NewLabelOnly(column, done, relabel, l, values);
    GroupedInsert(column, NewLabels(done[l := values], relabel), l, v);
  }

  lemma ColumnOfNew(done: Arrays, l: string, values: seq<int>, i: nat)
    requires l !in done
    ensures Column(done[l := values], i) == if i < |values| then Column(done, i)[l := values[i]] else Column(done, i)
  {}

  lemma ColumnAfter(mapped: Arrays, y: string, values: seq<int>, i: nat)
    requires y in mapped ==> |values| <= |mapped[y]|
    ensures var column := Column(mapped, i);
            Column(mapped[y := if y in mapped then Plus(mapped[y], values) else values], i)
            == if i < |values| then column[y := (if y in column then column[y] else 0) + values[i]] else column
  {}

  /** Grouping looks only at the labels of the rows it sums. */
  lemma SameGroups(m: map<string, int>, g: map<string, string>, h: map<string, string>)
    requires m.Keys <= g.Keys && m.Keys <= h.Keys && forall k | k in m :: g[k] == h[k]
    ensures Grouped(m, g) == Grouped(m, h)
  {
    hide Sum;
    assert forall x :: Fiber(m, g, x) == Fiber(m, h, x);
  }

  lemma {:induction false} FirstOfPrefix(items: seq<(string, seq<int>)>, relabel: string -> string, y: string, j: nat)
    requires j < |items|
    ensures FirstLength(items[..j + 1], relabel, y)
         == if FirstLength(items[..j], relabel, y).Some? then FirstLength(items[..j], relabel, y)
            else if relabel(items[j].0) == y then Some(|items[j].1|) else None
    decreases j
  {
    if j > 0 {
      FirstOfPrefix(items[1..], relabel, y, j - 1);
      assert items[..j + 1][1..] == items[1..][..j] && items[..j][1..] == items[1..][..j - 1];
    } else {
      assert items[..1][1..] == [];
    }
  }

  /* On the heap. */

  /** What a dictionary of arrays holds. */
  ghost function Contents(arrays: map<string, array<int>>): Arrays
    reads arrays.Values
  {
    map l | l in arrays :: arrays[l][..]
  }

  /** The dictionary's items with the contents of their arrays. */
  ghost function ItemsOf(items: seq<(string, array<int>)>): (contents: seq<(string, seq<int>)>)
    reads set i | 0 <= i < |items| :: items[i].1
    ensures |contents| == |items| && forall i | 0 <= i < |items| :: contents[i] == (items[i].0, items[i].1[..])
    decreases |items|
  {
    if items == [] then []
    else
      var rest, last := items[..|items| - 1], items[|items| - 1];
      assert forall i | 0 <= i < |rest| :: rest[i] == items[i];
      ItemsOf(rest) + [(last.0, last.1[..])]
  }

  /** `for i in range(len(array)): target[i] += source[i]`; false for an IndexError. */
  method AddInto(target: array<int>, source: array<int>) returns (ok: bool)
    requires target != source
    modifies target
    ensures ok <==> source.Length <= target.Length
    ensures ok ==> target[..] == Plus(old(target[..]), source[..])
  {
    var i := 0;
    while i < source.Length
      invariant 0 <= i <= source.Length && i <= target.Length
      invariant forall k | 0 <= k < i :: target[k] == old(target[k]) + source[k]
      invariant forall k | i <= k < target.Length :: target[k] == old(target[k])
      invariant source[..] == old(source[..])
    {
      if i >= target.Length {
        return false;
      }
      target[i] := target[i] + source[i];
      i := i + 1;
    }
    ok := true;
  }

  /** The list comprehension that copies an array. */
  method Copy(source: array<int>) returns (copy: array<int>)
    ensures fresh(copy) && copy[..] == source[..]
  {
    copy := new int[source.Length];
    var i := 0;
    while i < source.Length
      invariant 0 <= i <= source.Length
      invariant forall k | 0 <= k < i :: copy[k] == source[k]
    {
      copy[i] := source[i];
      i := i + 1;
    }
  }

  /** Different labels have different arrays. */
  ghost predicate Separate(arrays: map<string, array<int>>) {
    forall y, z | y in arrays && z in arrays && y != z :: arrays[y] != arrays[z]
  }

  /** One turn of the loop: accumulates in place into the new label's array, or copies. */
  method Accumulate(mapped: map<string, array<int>>, y: string, source: array<int>)
    returns (ok: bool, after: map<string, array<int>>)
    requires Separate(mapped) && forall z | z in mapped :: mapped[z] != source
    modifies if y in mapped then {mapped[y]} else {}
    ensures ok <==> (y in mapped ==> source.Length <= mapped[y].Length)
    ensures ok ==> Separate(after) && after.Keys == mapped.Keys + {y}
    ensures ok ==> forall z | z in mapped :: after[z] == mapped[z]
    ensures ok && y !in mapped ==> fresh(after[y])
    ensures ok ==> var before := old(Contents(mapped));
                   Contents(after) == before[y := if y in before then Plus(before[y], source[..]) else source[..]]
  {
    ok, after := true, mapped;
    ghost var before := Contents(mapped);
    if y in mapped {
      ok := AddInto(mapped[y], source);
      assert forall z | z in mapped && z != y :: mapped[z][..] == before[z];
    } else {
      var copy := Copy(source);
      after := mapped[y := copy];
    }
  }

  /** The first lengths of the new labels are those of the arrays made so far. */
  ghost predicate Lengths(mapped: Arrays, items: seq<(string, seq<int>)>, relabel: string -> string) {
    forall y :: FirstLength(items, relabel, y) == if y in mapped then Some(|mapped[y]|) else None
  }

  ghost predicate NoneTooLong(items: seq<(string, seq<int>)>, relabel: string -> string, n: nat)
    requires n <= |items|
  {
    forall j | 0 <= j < n :: !TooLong(items, relabel, j)
  }

  lemma NoneTooLongYet(items: seq<(string, seq<int>)>, relabel: string -> string, n: nat)
    requires n <= |items|
    ensures n == 0 ==> NoneTooLong(items, relabel, n)
    ensures n < |items| && NoneTooLong(items, relabel, n) && !TooLong(items, relabel, n) ==> NoneTooLong(items, relabel, n + 1)
  {}

  lemma NoneAtAll(items: seq<(string, seq<int>)>, relabel: string -> string)
    requires NoneTooLong(items, relabel, |items|)
    ensures !exists j :: 0 <= j < |items| && TooLong(items, relabel, j)
  {
    hide TooLong;
  }

  /** The loop's body on item `j`. */
  method Turn(items: seq<(string, array<int>)>, ghost given: Items, relabel: string -> string, j: nat,
              mapped: map<string, array<int>>)
    returns (ok: bool, after: map<string, array<int>>)
    requires given == ItemsOf(items) && j < |items| && DistinctNames(given[..j])
    requires Separate(mapped) && forall y, i | y in mapped && 0 <= i < |items| :: mapped[y] != items[i].1
    requires Lengths(Contents(mapped), given[..j], relabel) && Collapsed(Contents(mapped), ArraysOf(given[..j]), relabel)
    modifies mapped.Values
    ensures ItemsOf(items) == given && (ok <==> !TooLong(given, relabel, j))
    ensures ok ==> Separate(after) && forall y | y in after :: fresh(after[y]) || (y in mapped && after[y] == mapped[y])
    ensures ok ==> DistinctNames(given[..j + 1]) && Lengths(Contents(after), given[..j + 1], relabel)
    ensures ok ==> Collapsed(Contents(after), ArraysOf(given[..j + 1]), relabel)
  {
    hide Collapsed;
    hide Plus;
    hide Separate;
    hide TooLong;
    hide Lengths;
    var name, source := items[j].0, items[j].1;
    assert given[j] == (name, source[..]);
    OneMoreItem(Contents(mapped), given, relabel, j);
    ok, after := Accumulate(mapped, relabel(name), source);
    assert forall i | 0 <= i < |items| :: items[i].1[..] == given[i].1;
  }

  /** rewrite_client_arrays, for any label map; None for an IndexError, which is raised exactly when
      some list is longer than the first with its new label. The results are new arrays, and none of
      the given ones changes although the results are summed up in place. */
  method RewriteArrays(items: seq<(string, array<int>)>, relabel: string -> string)
    returns (result: Option<map<string, array<int>>>)
    requires DistinctNames(ItemsOf(items))
    ensures ItemsOf(items) == old(ItemsOf(items))
    ensures result.None? <==> exists j :: 0 <= j < |items| && TooLong(ItemsOf(items), relabel, j)
    ensures result.Some? ==> Separate(result.value) && forall y | y in result.value :: fresh(result.value[y])
    ensures result.Some? ==> Collapsed(Contents(result.value), ArraysOf(ItemsOf(items)), relabel)
  {
    hide Collapsed;
    hide Separate;
    hide TooLong;
    hide Lengths;
    hide NoneTooLong;
    hide Contents;
    hide ArraysOf;
    var mapped: map<string, array<int>> := map[];
    ghost var given := ItemsOf(items);
    NothingYet(relabel);
    NoneTooLongYet(given, relabel, 0);
    assert given[..0] == [];
    var j := 0;
    while j < |items|
      invariant 0 <= j <= |items| && DistinctNames(given[..j]) && ItemsOf(items) == given
      invariant Separate(mapped) && forall y | y in mapped :: fresh(mapped[y])
      invariant NoneTooLong(given, relabel, j)
      invariant Lengths(Contents(mapped), given[..j], relabel)
      invariant Collapsed(Contents(mapped), ArraysOf(given[..j]), relabel)
    {
      var ok, after := Turn(items, given, relabel, j, mapped);
      if !ok {
        return None;
      }
      NoneTooLongYet(given, relabel, j);
      mapped := after;
      j := j + 1;
    }
    assert given[..|items|] == given;
    NoneAtAll(given, relabel);
    result := Some(mapped);
  }

  lemma NothingYet(relabel: string -> string)
    ensures Collapsed(map[], map[], relabel) && Lengths(map[], [], relabel) && Separate(map[])
    ensures Contents(map[]) == map[] && ArraysOf([]) == map[]
  {
    assert forall i: nat :: Column(map[], i) == map[];
  }

  /** What the next item does to the collapsed arrays, unless it is too long. */
  lemma OneMoreItem(mapped: Arrays, items: Items, relabel: string -> string, j: nat)
    requires j < |items| && DistinctNames(items[..j])
    requires Lengths(mapped, items[..j], relabel) && Collapsed(mapped, ArraysOf(items[..j]), relabel)
    ensures DistinctNames(items[..j + 1])
    ensures var y, values := relabel(items[j].0), items[j].1;
            && (TooLong(items, relabel, j) <==> y in mapped && |mapped[y]| < |values|)
            && (!TooLong(items, relabel, j) ==>
                  var after := mapped[y := if y in mapped then Plus(mapped[y], values) else values];
                  Lengths(after, items[..j + 1], relabel) && Collapsed(after, ArraysOf(items[..j + 1]), relabel))
  {
    hide Collapsed;
    var y, values := relabel(items[j].0), items[j].1;
    assert FirstLength(items[..j], relabel, y) == if y in mapped then Some(|mapped[y]|) else None;
    if !TooLong(items, relabel, j) {
      ItemsGrow(items, j);
      CollapseOneMore(mapped, ArraysOf(items[..j]), relabel, items[j].0, values);
      forall z { FirstOfPrefix(items, relabel, z, j); }
    }
  }

  lemma ItemsGrow(items: Items, j: nat)
    requires j < |items|
    ensures DistinctNames(items[..j]) && DistinctNames(items[..j + 1])
    ensures items[j].0 !in ArraysOf(items[..j]) && ArraysOf(items[..j + 1]) == ArraysOf(items[..j])[items[j].0 := items[j].1]
  {
    hide ArraysOf;
    var before, after := items[..j], items[..j + 1];
    assert forall i | 0 <= i < j :: after[i] == before[i];
    forall l ensures l in ArraysOf(after) <==> l in ArraysOf(before) || l == items[j].0 {
      if i :| 0 <= i < j && before[i].0 == l {
        assert after[i].0 == l;
      }
      assert after[j].0 == items[j].0;
    }
    forall l | l in ArraysOf(before) ensures ArraysOf(after)[l] == ArraysOf(before)[l] {
      var i :| 0 <= i < j && before[i].0 == l;
      assert after[i].0 == l;
    }
  }

  /** rewrite_client_arrays. */
  method RewriteClientArrays(items: seq<(string, array<int>)>) returns (result: Option<map<string, array<int>>>)
    requires DistinctNames(ItemsOf(items))
    ensures ItemsOf(items) == old(ItemsOf(items))
    ensures result.None? <==> exists j :: 0 <= j < |items| && TooLong(ItemsOf(items), ClientLabel, j)
    ensures result.Some? ==> Separate(result.value) && forall y | y in result.value :: fresh(result.value[y])
    ensures result.Some? ==> Collapsed(Contents(result.value), ArraysOf(ItemsOf(items)), ClientLabel)
  {
    result := RewriteArrays(items, ClientLabel);
  }

  /** Lists of one length, as a chart has them, are never too long. */
  lemma {:induction false} EqualLengthsFit(items: seq<(string, seq<int>)>, relabel: string -> string, n: nat, y: string)
    requires forall i | 0 <= i < |items| :: |items[i].1| == n
    ensures FirstLength(items, relabel, y) == None || FirstLength(items, relabel, y) == Some(n)
    decreases |items|
  {
    if items != [] {
      EqualLengthsFit(items[1..], relabel, n, y);
    }
  }
}
