/** The order in which a chart lists client labels (analytics/views/stats.py). */
module ClientRanking {
  import opened Sums

  /* Sorting. */

  ghost predicate StrictOrder(s: set<string>, before: (string, string) -> bool) {
    && (forall a | a in s :: !before(a, a))
    && (forall a, b | a in s && b in s && a != b :: before(a, b) || before(b, a))
    && (forall a, b, c | a in s && b in s && c in s && before(a, b) && before(b, c) :: before(a, c))
  }

  lemma {:induction false} LeastExists(s: set<string>, before: (string, string) -> bool)
    requires s != {} && StrictOrder(s, before)
    ensures exists m :: m in s && forall x | x in s && x != m :: before(m, x)
    decreases s
  {
    var a :| a in s;
    var rest := s - {a};
    if rest == {} {
      assert s == {a};
    } else {
      LeastExists(rest, before);
      var m :| m in rest && forall x | x in rest && x != m :: before(m, x);
      var least := if before(a, m) then a else m;
      assert least in s && forall x | x in s && x != least :: before(least, x);
    }
  }

  function Least(s: set<string>, before: (string, string) -> bool): (m: string)
    requires s != {} && StrictOrder(s, before)
    ensures m in s && forall x | x in s && x != m :: before(m, x)
  {
    LeastExists(s, before);
    var m :| m in s && forall x | x in s && x != m :: before(m, x);
    m
  }

  /** sorted: each element once, in the given order. */
  function Sorted(s: set<string>, before: (string, string) -> bool): seq<string>
    requires StrictOrder(s, before)
    decreases s
  {
    if s == {} then [] else [Least(s, before)] + Sorted(s - {Least(s, before)}, before)
  }

  /** Sorting yields a permutation, in order. */
  lemma {:induction false} SortedIsPermutation(s: set<string>, before: (string, string) -> bool)
    requires StrictOrder(s, before)
    ensures var r := Sorted(s, before);
            && |r| == |s| && (forall x :: x in r <==> x in s)
            && (forall i, j | 0 <= i < j < |r| :: before(r[i], r[j]) && r[i] != r[j])
    decreases s
  {
    if s != {} {
      var first := Least(s, before);
      SortedIsPermutation(s - {first}, before);
      var r := Sorted(s, before);
      assert forall i | 0 < i < |r| :: r[i] == Sorted(s - {first}, before)[i - 1];
    }
  }

  /** Strings compare by their first difference; a proper prefix comes first. */
  predicate Less(a: string, b: string)
    decreases |a|
  {
    if b == "" then false
    else if a == "" then true
    else a[0] < b[0] || (a[0] == b[0] && Less(a[1..], b[1..]))
  }

  lemma {:induction false} LessIsTotal(a: string, b: string)
    ensures !Less(a, a)
    ensures a == b || Less(a, b) || Less(b, a)
    decreases |a|
  {
    if a != "" && b != "" {
      LessIsTotal(a[1..], b[1..]);
      assert a == [a[0]] + a[1..] && b == [b[0]] + b[1..];
    } else if a != "" {
      LessIsTotal(a[1..], a[1..]);
    }
  }

  lemma {:induction false} LessIsTransitive(a: string, b: string, c: string)
    requires Less(a, b) && Less(b, c)
    ensures Less(a, c)
    decreases |a|
  {
    if a != "" && a[0] == b[0] && b[0] == c[0] {
      LessIsTransitive(a[1..], b[1..], c[1..]);
    }
  }

  /* sort_by_totals. */

  function Total(values: seq<int>): int {
    if values == [] then 0 else values[0] + Total(values[1..])
  }

  lemma {:induction false} TotalIsSum(values: seq<int>)
    ensures Total(values) == Sum(map i: int | 0 <= i < |values| :: values[i])
    decreases |values|
  {
    hide Sum;
    if values == [] {
      NothingToSum(values);
    } else {
      var n := |values| - 1;
      var rest := map i: int | 0 <= i < n :: values[..n][i];
      TotalIsSum(values[..n]);
      assert (map i: int | 0 <= i < |values| :: values[i]) == rest[n := values[n]];
      SumInsert(rest, n, values[n]);
      TotalOfLast(values);
    }
  }

  lemma NothingToSum(values: seq<int>)
    requires values == []
    ensures Sum(map i: int | 0 <= i < |values| :: values[i]) == 0
  {
    assert (map i: int | 0 <= i < |values| :: values[i]) == map[];
  }

  lemma {:induction false} TotalOfLast(values: seq<int>)
    requires values != []
    ensures Total(values) == Total(values[..|values| - 1]) + values[|values| - 1]
    decreases |values|
  {
    if |values| > 1 {
      TotalOfLast(values[1..]);
      assert values[..|values| - 1][1..] == values[1..][..|values| - 2];
    }
  }

  /** sort_by_totals lists first the label with the larger sum of values and, of two with equal sums, the
      one that is later in the dictionary. */
  lemma OrderOfTotals(valueArrays: map<string, seq<int>>, a: string, b: string)
    requires ByTotals(valueArrays)(a, b)
    ensures a in valueArrays && b in valueArrays
    ensures var x, y := Sum(map i: int | 0 <= i < |valueArrays[a]| :: valueArrays[a][i]), Sum(map i: int | 0 <= i < |valueArrays[b]| :: valueArrays[b][i]);
            x > y || (x == y && exists n :: FirstDifference(b, a, n))
  {
    TotalIsSum(valueArrays[a]);
    TotalIsSum(valueArrays[b]);
    hide Total;
    hide Sum;
    if Less(b, a) {
      LessIs(b, a);
    }
  }

  /** `a` and `b` agree up to position `n`, where `a` ends or has the smaller character. */
  predicate FirstDifference(a: string, b: string, n: int) {
    0 <= n <= |a| && n < |b| && a[..n] == b[..n] && (n == |a| || a[n] < b[n])
  }

  lemma {:induction false} LessIs(a: string, b: string)
    requires Less(a, b)
    ensures exists n :: FirstDifference(a, b, n)
    decreases |a|
  {
    if a == "" || a[0] < b[0] {
      assert FirstDifference(a, b, 0);
    } else {
      LessIs(a[1..], b[1..]);
      var n :| FirstDifference(a[1..], b[1..], n);
      assert a[..n + 1] == [a[0]] + a[1..][..n] && b[..n + 1] == [b[0]] + b[1..][..n];
      assert FirstDifference(a, b, n + 1);
    }
  }

  /** (total, label), in descending order. */
  function ByTotals(valueArrays: map<string, seq<int>>): (string, string) -> bool {
    (a: string, b: string) =>
      a in valueArrays && b in valueArrays
      && (Total(valueArrays[a]) > Total(valueArrays[b]) || (Total(valueArrays[a]) == Total(valueArrays[b]) && Less(b, a)))
  }

  lemma ByTotalsIsOrder(valueArrays: map<string, seq<int>>)
    ensures StrictOrder(valueArrays.Keys, ByTotals(valueArrays))
  {
    hide Total;
    var before := ByTotals(valueArrays);
    forall a, b | a in valueArrays && b in valueArrays
      ensures !before(a, a) && (a == b || before(a, b) || before(b, a))
    {
      LessIsTotal(a, b);
    }
    forall a, b, c | a in valueArrays && b in valueArrays && c in valueArrays && before(a, b) && before(b, c)
      ensures before(a, c)
    {
      if Less(b, a) && Less(c, b) {
        LessIsTransitive(c, b, a);
      }
    }
  }

  /** sort_by_totals. */
  function SortByTotals(valueArrays: map<string, seq<int>>): (order: seq<string>)
    ensures |order| == |valueArrays| && (forall x :: x in order <==> x in valueArrays)
    ensures forall i, j | 0 <= i < j < |order| :: order[i] != order[j] && ByTotals(valueArrays)(order[i], order[j])
  {
    ByTotalsIsOrder(valueArrays);
    SortedIsPermutation(valueArrays.Keys, ByTotals(valueArrays));
    Sorted(valueArrays.Keys, ByTotals(valueArrays))
  }

  /* sort_client_labels. Sort values are kept times ten. */

  const SCALE := 10

  /** `v` is the position of `x` in `order`, or None. */
  ghost predicate Position(order: seq<string>, x: string, i: int) {
    0 <= i < |order| && order[i] == x
  }

  /** The sort value of `x`: its realm position, unless a user position that is no later, ranked
      just before, replaces it. */
  ghost predicate HasValue(realm: seq<string>, user: seq<string>, x: string, v: int) {
    || (exists i :: Position(realm, x, i) && v == SCALE * i && forall j | Position(user, x, j) :: v <= SCALE * j - 1)
    || (exists j :: Position(user, x, j) && v == SCALE * j - 1 && forall i | Position(realm, x, i) :: v <= SCALE * i)
  }

  /** label_sort_values after the whole realm order and a part of the user order. */
  ghost predicate Values(values: map<string, int>, realm: seq<string>, user: seq<string>) {
    && (forall x :: x in values <==> x in realm || x in user)
    && (forall x | x in values :: HasValue(realm, user, x, values[x]))
  }

  function ByValue(values: map<string, int>): (string, string) -> bool {
    (a: string, b: string) => a in values && b in values && values[a] < values[b]
  }

  ghost predicate NoRepeats(s: seq<string>) {
    forall i, j | 0 <= i < j < |s| :: s[i] != s[j]
  }

  lemma RealmValues(values: map<string, int>, realm: seq<string>)
    requires NoRepeats(realm)
    requires forall x :: x in values <==> x in realm
    requires forall i | 0 <= i < |realm| :: values[realm[i]] == SCALE * i
    ensures Values(values, realm, [])
  {
    forall x | x in values ensures HasValue(realm, [], x, values[x]) {
      var i :| 0 <= i < |realm| && realm[i] == x;
      assert Position(realm, x, i);
    }
  }

  /** One turn of the loop over the user order. */
  lemma UserValue(values: map<string, int>, realm: seq<string>, user: seq<string>, x: string)
    requires Values(values, realm, user) && NoRepeats(user + [x]) && NoRepeats(realm)
    ensures var j := |user|;
            var v := if x in values && values[x] < SCALE * j - 1 then values[x] else SCALE * j - 1;
            Values(values[x := v], realm, user + [x])
  {
    var j, longer := |user|, user + [x];
    var v := if x in values && values[x] < SCALE * j - 1 then values[x] else SCALE * j - 1;
    assert longer[j] == x && forall i | 0 <= i < j :: longer[i] == user[i];
    assert forall i :: Position(longer, x, i) <==> i == j;
    assert x !in user;
    forall y | y != x && y in values ensures HasValue(realm, longer, y, values[y]) {
      assert forall i :: Position(longer, y, i) <==> Position(user, y, i);
    }
    assert HasValue(realm, longer, x, v) by {
      assert Position(longer, x, j);
      if x in values {
        assert HasValue(realm, user, x, values[x]);
        assert forall i :: !Position(user, x, i);
        var i :| Position(realm, x, i) && values[x] == SCALE * i;
        assert forall k | Position(realm, x, k) :: k == i;
      } else {
        assert forall i :: !Position(realm, x, i);
      }
    }
  }

  /** No two labels share a sort value. */
  lemma ValuesAreDistinct(values: map<string, int>, realm: seq<string>, user: seq<string>)
    requires Values(values, realm, user)
    ensures forall a, b | a in values && b in values && values[a] == values[b] :: a == b
  {
    forall a, b | a in values && b in values && values[a] == values[b] ensures a == b {
      assert HasValue(realm, user, a, values[a]) && HasValue(realm, user, b, values[b]);
      if values[a] % SCALE == 0 {
        var i :| Position(realm, a, i) && values[a] == SCALE * i;
        var j :| Position(realm, b, j) && values[b] == SCALE * j;
        assert i == j;
      } else {
        var i :| Position(user, a, i) && values[a] == SCALE * i - 1;
        var j :| Position(user, b, j) && values[b] == SCALE * j - 1;
        assert i == j;
      }
    }
  }

  /** `labels` are those of both orders, each once, by ascending sort value. */
  ghost predicate Ranked(labels: seq<string>, realm: seq<string>, user: seq<string>) {
    && NoRepeats(labels) && (forall x :: x in labels <==> x in realm || x in user)
    && exists values :: Values(values, realm, user) && InOrder(labels, values)
  }

  ghost predicate InOrder(labels: seq<string>, values: map<string, int>) {
    && (forall x | x in labels :: x in values)
    && (forall i, j | 0 <= i < j < |labels| :: values[labels[i]] < values[labels[j]])
  }

  /** The dictionary comprehension over the realm order. */
  method RealmSortValues(order: seq<string>) returns (values: map<string, int>)
    requires NoRepeats(order)
    ensures Values(values, order, [])
  {
    values := map[];
    var i := 0;
    while i < |order|
      invariant 0 <= i <= |order|
      invariant forall x :: x in values <==> x in order[..i]
      invariant forall k | 0 <= k < i :: values[order[k]] == SCALE * k
    {
      values := values[order[i] := SCALE * i];
      i := i + 1;
    }
    assert order[..|order|] == order;
    RealmValues(values, order);
  }

  /** sort_client_labels. */
  method SortClientLabels(everyone: map<string, seq<int>>, user: map<string, seq<int>>) returns (labels: seq<string>)
    ensures Ranked(labels, SortByTotals(everyone), SortByTotals(user))
  {
    var realmOrder, userOrder := SortByTotals(everyone), SortByTotals(user);
    hide HasValue;
    hide Values;
    hide Sorted;
    hide ByTotals;
    var values := RealmSortValues(realmOrder);
    var j := 0;
    while j < |userOrder|
      invariant 0 <= j <= |userOrder| && Values(values, realmOrder, userOrder[..j])
    {
      var x := userOrder[j];
      assert userOrder[..j] + [x] == userOrder[..j + 1];
      UserValue(values, realmOrder, userOrder[..j], x);
      values := values[x := if x in values && values[x] < SCALE * j - 1 then values[x] else SCALE * j - 1];
      j := j + 1;
    }
    assert userOrder[..|userOrder|] == userOrder;
    ValuesAreDistinct(values, realmOrder, userOrder);
    ByValueIsOrder(values);
    labels := Sorted(values.Keys, ByValue(values));
    SortedIsRanked(labels, values, realmOrder, userOrder);
  }

  lemma SortedIsRanked(labels: seq<string>, values: map<string, int>, realm: seq<string>, user: seq<string>)
    requires Values(values, realm, user) && StrictOrder(values.Keys, ByValue(values))
    requires labels == Sorted(values.Keys, ByValue(values))
    ensures Ranked(labels, realm, user)
  {
    hide HasValue;
    SortedIsPermutation(values.Keys, ByValue(values));
    hide Sorted;
    assert forall i, j | 0 <= i < j < |labels| :: ByValue(values)(labels[i], labels[j]);
    assert InOrder(labels, values);
  }

  lemma ByValueIsOrder(values: map<string, int>)
    requires forall a, b | a in values && b in values && values[a] == values[b] :: a == b
    ensures StrictOrder(values.Keys, ByValue(values))
  {}

  /* The top of the list. */

  /** The first `n` of an order, or all of it. */
  function Top(order: seq<string>, n: nat): set<string> {
    set i | 0 <= i < |order| && i < n :: order[i]
  }

  /** The labels of the realm's top n and the user's top n. */
  function TopOfBoth(realm: seq<string>, user: seq<string>, n: nat): set<string> {
    Top(realm, n) + Top(user, n)
  }

  /** Exactly the labels of either top n have sort values below the bound 10 n - 1. */
  lemma TopIsBelow(values: map<string, int>, realm: seq<string>, user: seq<string>, n: nat, x: string)
    requires Values(values, realm, user) && NoRepeats(realm) && NoRepeats(user) && x in values
    ensures x in TopOfBoth(realm, user, n) <==> values[x] < SCALE * n - 1
  {
    assert HasValue(realm, user, x, values[x]);
    if x in TopOfBoth(realm, user, n) {
      if x in Top(realm, n) {
        var i :| 0 <= i < |realm| && i < n && realm[i] == x;
        assert Position(realm, x, i);
      } else {
        var j :| 0 <= j < |user| && j < n && user[j] == x;
        assert Position(user, x, j);
      }
      assert forall i, k | Position(realm, x, i) && Position(realm, x, k) :: i == k;
      assert forall j, k | Position(user, x, j) && Position(user, x, k) :: j == k;
    }
  }

  lemma {:induction false} SmallPrefix(labels: seq<string>, values: map<string, int>, bound: int, k: nat)
    requires InOrder(labels, values) && k <= |labels|
    requires forall i | 0 <= i < |labels| :: values[labels[i]] < bound <==> i < k
    ensures forall x :: x in labels[..k] <==> x in labels && values[x] < bound
  {
    forall x | x in labels && values[x] < bound ensures x in labels[..k] {
      var i :| 0 <= i < |labels| && labels[i] == x;
    }
  }

  /** How many of the labels lie below a bound; since they are in order, these come first. */
  lemma {:induction false} CountBelow(labels: seq<string>, values: map<string, int>, bound: int) returns (k: nat)
    requires InOrder(labels, values)
    ensures k <= |labels| && forall i | 0 <= i < |labels| :: values[labels[i]] < bound <==> i < k
    decreases |labels|
  {
    if labels == [] {
      k := 0;
    } else {
      var rest := labels[..|labels| - 1];
      assert forall x | x in rest :: x in labels;
      k := CountBelow(rest, values, bound);
      if values[labels[|rest|]] < bound {
        if rest != [] {
          assert labels[|rest| - 1] == rest[|rest| - 1];
          assert values[rest[|rest| - 1]] < bound;
        }
        assert k == |rest|;
        k := k + 1;
      }
    }
  }

  lemma {:induction false} TopSize(order: seq<string>, n: nat)
    ensures |Top(order, n)| <= n
    decreases n
  {
    if n == 0 {
      assert Top(order, 0) == {};
    } else {
      TopSize(order, n - 1);
      if n <= |order| {
        assert Top(order, n) == Top(order, n - 1) + {order[n - 1]};
      } else {
        assert Top(order, n) == Top(order, n - 1);
      }
    }
  }

  /** For every n, the first k labels, k being the size of the union of the realm's top n and the
      user's top n, are exactly that union; so the first 2 n contain both. */
  lemma TopLabelsComeFirst(labels: seq<string>, realm: seq<string>, user: seq<string>, n: nat)
    requires NoRepeats(realm) && NoRepeats(user) && Ranked(labels, realm, user)
    ensures var k := |TopOfBoth(realm, user, n)|;
            && k <= |labels| && k <= 2 * n
            && forall x :: x in labels[..k] <==> x in TopOfBoth(realm, user, n)
  {
    hide HasValue;
    var values :| Values(values, realm, user) && InOrder(labels, values);
    var k := CountBelow(labels, values, SCALE * n - 1);
    SmallPrefix(labels, values, SCALE * n - 1, k);
    forall x | x in labels ensures x in TopOfBoth(realm, user, n) <==> values[x] < SCALE * n - 1 {
      TopIsBelow(values, realm, user, n, x);
    }
    assert (set x | x in labels[..k]) == TopOfBoth(realm, user, n);
    SetSize(labels[..k]);
    TopSize(realm, n);
    TopSize(user, n);
    UnionSize(Top(realm, n), Top(user, n));
  }

  lemma UnionSize(a: set<string>, b: set<string>)
    ensures |a + b| <= |a| + |b|
  {
    assert a + b == a + (b - a);
    assert b == (b - a) + (a * b);
  }

  /** The same for the method's own orders, which list each key once. */
  lemma BusiestClientsComeFirst(labels: seq<string>, everyone: map<string, seq<int>>, user: map<string, seq<int>>,
                                n: nat)
    requires Ranked(labels, SortByTotals(everyone), SortByTotals(user))
    ensures var top := TopOfBoth(SortByTotals(everyone), SortByTotals(user), n);
            |top| <= |labels| && |top| <= 2 * n && forall x :: x in labels[..|top|] <==> x in top
  {
    TopLabelsComeFirst(labels, SortByTotals(everyone), SortByTotals(user), n);
  }
}
