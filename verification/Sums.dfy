/** Finite sums over maps, and the meaning of SQL's `SELECT g, sum(v) ... GROUP BY g`.
    A column of values is a `map<K, int>` from row keys to values, and a grouping
    column is a `map<K, G>` over the same rows. */
module Sums {

  /** The sum of all values of `m`. */
  ghost function Sum<K>(m: map<K, int>): int
    decreases |m|
  {
    if m == map[] then 0
    else
      var k :| k in m;
      m[k] + Sum(m - {k})
  }

  /** The part of `m` whose rows fall into group `x`. */
  ghost function Fiber<K, G>(m: map<K, int>, g: map<K, G>, x: G): map<K, int>
    requires m.Keys <= g.Keys
  {
    map k | k in m && g[k] == x :: m[k]
  }

  /** `SELECT g, sum(m) GROUP BY g`: one row per group that occurs. */
  ghost function Grouped<K, G>(m: map<K, int>, g: map<K, G>): map<G, int>
    requires m.Keys <= g.Keys
  {
    map x | x in (set k | k in m :: g[k]) :: Sum(Fiber(m, g, x))
  }

  /** Picking another row first gives the same sum. */
  lemma {:induction false} SumRemove<K>(m: map<K, int>, k: K)
    requires k in m
    ensures Sum(m) == m[k] + Sum(m - {k})
    decreases |m|
  {
    var first :| first in m && Sum(m) == m[first] + Sum(m - {first});
    if first != k {
      SumRemove(m - {first}, k);
      SumRemove(m - {k}, first);
      assert m - {first} - {k} == m - {k} - {first};
    }
  }

  lemma SumInsert<K>(m: map<K, int>, k: K, v: int)
    requires k !in m
    ensures Sum(m[k := v]) == Sum(m) + v
  {
    SumRemove(m[k := v], k);
    assert m[k := v] - {k} == m;
  }

  lemma SumUpdate<K>(m: map<K, int>, k: K, v: int)
    requires k in m
    ensures Sum(m[k := v]) == Sum(m) - m[k] + v
  {
    SumRemove(m, k);
    SumInsert(m - {k}, k, v);
    assert (m - {k})[k := v] == m[k := v];
  }

  /** A sum splits over a partition of the rows. */
  lemma {:induction false} SumUnion<K>(a: map<K, int>, b: map<K, int>)
    requires a.Keys !! b.Keys
    ensures Sum(a + b) == Sum(a) + Sum(b)
    decreases |b|
  {
    if b == map[] {
      assert a + b == a;
    } else {
      var k :| k in b;
      SumUnion(a, b - {k});
      SumRemove(b, k);
      UnionStep(a, b, k);
    }
  }

  lemma UnionStep<K>(a: map<K, int>, b: map<K, int>, k: K)
    requires a.Keys !! b.Keys && k in b
    ensures Sum(a + b) == b[k] + Sum(a + (b - {k}))
  {
    SumRemove(a + b, k);
    assert a + b - {k} == a + (b - {k});
  }

  /** Summing a constant one counts the rows. */
  lemma {:induction false} SumOfOnes<K>(m: map<K, int>)
    requires forall k | k in m :: m[k] == 1
    ensures Sum(m) == |m|
    decreases |m|
  {
    if m != map[] {
      var k :| k in m;
      SumRemove(m, k);
      SumOfOnes(m - {k});
      assert (m - {k}).Keys == m.Keys - {k};
    }
  }

  /** A group occurs exactly when it has rows. */
  lemma GroupedAt<K, G>(m: map<K, int>, g: map<K, G>, x: G)
    requires m.Keys <= g.Keys
    ensures x in Grouped(m, g) <==> Fiber(m, g, x) != map[]
    ensures x in Grouped(m, g) ==> Grouped(m, g)[x] == Sum(Fiber(m, g, x))
  {
    assert forall k | k in m && g[k] == x :: k in Fiber(m, g, x);
  }

  lemma InGrouped<K, G>(m: map<K, int>, g: map<K, G>, k: K)
    requires m.Keys <= g.Keys && k in m
    ensures g[k] in Grouped(m, g)
  {}

  /** `count(*) GROUP BY g`: a group's count is the number of its rows. */
  lemma GroupedCount<K, G>(m: map<K, int>, g: map<K, G>, x: G)
    requires m.Keys <= g.Keys && forall k | k in m :: m[k] == 1
    ensures x in Grouped(m, g) <==> Fiber(m, g, x) != map[]
    ensures x in Grouped(m, g) ==> Grouped(m, g)[x] == |Fiber(m, g, x).Keys|
  {
    GroupedAt(m, g, x);
    SumOfOnes(Fiber(m, g, x));
  }

  /** An injective map has as many values as keys. */
  lemma {:induction false} ImageSize<A, B>(f: map<A, B>)
    requires forall a, b | a in f && b in f && f[a] == f[b] :: a == b
    ensures |f.Keys| == |f.Values|
    decreases |f|
  {
    if f != map[] {
      var k :| k in f;
      var rest := f - {k};
      assert rest.Keys == f.Keys - {k};
      forall v | v in f.Values && v != f[k] ensures v in rest.Values {
        var a :| a in f && f[a] == v;
        assert a in rest;
      }
      assert rest.Values == f.Values - {f[k]};
      ImageSize(rest);
    }
  }

  /** A list without repetitions has as many members as elements. */
  lemma {:induction false} SetSize<T>(s: seq<T>)
    requires forall i, j | 0 <= i < j < |s| :: s[i] != s[j]
    ensures |set x | x in s| == |s|
    decreases |s|
  {
    if s == [] {
      assert (set x | x in s) == {};
    } else {
      var rest, last := s[..|s| - 1], s[|s| - 1];
      SetSize(rest);
      assert s == rest + [last];
      assert last !in rest;
      assert (set x | x in s) == (set x | x in rest) + {last};
    }
  }

  /** `f` renames the rows of `a` to those of `b`, one to one. */
  ghost predicate Renames<A, B>(f: map<A, B>, a: map<A, int>, b: map<B, int>) {
    && f.Keys == a.Keys && f.Values == b.Keys
    && (forall j | j in a :: f[j] in b && b[f[j]] == a[j])
    && (forall j, k | j in a && k in a && f[j] == f[k] :: j == k)
  }

  /** Renaming the rows of a column does not change its sum. */
  lemma {:induction false} SumRenamed<A, B>(f: map<A, B>, a: map<A, int>, b: map<B, int>)
    requires Renames(f, a, b)
    ensures Sum(a) == Sum(b) && (a == map[] <==> b == map[])
    decreases |a|
  {
    if a == map[] {
      assert f == map[] && b.Keys == {};
    } else {
      var k :| k in a;
      SumRemove(a, k);
      SumRemove(b, f[k]);
      RenamesRest(f, a, b, k);
      SumRenamed(f - {k}, a - {k}, b - {f[k]});
      assert f[k] in b;
    }
  }

  lemma RenamesRest<A, B>(f: map<A, B>, a: map<A, int>, b: map<B, int>, k: A)
    requires Renames(f, a, b) && k in a
    ensures Renames(f - {k}, a - {k}, b - {f[k]})
  {
    var rest := f - {k};
    forall i | i in b && i != f[k] ensures i in rest.Values {
      var j :| j in f && f[j] == i;
      assert j in rest;
    }
    assert rest.Values == (b - {f[k]}).Keys;
  }

  /** How one more row changes a grouped sum: its group's total grows, every other group stays. */
  lemma GroupedInsert<K, G>(m: map<K, int>, g: map<K, G>, k: K, v: int)
    requires k !in m && k in g && m.Keys <= g.Keys
    ensures Grouped(m[k := v], g)
         == Grouped(m, g)[g[k] := (if g[k] in Grouped(m, g) then Grouped(m, g)[g[k]] else 0) + v]
  {
    var m' := m[k := v];
    var x0 := g[k];
    assert Fiber(m', g, x0) == Fiber(m, g, x0)[k := v];
    SumInsert(Fiber(m, g, x0), k, v);
    if x0 !in Grouped(m, g) {
      assert Fiber(m, g, x0) == map[];
    }
    forall x | x != x0
      ensures Fiber(m', g, x) == Fiber(m, g, x)
    {}
    var expected := Grouped(m, g)[x0 := (if x0 in Grouped(m, g) then Grouped(m, g)[x0] else 0) + v];
    assert Grouped(m', g).Keys == expected.Keys by {
      assert forall j | j in m :: j in m' && m'[j] == m[j];
      assert k in m';
    }
  }

  /** Grouping neither loses nor duplicates: the group totals add up to the total. */
  lemma {:induction false} SumGrouped<K, G>(m: map<K, int>, g: map<K, G>)
    requires m.Keys <= g.Keys
    ensures Sum(Grouped(m, g)) == Sum(m)
    decreases |m|
  {
    if m == map[] {
      assert Grouped(m, g) == map[];
    } else {
      var k :| k in m;
      SumGrouped(m - {k}, g);
      SumRemove(m, k);
      GroupedStep(m, g, k);
    }
  }

  lemma GroupedStep<K, G>(m: map<K, int>, g: map<K, G>, k: K)
    requires m.Keys <= g.Keys && k in m
    ensures Sum(Grouped(m, g)) == m[k] + Sum(Grouped(m - {k}, g))
  {
    hide Sum;
    hide Grouped;
    var rest := m - {k};
    assert rest[k := m[k]] == m;
    GroupedInsert(rest, g, k, m[k]);
    AddTo(Grouped(rest, g), g[k], m[k]);
  }

  lemma AddTo<G>(m: map<G, int>, x: G, v: int)
    ensures Sum(m[x := (if x in m then m[x] else 0) + v]) == Sum(m) + v
  {
    if x in m {
      SumUpdate(m, x, m[x] + v);
    } else {
      SumInsert(m, x, v);
    }
  }

  /** An outer GROUP BY over an inner GROUP BY is one GROUP BY, whenever the outer group is
      determined by the inner one. */
  lemma GroupedTwice<K, G, H>(m: map<K, int>, g: map<K, G>, h: map<G, H>, gh: map<K, H>)
    requires m.Keys <= g.Keys && m.Keys <= gh.Keys
    requires forall k | k in m :: g[k] in h && h[g[k]] == gh[k]
    ensures Grouped(m, g).Keys <= h.Keys
    ensures Grouped(Grouped(m, g), h) == Grouped(m, gh)
  {
    var inner := Grouped(m, g);
    assert forall x | x in inner :: x in h by {
      forall x | x in inner ensures x in h {
        var k :| k in m && g[k] == x;
      }
    }
    assert Grouped(inner, h).Keys == Grouped(m, gh).Keys by {
      forall y | y in Grouped(m, gh) ensures y in Grouped(inner, h) {
        var k :| k in m && gh[k] == y;
        assert g[k] in inner;
      }
    }
    forall y | y in Grouped(m, gh)
      ensures Grouped(inner, h)[y] == Grouped(m, gh)[y]
    {
      FiberOfGrouped(m, g, h, gh, y);
      SumGrouped(Fiber(m, gh, y), g);
    }
  }

  lemma FiberOfGrouped<K, G, H>(m: map<K, int>, g: map<K, G>, h: map<G, H>, gh: map<K, H>, y: H)
    requires m.Keys <= g.Keys && m.Keys <= gh.Keys
    requires forall k | k in m :: g[k] in h && h[g[k]] == gh[k]
    requires Grouped(m, g).Keys <= h.Keys
    ensures Fiber(Grouped(m, g), h, y) == Grouped(Fiber(m, gh, y), g)
  {
    var left, right := Fiber(Grouped(m, g), h, y), Grouped(Fiber(m, gh, y), g);
    forall x | x in left ensures x in right {
      var k :| k in m && g[k] == x;
      assert k in Fiber(m, gh, y);
    }
    forall x | x in right ensures x in left && left[x] == right[x] {
      var k :| k in Fiber(m, gh, y) && g[k] == x;
      assert x in Grouped(m, g);
      assert Fiber(m, g, x) == Fiber(Fiber(m, gh, y), g, x);
    }
  }

  /** A sum of non-negative values bounds each of its terms. */
  lemma {:induction false} SumNonNegative<K>(m: map<K, int>)
    requires forall k | k in m :: 0 <= m[k]
    ensures 0 <= Sum(m)
    decreases |m|
  {
    if m != map[] {
      var k :| k in m;
      SumRemove(m, k);
      SumNonNegative(m - {k});
    }
  }
}
