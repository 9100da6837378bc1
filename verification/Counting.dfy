/** Counting the entries of a map that satisfy a predicate. */
module Counting {
  ghost function Where<K, V>(m: map<K, V>, p: V -> bool): set<K> {
    set k | k in m && p(m[k])
  }

  /** Replacing or adding one entry moves the count by that entry's own change. */
  lemma WhereUpdate<K, V>(m: map<K, V>, k: K, v: V, p: V -> bool)
    ensures |Where(m[k := v], p)|
            == |Where(m, p)| - (if k in m && p(m[k]) then 1 else 0) + (if p(v) then 1 else 0)
  {
    var others := Where(m, p) - {k};
    AddOne(Where(m, p), others, k, k in m && p(m[k]));
    AddOne(Where(m[k := v], p), others, k, p(v));
  }

  lemma AddOne<T>(all: set<T>, others: set<T>, x: T, present: bool)
    requires x !in others
    requires forall y :: y in all <==> y in others || (present && y == x)
    ensures |all| == |others| + (if present then 1 else 0)
  {
    if present {
      assert all == others + {x};
    } else {
      assert all == others;
    }
  }

  lemma WhereRemove<K, V>(m: map<K, V>, k: K, p: V -> bool)
    requires k in m
    ensures |Where(m, p)| == |Where(m - {k}, p)| + Bit(p(m[k]))
  {
    AddOne(Where(m, p), Where(m - {k}, p), k, p(m[k]));
  }

  lemma SubsetSize<T>(a: set<T>, b: set<T>)
    requires a <= b
    ensures |a| <= |b|
  {
    assert b == a + (b - a);
  }

  function Bit(b: bool): nat {
    if b then 1 else 0
  }

  /** If every entry satisfies as many of four predicates as of five others, so do the counts. */
  lemma {:induction false} FourAgainstFive<K, V>(m: map<K, V>, a: V -> bool, b: V -> bool, c: V -> bool, d: V -> bool,
                                                 p: V -> bool, q: V -> bool, r: V -> bool, t: V -> bool, u: V -> bool)
    requires forall k :: k in m ==> Bit(a(m[k])) + Bit(b(m[k])) + Bit(c(m[k])) + Bit(d(m[k]))
                                    == Bit(p(m[k])) + Bit(q(m[k])) + Bit(r(m[k])) + Bit(t(m[k])) + Bit(u(m[k]))
    ensures |Where(m, a)| + |Where(m, b)| + |Where(m, c)| + |Where(m, d)|
            == |Where(m, p)| + |Where(m, q)| + |Where(m, r)| + |Where(m, t)| + |Where(m, u)|
    decreases m.Keys
  {
    if m == map[] {
      assert Where(m, a) == Where(m, b) == Where(m, c) == Where(m, d) == {};
      assert Where(m, p) == Where(m, q) == Where(m, r) == Where(m, t) == Where(m, u) == {};
    } else {
      var k :| k in m;
      FourAgainstFive(m - {k}, a, b, c, d, p, q, r, t, u);
      hide Where;
      WhereRemove(m, k, a);
      WhereRemove(m, k, b);
      WhereRemove(m, k, c);
      WhereRemove(m, k, d);
      WhereRemove(m, k, p);
      WhereRemove(m, k, q);
      WhereRemove(m, k, r);
      WhereRemove(m, k, t);
      WhereRemove(m, k, u);
    }
  }
}
