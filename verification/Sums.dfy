/** The sum of the values of a finite map, and sizes of sets. */
module Sums {
  ghost function Sum<T>(m: map<T, nat>): nat
    decreases |m|
  {
    if m == map[] then 0
    else
      assert m.Keys != {};
      var p :| p in m;
      m[p] + Sum(m - {p})
  }

  lemma {:induction false} SumTake<T>(m: map<T, nat>, p: T)
    requires p in m
    ensures Sum(m) == m[p] + Sum(m - {p})
    decreases |m|
  {
    var q :| q in m && Sum(m) == m[q] + Sum(m - {q});
    if q != p {
      SumTake(m - {q}, p);
      SumTake(m - {p}, q);
      assert m - {q} - {p} == m - {p} - {q};
    }
  }

  lemma SumSet<T>(m: map<T, nat>, d: T, v: nat)
    ensures Sum(m[d := v]) == Sum(m) + v - if d in m then m[d] else 0
  {
    SumTake(m[d := v], d);
    assert m[d := v] - {d} == m - {d};
    if d in m { SumTake(m, d); } else { assert m - {d} == m; }
  }

  lemma {:induction false} SumMonotone<T>(m: map<T, nat>, n: map<T, nat>)
    requires m.Keys <= n.Keys && forall p :: p in m ==> m[p] <= n[p]
    ensures Sum(m) <= Sum(n)
    decreases |n|
  {
    if m != map[] {
      assert m.Keys != {};
      var p :| p in m;
      SumTake(m, p);
      SumTake(n, p);
      SumMonotone(m - {p}, n - {p});
    }
  }

  lemma SubsetSize<T>(x: set<T>, y: set<T>)
    requires x <= y
    ensures |x| <= |y|
  {
    assert y == x + (y - x);
  }

  lemma {:induction false} IndexSetSize(x: set<int>, n: nat)
    requires forall i :: i in x ==> 0 <= i < n
    ensures |x| <= n
  {
    if n == 0 {
      assert forall i :: i !in x;
    } else {
      IndexSetSize(x - {n - 1}, n - 1);
      SubsetSize(x, x - {n - 1} + {n - 1});
    }
  }
}
