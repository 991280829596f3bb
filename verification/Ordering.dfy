/** ORDER BY time, id over rows named by an integer id. */
module Ordering {
  import opened Common

  predicate Before(key: map<int, Time>, a: int, b: int)
    requires a in key && b in key
  {
    key[a] < key[b] || (key[a] == key[b] && a < b)
  }

  ghost predicate Ordered(key: map<int, Time>, ids: seq<int>) {
    && (forall i :: 0 <= i < |ids| ==> ids[i] in key)
    && forall i, j :: 0 <= i < j < |ids| ==> Before(key, ids[i], ids[j])
  }

  method First(key: map<int, Time>, among: set<int>) returns (m: int)
    requires among != {} && among <= key.Keys
    ensures m in among && forall x :: x in among && x != m ==> Before(key, m, x)
  {
    SomeMember(among);
    m :| m in among;
    var todo := among - {m};
    while todo != {}
      invariant m in among && todo <= among && m !in todo
      invariant forall x :: x in among && x !in todo && x != m ==> Before(key, m, x)
      decreases |todo|
    {
      SomeMember(todo);
      var x :| x in todo;
      if Before(key, x, m) { m := x; }
      todo := todo - {x};
    }
  }

  /** The keys of the table in order, at most `limit` of them. */
  method SelectOrdered(key: map<int, Time>, limit: nat) returns (ids: seq<int>)
    ensures Ordered(key, ids)
    ensures |ids| == if |key| <= limit then |key| else limit
    ensures forall x :: x in key && x !in ids ==> forall i :: 0 <= i < |ids| ==> Before(key, ids[i], x)
  {
    ids := [];
    var rest := key.Keys;
    while rest != {} && |ids| < limit
      invariant Ordered(key, ids) && rest <= key.Keys
      invariant forall x :: x in key ==> (x in rest <==> x !in ids)
      invariant forall i, x :: 0 <= i < |ids| && x in rest ==> Before(key, ids[i], x)
      invariant |ids| + |rest| == |key.Keys| && |ids| <= limit
      decreases |rest|
    {
      var m := First(key, rest);
      ids := ids + [m];
      rest := rest - {m};
    }
  }

  /** A selection below its limit is the whole table. */
  lemma {:induction false} OrderedCount(key: map<int, Time>, ids: seq<int>)
    requires Ordered(key, ids)
    ensures |(set x | x in ids)| == |ids| && (set x | x in ids) <= key.Keys
  {
    if ids != [] {
      var n := |ids| - 1;
      OrderedCount(key, ids[..n]);
      assert (set x | x in ids) == (set x | x in ids[..n]) + {ids[n]};
      assert ids[n] !in ids[..n];
    }
  }

  lemma OrderedIsAll(key: map<int, Time>, ids: seq<int>)
    requires Ordered(key, ids) && |ids| == |key|
    ensures forall x :: x in key <==> x in ids
  {
    OrderedCount(key, ids);
    var s := set x | x in ids;
    assert |key.Keys - s| == |key.Keys| - |s|;
    assert key.Keys - s == {};
  }
}
