/**
 Keyset pagination: a listing is cut into pages that the caller walks by the
 cursor each page returns.
 */
module Pagination {
  import opened Common
  import opened Sums

  datatype Key = Key(time: Time, id: int)

  datatype Row = Row(createdAt: Time, kind: int, lockKey: int, group: int, parent: int)

  /** Filters on columns that a row keeps for life. */
  datatype Filter = Filter(kind: Option<int>, lockKey: Option<int>, group: Option<int>, parent: Option<int>)

  datatype Page = Page(items: seq<Key>, next: Option<Key>) | InvalidCursor

  /** The instant that a cursor must not carry. */
  const ZERO_TIME: Time := 0

  /** ORDER BY created_at DESC, id DESC: a comes before b. */
  predicate Newer(a: Key, b: Key) { a.time > b.time || (a.time == b.time && a.id > b.id) }

  predicate Matches(r: Row, f: Filter) {
    && (f.kind.Some? ==> r.kind == f.kind.value) && (f.lockKey.Some? ==> r.lockKey == f.lockKey.value)
    && (f.group.Some? ==> r.group == f.group.value) && (f.parent.Some? ==> r.parent == f.parent.value)
  }

  function Keys(rows: map<int, Row>, f: Filter): set<Key> {
    set i | i in rows && Matches(rows[i], f) :: Key(rows[i].createdAt, i)
  }

  /** The rows after the cursor. */
  function Remaining(keys: set<Key>, cursor: Option<Key>): set<Key> {
    set k | k in keys && (cursor.Some? ==> Newer(cursor.value, k))
  }

  ghost predicate Descending(items: seq<Key>) {
    forall i, k :: 0 <= i < k < |items| ==> Newer(items[i], items[k])
  }

  function Elements(items: seq<Key>): set<Key> { set k | k in items }

  /** The whole listing, newest first, each row once. */
  ghost predicate IsListing(keys: set<Key>, items: seq<Key>) {
    Descending(items) && Elements(items) == keys
  }

  /** The first `limit` rows after the cursor, and a cursor exactly when rows are left over. */
  ghost predicate IsPage(keys: set<Key>, cursor: Option<Key>, limit: nat, items: seq<Key>, next: Option<Key>) {
    var rest := Remaining(keys, cursor);
    && Descending(items) && Elements(items) <= rest
    && |items| == (if |rest| <= limit then |rest| else limit)
    && (forall k :: k in rest && k !in items ==> forall i :: 0 <= i < |items| ==> Newer(items[i], k))
    && (next.Some? <==> |rest| > limit)
    && (next.Some? ==> |items| > 0 && next.value == items[|items| - 1])
  }

  /** What was asked for when it lies within the maximum; otherwise 100, even above a smaller maximum, or a maximum over 200. */
  function PageSize(limit: int, maxLimit: int): (n: nat)
    ensures 1 <= n
    ensures var m := if maxLimit <= 0 then 200 else maxLimit;
            && (0 < limit <= m ==> n == limit)
            && (n <= m || (n == 100 && m < 100))
            && (!(0 < limit <= m) ==> n == 100 || (n == m && m > 200))
  {
    var m := if maxLimit <= 0 then 200 else maxLimit;
    if limit <= 0 || limit > m then if m > 200 then m else 100 else limit
  }

  method Newest(among: set<Key>) returns (m: Key)
    requires among != {}
    ensures m in among && forall k :: k in among && k != m ==> Newer(m, k)
  {
    m :| m in among;
    var todo := among - {m};
    while todo != {}
      invariant m in among && todo <= among && m !in todo
      invariant forall k :: k in among && k !in todo && k != m ==> Newer(m, k)
      decreases |todo|
    {
      var k :| k in todo;
      if Newer(k, m) { m := k; }
      todo := todo - {k};
    }
  }

  /** SELECT ... ORDER BY ... LIMIT limit. */
  method SelectNewest(keys: set<Key>, limit: nat) returns (items: seq<Key>)
    ensures Descending(items) && Elements(items) <= keys
    ensures |items| == if |keys| <= limit then |keys| else limit
    ensures forall k :: k in keys && k !in items ==> forall i :: 0 <= i < |items| ==> Newer(items[i], k)
  {
    items := [];
    var rest := keys;
    while rest != {} && |items| < limit
      invariant Descending(items) && rest <= keys
      invariant forall k :: k in keys ==> (k in rest <==> k !in items)
      invariant forall k :: k in items ==> k in keys
      invariant forall i, k :: 0 <= i < |items| && k in rest ==> Newer(items[i], k)
      invariant |items| + |rest| == |keys| && |items| <= limit
      decreases |rest|
    {
      var m := Newest(rest);
      items := items + [m];
      rest := rest - {m};
    }
  }

  /** One page: one row more than asked is read to learn whether a cursor is due. */
  method ListPage(rows: map<int, Row>, f: Filter, cursor: Option<Key>, limit: int, maxLimit: int) returns (page: Page)
    ensures page.InvalidCursor? <==> cursor.Some? && cursor.value.time == ZERO_TIME
    ensures page.Page? ==> IsPage(Keys(rows, f), cursor, PageSize(limit, maxLimit), page.items, page.next)
    ensures page.Page? ==> forall i :: 0 <= i < |page.items| ==> IsListed(rows, f, page.items[i])
    ensures page.Page? && page.next.None? ==> forall k :: IsListed(rows, f, k) && (cursor.Some? ==> ComesAfter(k, cursor.value)) ==> k in page.items
    ensures page.Page? && cursor.Some? ==> forall i :: 0 <= i < |page.items| ==> ComesAfter(page.items[i], cursor.value)
    ensures page.Page? ==> forall i, k :: 0 <= i < k < |page.items| ==> ComesAfter(page.items[k], page.items[i])
  {
    if cursor.Some? && cursor.value.time == ZERO_TIME { return InvalidCursor; }
    var n := PageSize(limit, maxLimit);
    var rest := Remaining(Keys(rows, f), cursor);
    var out := SelectNewest(rest, n + 1);
    forall i | 0 <= i < |out| ensures IsListed(rows, f, out[i]) && (cursor.Some? ==> ComesAfter(out[i], cursor.value)) {
      assert out[i] in Elements(out);
    }
    if |out| > n {
      FirstOf(rest, out, n);
      return Page(out[..n], Some(out[n - 1]));
    }
    AllTaken(rest, out);
    assert forall k :: IsListed(rows, f, k) ==> k in Keys(rows, f);
    return Page(out, None);
  }

  /** A selection shorter than it may be is everything. */
  lemma AllTaken(rest: set<Key>, out: seq<Key>)
    requires Descending(out) && Elements(out) <= rest && |out| == |rest|
    ensures forall k :: k in rest ==> k in out
  {
    ElementCount(out);
    SameSize(Elements(out), rest);
    forall k | k in rest ensures k in out { assert k in Elements(out); }
  }

  /** The key of a row that passes the filter. */
  predicate IsListed(rows: map<int, Row>, f: Filter, k: Key) {
    && k.id in rows && k.time == rows[k.id].createdAt
    && (f.kind == None || f.kind == Some(rows[k.id].kind)) && (f.lockKey == None || f.lockKey == Some(rows[k.id].lockKey))
    && (f.group == None || f.group == Some(rows[k.id].group)) && (f.parent == None || f.parent == Some(rows[k.id].parent))
  }

  /** Newest first: b is older than a, or as old with a smaller id. */
  predicate ComesAfter(b: Key, a: Key) { b.time < a.time || (b.time == a.time && b.id < a.id) }

  lemma FirstOf(rest: set<Key>, out: seq<Key>, n: nat)
    requires Descending(out) && Elements(out) <= rest && |out| == n + 1
    requires forall k :: k in rest && k !in out ==> forall i :: 0 <= i < |out| ==> Newer(out[i], k)
    ensures Descending(out[..n]) && Elements(out[..n]) <= rest && |rest| > n
    ensures forall k :: k in rest && k !in out[..n] ==> forall i :: 0 <= i < n ==> Newer(out[i], k)
  {
    forall k | k in out ensures k in Elements(out) {}
    ElementCount(out);
    SubsetSize(Elements(out), rest);
    forall k | k in rest && k !in out[..n] ensures forall i :: 0 <= i < n ==> Newer(out[i], k) {
      if k in out { assert k == out[n]; }
    }
  }

  lemma {:induction false} ElementCount(items: seq<Key>)
    requires Descending(items)
    ensures |Elements(items)| == |items|
  {
    if items != [] {
      var n := |items| - 1;
      ElementCount(items[..n]);
      assert items == items[..n] + [items[n]];
      assert Elements(items) == Elements(items[..n]) + {items[n]};
      assert items[n] !in items[..n];
    }
  }

  // ------------------------------------------------------------------- walks

  function Concat(pages: seq<seq<Key>>): seq<Key> {
    if pages == [] then [] else pages[0] + Concat(pages[1..])
  }

  /** A walk reads table after table, each page from the cursor of the one before, until no cursor comes. */
  ghost predicate IsWalk(tables: seq<set<Key>>, cursor: Option<Key>, limit: nat, pages: seq<seq<Key>>)
    decreases |pages|
  {
    && |tables| == |pages| > 0
    && if |pages| == 1 then IsPage(tables[0], cursor, limit, pages[0], None)
       else pages[0] != [] && IsPage(tables[0], cursor, limit, pages[0], Some(pages[0][|pages[0]| - 1]))
            && IsWalk(tables[1..], Some(pages[0][|pages[0]| - 1]), limit, pages[1..])
  }

  /** Only rows newer than every row of the start are added while the walk goes on. */
  ghost predicate GrowsNewer(start: set<Key>, tables: seq<set<Key>>) {
    forall i :: 0 <= i < |tables| ==>
      start <= tables[i] && forall k, o :: k in tables[i] && k !in start && o in start ==> Newer(k, o)
  }

  /** Rows added later do not lie after the cursor. */
  lemma SameRemaining(start: set<Key>, table: set<Key>, cursor: Option<Key>)
    requires start <= table && forall k, o :: k in table && k !in start && o in start ==> Newer(k, o)
    requires cursor.Some? ==> cursor.value in start
    requires cursor.None? ==> table == start
    ensures Remaining(table, cursor) == Remaining(start, cursor)
  {
  }

  /** A page followed by the listing of what is left is the listing of what was left before. */
  lemma PageThenRest(start: set<Key>, cursor: Option<Key>, limit: nat, items: seq<Key>, more: seq<Key>)
    requires items != [] && IsPage(start, cursor, limit, items, Some(items[|items| - 1]))
    requires IsListing(Remaining(start, Some(items[|items| - 1])), more)
    ensures IsListing(Remaining(start, cursor), items + more)
  {
    var rest, last := Remaining(start, cursor), items[|items| - 1];
    forall k ensures k in Elements(items + more) <==> k in rest {
      if k in items { assert k in Elements(items); }
      if k in more { assert k in Elements(more); assert last in Elements(items); }
      if k in rest && k !in items { assert Newer(items[|items| - 1], k); assert k in Elements(more); }
    }
    var all := items + more;
    forall i, j | 0 <= i < j < |all| ensures Newer(all[i], all[j]) {
      if i < |items| <= j {
        assert more[j - |items|] in Elements(more);
        assert i == |items| - 1 || Newer(items[i], last);
      }
    }
  }

  /**
   Walking from the start until no cursor comes gives every row that was there at
   the start once, newest first: rows inserted meanwhile, as long as they are
   newer, make it neither skip nor repeat one.
   */
  lemma {:induction false} WalkIsListing(start: set<Key>, tables: seq<set<Key>>, cursor: Option<Key>, limit: nat, pages: seq<seq<Key>>)
    requires limit > 0 && IsWalk(tables, cursor, limit, pages) && GrowsNewer(start, tables)
    requires cursor.Some? ==> cursor.value in start
    requires cursor.None? ==> tables[0] == start
    ensures IsListing(Remaining(start, cursor), Concat(pages))
    decreases |pages|
  {
    SameRemaining(start, tables[0], cursor);
    var rest := Remaining(start, cursor);
    if |pages| == 1 {
      ElementCount(pages[0]);
      SameSize(Elements(pages[0]), rest);
      assert Concat(pages) == pages[0] by { assert pages[1..] == []; assert Concat(pages[1..]) == []; }
    } else {
      var last := pages[0][|pages[0]| - 1];
      assert last in Elements(pages[0]);
      assert GrowsNewer(start, tables[1..]) by {
        forall i | 0 <= i < |tables[1..]| ensures tables[1..][i] == tables[i + 1] {}
      }
      WalkIsListing(start, tables[1..], Some(last), limit, pages[1..]);
      PageThenRest(start, cursor, limit, pages[0], Concat(pages[1..]));
    }
  }

  lemma SameSize(x: set<Key>, y: set<Key>)
    requires x <= y && |x| == |y|
    ensures x == y
  {
    assert y == x + (y - x);
    assert |y| == |x| + |y - x|;
  }

  /** Each page that returns a cursor leaves fewer rows, so every walk comes to an end. */
  lemma CursorAdvances(keys: set<Key>, cursor: Option<Key>, limit: nat, items: seq<Key>, next: Option<Key>)
    requires limit > 0 && IsPage(keys, cursor, limit, items, next) && next.Some?
    ensures Remaining(keys, next) == Remaining(keys, cursor) - Elements(items)
    ensures |Remaining(keys, next)| == |Remaining(keys, cursor)| - limit
  {
    var rest, last := Remaining(keys, cursor), next.value;
    forall k ensures k in Remaining(keys, next) <==> k in rest && k !in Elements(items) {
      if k in items {
        var i :| 0 <= i < |items| && items[i] == k;
        assert i == |items| - 1 || Newer(items[i], last);
      }
      if k in rest && k !in items { assert Newer(items[|items| - 1], k); }
      if k in Remaining(keys, next) { assert last in Elements(items); }
    }
    ElementCount(items);
    assert rest == Elements(items) + (rest - Elements(items));
  }

  /** How many pages hold n rows. */
  function PagesFor(n: nat, limit: nat): nat
    requires limit > 0
  {
    if n <= limit then 1 else 1 + PagesFor(n - limit, limit)
  }

  /** max(1, n / limit rounded up). */
  lemma {:induction false} PagesForIs(n: nat, limit: nat)
    requires limit > 0
    ensures n <= PagesFor(n, limit) * limit
    ensures PagesFor(n, limit) == 1 || (PagesFor(n, limit) - 1) * limit < n
    decreases n
  {
    if n > limit {
      var k := PagesFor(n - limit, limit);
      PagesForIs(n - limit, limit);
      assert (k + 1) * limit == k * limit + limit;
      assert k * limit == (k - 1) * limit + limit;
    }
  }

  /**
   A walk over tables that only grow by newer rows is as long as the rows of the
   start call for, however many rows arrive meanwhile.
   */
  lemma {:induction false} WalkLength(start: set<Key>, tables: seq<set<Key>>, cursor: Option<Key>, limit: nat, pages: seq<seq<Key>>)
    requires limit > 0 && IsWalk(tables, cursor, limit, pages) && GrowsNewer(start, tables)
    requires cursor.Some? ==> cursor.value in start
    requires cursor.None? ==> tables[0] == start
    ensures |pages| == PagesFor(|Remaining(start, cursor)|, limit)
    decreases |pages|
  {
    SameRemaining(start, tables[0], cursor);
    if |pages| > 1 {
      var last := pages[0][|pages[0]| - 1];
      assert last in Elements(pages[0]);
      assert GrowsNewer(start, tables[1..]) by {
        forall i | 0 <= i < |tables[1..]| ensures tables[1..][i] == tables[i + 1] {}
      }
      SameRemaining(start, tables[1], Some(last));
      CursorAdvances(start, cursor, limit, pages[0], Some(last));
      WalkLength(start, tables[1..], Some(last), limit, pages[1..]);
    }
  }

  /** The caller's loop over a table that does not change. */
  method WalkAll(rows: map<int, Row>, f: Filter, limit: int, maxLimit: int) returns (all: seq<Key>)
    requires forall i :: i in rows ==> rows[i].createdAt != ZERO_TIME
    ensures IsListing(Keys(rows, f), all)
  {
    all := [];
    var cursor: Option<Key> := None;
    ghost var keys := Keys(rows, f);
    ghost var pages: seq<seq<Key>> := [];
    assert Remaining(keys, None) == keys;
    while true
      invariant Descending(all) && Elements(all) == keys - Remaining(keys, cursor)
      invariant forall i, k :: 0 <= i < |all| && k in Remaining(keys, cursor) ==> Newer(all[i], k)
      invariant cursor.Some? ==> cursor.value in keys
      decreases |Remaining(keys, cursor)|
    {
      var page := ListPage(rows, f, cursor, limit, maxLimit);
      ghost var rest := Remaining(keys, cursor);
      Appends(keys, rest, all, page.items);
      all := all + page.items;
      if page.next.None? {
        ElementCount(page.items);
        SameSize(Elements(page.items), rest);
        break;
      }
      CursorAdvances(keys, cursor, PageSize(limit, maxLimit), page.items, page.next);
      assert page.next.value in Elements(page.items);
      cursor := page.next;
    }
  }

  lemma Appends(keys: set<Key>, rest: set<Key>, all: seq<Key>, items: seq<Key>)
    requires Descending(all) && Descending(items) && rest <= keys
    requires Elements(all) == keys - rest && Elements(items) <= rest
    requires forall i, k :: 0 <= i < |all| && k in rest ==> Newer(all[i], k)
    requires forall k :: k in rest && k !in items ==> forall i :: 0 <= i < |items| ==> Newer(items[i], k)
    ensures Descending(all + items) && Elements(all + items) == keys - (rest - Elements(items))
    ensures forall i, k :: 0 <= i < |all + items| && k in rest - Elements(items) ==> Newer((all + items)[i], k)
  {
    forall k | k in items ensures k in rest { assert k in Elements(items); }
    forall i, j | 0 <= i < j < |all + items| ensures Newer((all + items)[i], (all + items)[j]) {
      if i < |all| <= j { assert items[j - |all|] in items; }
    }
    forall k ensures k in Elements(all + items) <==> k in Elements(all) || k in Elements(items) {
      assert k in all + items <==> k in all || k in items;
    }
    assert Elements(all + items) == Elements(all) + Elements(items);
    assert (keys - rest) + Elements(items) == keys - (rest - Elements(items));
  }
}
