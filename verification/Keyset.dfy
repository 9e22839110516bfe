/**
 Keyset pagination.  A page is the first rows, in order, that come strictly after a cursor;
 the simple form is the whole table in that order.  Keys are compared by a strict total
 order `lt` ("is listed before").
 */
module Keyset {
  import opened Wrappers

  ghost predicate StrictTotal<K(!new)>(lt: (K, K) -> bool) {
    && (forall x :: !lt(x, x))
    && (forall x, y, z :: lt(x, y) && lt(y, z) ==> lt(x, z))
    && (forall x, y :: x == y || lt(x, y) || lt(y, x))
  }

  ghost predicate Sorted<K(!new)>(s: seq<K>, lt: (K, K) -> bool) {
    forall i, j :: 0 <= i < j < |s| ==> lt(s[i], s[j])
  }

  /** `m` is in the table and every other row is listed after it. */
  ghost predicate IsFirst<K(!new)>(m: K, s: set<K>, lt: (K, K) -> bool) {
    m in s && forall x :: x in s ==> x == m || lt(m, x)
  }

  lemma {:induction false} FirstExists<K(!new)>(s: set<K>, lt: (K, K) -> bool)
    requires s != {} && StrictTotal(lt)
    ensures exists m :: IsFirst(m, s, lt)
  {
    var y :| y in s;
    var rest := s - {y};
    if rest == {} {
      assert s == {y};
      assert IsFirst(y, s, lt);
    } else {
      FirstExists(rest, lt);
      var m :| IsFirst(m, rest, lt);
      assert forall x :: x in s ==> x in rest || x == y;
      assert IsFirst(if lt(y, m) then y else m, s, lt);
    }
  }

  /** The row listed first. */
  function First<K(!new, ==)>(s: set<K>, lt: (K, K) -> bool): (m: K)
    requires s != {} && StrictTotal(lt)
    ensures IsFirst(m, s, lt)
  {
    FirstExists(s, lt);
    assert exists m :: m in s && forall x :: x in s ==> x == m || lt(m, x) by {
      var m :| IsFirst(m, s, lt);
    }
    var m :| m in s && forall x :: x in s ==> x == m || lt(m, x);
    m
  }

  /** The simple form: every row, in order. */
  function Listing<K(!new, ==)>(s: set<K>, lt: (K, K) -> bool): seq<K>
    requires StrictTotal(lt)
  {
    if s == {} then []
    else
      var m := First(s, lt);
      [m] + Listing(s - {m}, lt)
  }

  lemma {:induction false} ListingMeaning<K(!new)>(s: set<K>, lt: (K, K) -> bool)
    requires StrictTotal(lt)
    ensures Sorted(Listing(s, lt), lt)
    ensures forall x :: x in Listing(s, lt) <==> x in s
  {
    if s != {} {
      var m := First(s, lt);
      ListingMeaning(s - {m}, lt);
      assert Listing(s, lt) == [m] + Listing(s - {m}, lt);
    }
  }

  /** The rows strictly after the cursor. */
  function After<K(!new, ==)>(s: set<K>, lt: (K, K) -> bool, cursor: K): set<K> {
    set x | x in s && lt(cursor, x)
  }

  function Take<K>(s: seq<K>, n: nat): seq<K> {
    if |s| <= n then s else s[..n]
  }

  /** `WHERE key after cursor ORDER BY key LIMIT n`. */
  function Fetch<K(!new, ==)>(s: set<K>, lt: (K, K) -> bool, cursor: K, n: nat): seq<K>
    requires StrictTotal(lt)
  {
    Take(Listing(After(s, lt, cursor), lt), n)
  }

  datatype Page<K> = Page(rows: seq<K>, next: Option<K>)

  /** One row more than the limit was asked for; it only tells that there is a next page. */
  function Trim<K>(rows: seq<K>, limit: nat): Page<K>
    requires limit >= 1
  {
    if |rows| > limit then Page(rows[..limit], Some(rows[limit - 1])) else Page(rows, None)
  }

  /** One request. */
  function Request<K(!new, ==)>(s: set<K>, lt: (K, K) -> bool, cursor: K, limit: nat): Page<K>
    requires StrictTotal(lt) && limit >= 1
  {
    Trim(Fetch(s, lt, cursor, limit + 1), limit)
  }

  /** Two strictly ordered sequences with the same elements are the same sequence. */
  lemma {:induction false} SortedUnique<K(!new)>(a: seq<K>, b: seq<K>, lt: (K, K) -> bool)
    requires StrictTotal(lt) && Sorted(a, lt) && Sorted(b, lt)
    requires forall x :: x in a <==> x in b
    ensures a == b
  {
    assert forall i :: 0 <= i < |a| ==> a[i] in b;
    assert forall i :: 0 <= i < |b| ==> b[i] in a;
    if a != [] && b != [] {
      assert a[0] in b && b[0] in a;
      assert a[0] == b[0];
      forall x
        ensures x in a[1..] <==> x in b[1..]
      {
        assert x in a <==> x == a[0] || x in a[1..];
        assert x in b <==> x == b[0] || x in b[1..];
      }
      SortedUnique(a[1..], b[1..], lt);
      assert a == [a[0]] + a[1..] && b == [b[0]] + b[1..];
    }
  }

  /** What lies after a listed row is the rest of the listing. */
  lemma ListingAfter<K(!new)>(s: set<K>, lt: (K, K) -> bool, cursor: K, k: nat)
    requires StrictTotal(lt)
    requires 0 < k <= |Listing(After(s, lt, cursor), lt)|
    ensures var all := Listing(After(s, lt, cursor), lt);
            Listing(After(s, lt, all[k - 1]), lt) == all[k..]
  {
    var all := Listing(After(s, lt, cursor), lt);
    var last := all[k - 1];
    ListingMeaning(After(s, lt, cursor), lt);
    ListingMeaning(After(s, lt, last), lt);
    assert last in all;
    forall x
      ensures x in all[k..] <==> x in s && lt(last, x)
    {
      assert x in all[k..] ==> exists i :: k <= i < |all| && all[i] == x;
      assert x in all ==> x in all[..k] || x in all[k..];
    }
    SortedUnique(Listing(After(s, lt, last), lt), all[k..], lt);
  }

  /** Asked from the k-th position of the listing, the query returns the head of what follows there. */
  ghost predicate ServesAt<K(!new)>(fetch: (K, nat) -> seq<K>, start: K, all: seq<K>, k: nat)
    requires k <= |all|
  {
    forall n :: fetch(if k == 0 then start else all[k - 1], n) == Take(all[k..], n)
  }

  /** The query serves the listing from the first cursor on, and from every listed row on. */
  ghost predicate Serves<K(!new)>(fetch: (K, nat) -> seq<K>, start: K, all: seq<K>) {
    forall k :: 0 <= k <= |all| ==> ServesAt(fetch, start, all, k)
  }

  lemma FetchServes<K(!new)>(s: set<K>, lt: (K, K) -> bool, fetch: (K, nat) -> seq<K>, start: K)
    requires StrictTotal(lt) && forall c, n :: fetch(c, n) == Fetch(s, lt, c, n)
    ensures Serves(fetch, start, Listing(After(s, lt, start), lt))
  {
    var all := Listing(After(s, lt, start), lt);
    forall k | 0 <= k <= |all|
      ensures ServesAt(fetch, start, all, k)
    {
      if k > 0 { ListingAfter(s, lt, start, k); }
      assert all[0..] == all;
    }
  }

  /** The page that comes from the k-th position: the next rows, as many as asked for if there are so many, and a cursor iff there are more. */
  lemma PageAt<K(!new)>(fetch: (K, nat) -> seq<K>, start: K, all: seq<K>, k: nat, limit: nat)
    requires Serves(fetch, start, all) && k <= |all| && limit >= 1
    ensures var page := Trim(fetch(if k == 0 then start else all[k - 1], limit + 1), limit);
            var to := if k + limit < |all| then k + limit else |all|;
            page == Page(all[k..to], if k + limit < |all| then Some(all[to - 1]) else None)
  {
    assert ServesAt(fetch, start, all, k);
    var rest := all[k..];
    if k + limit < |all| {
      var rows := Take(rest, limit + 1);
      assert rows[..limit] == all[k..k + limit] && rows[limit - 1] == all[k + limit - 1];
    } else {
      assert rest == all[k..|all|];
    }
  }

  /**
   Walks an unchanging table page by page with the query `fetch`; what comes back is the whole
   listing after the first cursor.  Every page but the last is full, and none is empty unless
   there is nothing to list.
   */
  method Walk<K(!new)>(ghost all: seq<K>, fetch: (K, nat) -> seq<K>, start: K, limit: nat)
    returns (rows: seq<K>, sizes: seq<nat>)
    requires Serves(fetch, start, all) && limit >= 1
    ensures rows == all
    ensures |sizes| >= 1 && forall i :: 0 <= i < |sizes| - 1 ==> sizes[i] == limit
    ensures sizes[|sizes| - 1] > 0 || rows == []
  {
    PageAt(fetch, start, all, 0, limit);
    var page := Trim(fetch(start, limit + 1), limit);
    rows, sizes := page.rows, [|page.rows|];
    while page.next.Some?
      invariant |rows| <= |all| && rows == all[..|rows|]
      invariant if page.next.Some? then 0 < |rows| < |all| && page.next.value == all[|rows| - 1] else |rows| == |all|
      invariant |sizes| >= 1 && forall i :: 0 <= i < |sizes| - 1 ==> sizes[i] == limit
      invariant page.next.Some? ==> sizes[|sizes| - 1] == limit
      invariant sizes[|sizes| - 1] > 0 || rows == []
      decreases |all| - |rows|, page.next.Some?
    {
      PageAt(fetch, start, all, |rows|, limit);
      page := Trim(fetch(page.next.value, limit + 1), limit);
      rows, sizes := rows + page.rows, sizes + [|page.rows|];
    }
  }

  /** What one request promises about the table it saw. */
  lemma RequestMeaning<K(!new)>(s: set<K>, lt: (K, K) -> bool, cursor: K, limit: nat)
    requires StrictTotal(lt) && limit >= 1
    ensures var p := Request(s, lt, cursor, limit);
            && Sorted(p.rows, lt)
            && (forall x :: x in p.rows ==> x in s && lt(cursor, x))
            && (forall x :: x in s && lt(cursor, x) && x !in p.rows ==> p.next.Some? && lt(p.next.value, x))
            && (p.next.Some? ==> lt(cursor, p.next.value))
            && (p.next.Some? ==> forall x :: x in p.rows ==> x == p.next.value || lt(x, p.next.value))
  {
    var p := Request(s, lt, cursor, limit);
    var all := Listing(After(s, lt, cursor), lt);
    ListingMeaning(After(s, lt, cursor), lt);
    if |all| > limit {
      assert p.rows == all[..limit];
      PrefixMeaning(all, lt, limit);
    } else {
      assert p.rows == all;
    }
  }

  /** In an ordered sequence, a prefix is ordered, ends with its last row, and all else comes after that row. */
  lemma PrefixMeaning<K(!new)>(all: seq<K>, lt: (K, K) -> bool, k: nat)
    requires Sorted(all, lt) && 0 < k <= |all|
    ensures Sorted(all[..k], lt) && all[k - 1] in all
    ensures forall x :: x in all[..k] ==> x in all && (x == all[k - 1] || lt(x, all[k - 1]))
    ensures forall x :: x in all && x !in all[..k] ==> lt(all[k - 1], x)
  {
    forall x | x in all && x !in all[..k]
      ensures lt(all[k - 1], x)
    {
      assert all == all[..k] + all[k..];
      var i :| k <= i < |all| && all[i] == x;
    }
  }

  /**
   Walks a table that anybody may change between requests: `tables[i]` is what request `i`
   finds.  No row comes back twice, nothing comes back that was not there, and a row present
   at every request is not missed.
   */
  method WalkChanging<K(!new)>(
    ghost tables: seq<set<K>>, ghost lt: (K, K) -> bool, fetch: (nat, K, nat) -> seq<K>, most: nat, start: K, limit: nat)
    returns (rows: seq<K>, requests: nat, done: bool)
    requires StrictTotal(lt) && limit >= 1 && most == |tables|
    requires forall i: nat, c, n :: i < most ==> fetch(i, c, n) == Fetch(tables[i], lt, c, n)
    ensures requests <= |tables| && (done || requests == |tables|)
    ensures Sorted(rows, lt)
    ensures forall x :: x in rows ==> lt(start, x) && exists i :: 0 <= i < requests && x in tables[i]
    ensures done ==> forall x :: lt(start, x) && (forall i :: 0 <= i < requests ==> x in tables[i]) ==> x in rows
  {
    var cursor := start;
    rows, requests, done := [], 0, false;
    while requests < most && !done
      invariant requests <= |tables|
      invariant Sorted(rows, lt)
      invariant cursor == start || lt(start, cursor)
      invariant !done ==> forall x :: x in rows ==> x == cursor || lt(x, cursor)
      invariant forall x :: x in rows ==> lt(start, x) && exists i :: 0 <= i < requests && x in tables[i]
      invariant forall x :: lt(start, x) && (forall i :: 0 <= i < requests ==> x in tables[i])
                            ==> x in rows || (!done && lt(cursor, x))
    {
      var page := Trim(fetch(requests, cursor, limit + 1), limit);
      assert page == Request(tables[requests], lt, cursor, limit);
      RequestMeaning(tables[requests], lt, cursor, limit);
      SortedConcat(rows, page.rows, lt, cursor);
      forall x | lt(start, x) && (forall i :: 0 <= i < requests + 1 ==> x in tables[i]) && x !in rows + page.rows
        ensures page.next.Some? && lt(page.next.value, x)
      {
        assert lt(cursor, x);
      }
      rows := rows + page.rows;
      requests := requests + 1;
      match page.next {
        case Some(next) => cursor := next;
        case None => done := true;
      }
    }
  }

  lemma SortedConcat<K(!new)>(a: seq<K>, b: seq<K>, lt: (K, K) -> bool, cursor: K)
    requires StrictTotal(lt) && Sorted(a, lt) && Sorted(b, lt)
    requires forall x :: x in a ==> x == cursor || lt(x, cursor)
    requires forall x :: x in b ==> lt(cursor, x)
    ensures Sorted(a + b, lt)
  {
    forall i, j | 0 <= i < j < |a + b|
      ensures lt((a + b)[i], (a + b)[j])
    {
      if i < |a| <= j {
        assert a[i] in a && b[j - |a|] in b;
      }
    }
  }
}
