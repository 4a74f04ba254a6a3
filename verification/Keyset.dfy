/** Reading a table page by page: each request asks for the first rows whose id is above
    a cursor, and a full page hands out the cursor for the next one. */
module Keyset {
  import opened Prelude

  function After(ids: set<int>, after: int): set<int> {
    set x | x in ids && x > after
  }

  /** WHERE id > after ORDER BY id LIMIT limit. */
  function Page(ids: set<int>, after: int, limit: nat): (page: seq<int>)
    ensures |page| <= limit
  {
    var all := SortedOf(After(ids, after));
    if |all| <= limit then all else all[..limit]
  }

  function NextCursor(page: seq<int>, limit: nat): Option<int> {
    if |page| == limit && limit > 0 then Some(page[limit - 1]) else None
  }

  /** The pages a client gets by following cursors, when request i reads tables[i]. */
  function Walk(tables: seq<set<int>>, after: int, limit: nat): (pages: seq<seq<int>>)
    ensures |pages| <= |tables|
  {
    if tables == [] then [] else
      var page := Page(tables[0], after, limit);
      var next := NextCursor(page, limit);
      [page] + (if next.Some? then Walk(tables[1..], next.value, limit) else [])
  }

  /** The last page came without a cursor. */
  predicate Complete(pages: seq<seq<int>>, limit: nat) {
    pages != [] && NextCursor(pages[|pages| - 1], limit).None?
  }

  lemma PageRows(ids: set<int>, after: int, limit: nat)
    ensures var page := Page(ids, after, limit);
      && Increasing(page)
      && (forall x :: x in page ==> x in ids && x > after)
      && (forall x :: x in ids && x > after ==> x in page || (|page| == limit && forall y :: y in page ==> y < x))
  {
    var all := SortedOf(After(ids, after));
    var page := Page(ids, after, limit);
    assert forall i :: 0 <= i < |page| ==> page[i] == all[i];
    assert forall i :: 0 <= i < |all| ==> all[i] in all;
    forall x | x in ids && x > after
      ensures x in page || (|page| == limit && forall y :: y in page ==> y < x)
    {
      assert x in all;
      var k :| 0 <= k < |all| && all[k] == x;
      if k < |page| {
        assert page[k] == x;
      }
    }
  }

  lemma IncreasingConcat(a: seq<int>, b: seq<int>, m: int)
    requires Increasing(a) && Increasing(b)
    requires forall x :: x in a ==> x <= m
    requires forall x :: x in b ==> x > m
    ensures Increasing(a + b)
  {
    assert forall i :: 0 <= i < |a| ==> a[i] in a;
    assert forall i :: 0 <= i < |b| ==> b[i] in b;
  }

  lemma LastIsLargest(page: seq<int>, limit: nat)
    requires Increasing(page) && NextCursor(page, limit).Some?
    ensures NextCursor(page, limit).value in page
    ensures forall x :: x in page ==> x <= NextCursor(page, limit).value
  {
  }

  /** Whatever happens to the table between the requests, ids come out increasing, so no
      row is listed twice, and each row listed was there when its page was read. */
  lemma {:induction false} WalkIncreasing(tables: seq<set<int>>, after: int, limit: nat)
    ensures var pages := Walk(tables, after, limit);
      && Increasing(Flatten(pages))
      && (forall x :: x in Flatten(pages) ==> x > after)
      && (forall k :: 0 <= k < |pages| ==> Elems(pages[k]) <= tables[k])
  {
    if tables != [] {
      var page := Page(tables[0], after, limit);
      PageRows(tables[0], after, limit);
      var next := NextCursor(page, limit);
      if next.Some? {
        var rest := Walk(tables[1..], next.value, limit);
        WalkIncreasing(tables[1..], next.value, limit);
        LastIsLargest(page, limit);
        FlattenFront(page, rest);
        IncreasingConcat(page, Flatten(rest), next.value);
      } else {
        FlattenFront(page, []);
        assert page + [] == page;
      }
    }
  }

  /** A row that is there at every request of a completed walk is listed (once, by
      WalkIncreasing), however the other rows come and go. */
  lemma {:induction false} WalkMissesNothing(tables: seq<set<int>>, after: int, limit: nat, x: int)
    requires var pages := Walk(tables, after, limit);
      Complete(pages, limit) && forall k :: 0 <= k < |pages| ==> x in tables[k]
    requires x > after && limit >= 1
    ensures x in Flatten(Walk(tables, after, limit))
  {
    var page := Page(tables[0], after, limit);
    PageRows(tables[0], after, limit);
    var next := NextCursor(page, limit);
    var pages := Walk(tables, after, limit);
    var rest := pages[1..];
    FlattenFront(page, rest);
    assert pages == [page] + rest && x in tables[0];
    if next.Some? && x !in page {
      assert rest == Walk(tables[1..], next.value, limit);
      assert forall k :: 0 <= k < |rest| ==> tables[1..][k] == tables[k + 1];
      WalkGoesOn(page, rest, limit);
      LastIsLargest(page, limit);
      WalkMissesNothing(tables[1..], next.value, limit, x);
    }
  }

  lemma WalkGoesOn(page: seq<int>, rest: seq<seq<int>>, limit: nat)
    requires Complete([page] + rest, limit) && NextCursor(page, limit).Some?
    ensures Complete(rest, limit)
  {
    var pages := [page] + rest;
    assert rest != [] || pages == [page];
    assert rest != [] ==> pages[|pages| - 1] == rest[|rest| - 1];
  }

  // --- a table that stays as it is ---

  function Repeat(ids: set<int>, requests: nat): (tables: seq<set<int>>)
    ensures |tables| == requests && forall k :: 0 <= k < requests ==> tables[k] == ids
  {
    seq(requests, _ => ids)
  }

  lemma RestAfterPage(ids: set<int>, after: int, limit: nat)
    requires limit >= 1 && |After(ids, after)| >= limit
    ensures var page := Page(ids, after, limit);
      && |page| == limit
      && |After(ids, page[limit - 1])| == |After(ids, after)| - limit
      && SortedOf(After(ids, after)) == page + SortedOf(After(ids, page[limit - 1]))
  {
    hide SortedOf;
    var all := SortedOf(After(ids, after));
    var last := all[limit - 1];
    var rest := SortedOf(After(ids, last));
    assert all == all[..limit] + all[limit..];
    forall x
      ensures x in all[limit..] <==> x in rest
    {
      TailAbove(all, limit, x);
      assert last in all;
    }
    IncreasingUnique(all[limit..], rest);
    assert |all| == limit ==> all[..limit] == all;
  }

  lemma TailAbove(all: seq<int>, limit: nat, x: int)
    requires Increasing(all) && 1 <= limit <= |all|
    ensures x in all[limit..] <==> x in all && x > all[limit - 1]
  {
    if x in all && x > all[limit - 1] {
      var k :| 0 <= k < |all| && all[k] == x;
      assert k >= limit && all[limit..][k - limit] == x;
    }
  }

  /** How many requests a walk over n rows takes. */
  function Requests(n: nat, limit: nat): (k: nat)
    requires limit >= 1
    ensures k >= 1
  {
    n / limit + 1
  }

  lemma OneLess(n: nat, limit: nat)
    requires limit >= 1
    ensures n < limit ==> Requests(n, limit) == 1
    ensures n >= limit ==> Requests(n, limit) == Requests(n - limit, limit) + 1
  {
    if n >= limit {
      var m := n - limit;
      var q, r, p, t := m / limit, m % limit, n / limit, n % limit;
      assert m == limit * q + r && n == limit * p + t;
      var d := p - q - 1;
      assert limit * d == r - t;
      assert d >= 1 ==> limit * d >= limit;
      assert d <= -1 ==> limit * d <= 0 - limit;
    }
  }

  lemma WalkUnrolls(ids: set<int>, after: int, limit: nat, requests: nat)
    requires requests >= 1
    ensures var next := NextCursor(Page(ids, after, limit), limit);
      Walk(Repeat(ids, requests), after, limit) ==
      [Page(ids, after, limit)] +
      (if next.Some? then Walk(Repeat(ids, requests - 1), next.value, limit) else [])
  {
    assert Repeat(ids, requests)[1..] == Repeat(ids, requests - 1);
  }

  lemma LastPage(ids: set<int>, after: int, limit: nat)
    requires |After(ids, after)| < limit
    ensures Page(ids, after, limit) == SortedOf(After(ids, after))
    ensures NextCursor(Page(ids, after, limit), limit).None?
  {
    hide After;
  }

  lemma CompletePrepend(page: seq<int>, rest: seq<seq<int>>, limit: nat)
    requires if rest == [] then NextCursor(page, limit).None? else Complete(rest, limit)
    ensures Complete([page] + rest, limit)
  {
    hide NextCursor;
    var pages := [page] + rest;
    assert rest != [] ==> pages[|pages| - 1] == rest[|rest| - 1];
  }

  /** Following the cursors over an unchanging table ends after n / limit + 1 requests and
      lists exactly the rows above the first cursor, in id order. */
  lemma {:induction false} WalkFixed(ids: set<int>, after: int, limit: nat, requests: nat)
    requires limit >= 1 && requests >= Requests(|After(ids, after)|, limit)
    ensures var pages := Walk(Repeat(ids, requests), after, limit);
      && Complete(pages, limit)
      && |pages| == Requests(|After(ids, after)|, limit)
      && Flatten(pages) == SortedOf(After(ids, after))
    decreases requests
  {
    hide SortedOf, After, Walk, Page, Repeat, Flatten, Complete, Requests;
    var n := |After(ids, after)|;
    var page := Page(ids, after, limit);
    WalkUnrolls(ids, after, limit, requests);
    OneLess(n, limit);
    if n >= limit {
      RestAfterPage(ids, after, limit);
      WalkFixed(ids, page[limit - 1], limit, requests - 1);
      var rest := Walk(Repeat(ids, requests - 1), page[limit - 1], limit);
      FlattenFront(page, rest);
      CompletePrepend(page, rest, limit);
    } else {
      LastPage(ids, after, limit);
      FlattenFront(page, []);
      EmptyFlatten(page);
      CompletePrepend(page, [], limit);
    }
  }

  lemma EmptyFlatten(page: seq<int>)
    ensures page + Flatten([]) == page
  {
  }
}
