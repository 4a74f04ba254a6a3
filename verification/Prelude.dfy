/** Option, and the few facts about sequences, sets and sorted ids the other modules share. */
module Prelude {

  datatype Option<+T> = None | Some(value: T)

  function Flatten<T>(xss: seq<seq<T>>): seq<T> {
    if xss == [] then [] else Flatten(xss[..|xss| - 1]) + xss[|xss| - 1]
  }

  /** No value occurs twice. */
  ghost predicate NoDup<T>(s: seq<T>) {
    forall i, j :: 0 <= i < j < |s| ==> s[i] != s[j]
  }

  function Elems<T>(s: seq<T>): set<T> {
    set x | x in s
  }

  predicate Increasing(s: seq<int>) {
    forall i, j :: 0 <= i < j < |s| ==> s[i] < s[j]
  }

  lemma Inhabited(s: set<int>)
    ensures s != {} <==> exists x :: x in s
  {
    assert (forall x: int :: x !in s) ==> s == {};
  }

  lemma {:induction false} MinExists(s: set<int>)
    requires s != {}
    ensures exists m :: m in s && forall y :: y in s ==> m <= y
    decreases |s|
  {
    Inhabited(s);
    var x :| x in s;
    var rest := s - {x};
    if rest == {} {
      assert s == {x};
    } else {
      MinExists(rest);
      var m :| m in rest && forall y :: y in rest ==> m <= y;
      var least := if x < m then x else m;
      forall y | y in s
        ensures least <= y
      {
        assert y == x || y in rest;
      }
      assert least in s;
    }
  }

  function Min(s: set<int>): (m: int)
    requires s != {}
    ensures m in s && forall y :: y in s ==> m <= y
  {
    MinExists(s);
    var m :| m in s && forall y :: y in s ==> m <= y;
    m
  }

  /** The elements in increasing order: what ORDER BY id returns. */
  function SortedOf(s: set<int>): (r: seq<int>)
    ensures Increasing(r)
    ensures forall x :: x in r <==> x in s
    ensures |r| == |s|
    decreases |s|
  {
    if s == {} then [] else
      var m := Min(s);
      var rest := SortedOf(s - {m});
      assert forall i :: 0 <= i < |rest| ==> rest[i] in rest;
      [m] + rest
  }

  lemma {:induction false} IncreasingUnique(a: seq<int>, b: seq<int>)
    requires Increasing(a) && Increasing(b)
    requires forall x :: x in a <==> x in b
    ensures a == b
  {
    assert forall i :: 0 <= i < |a| ==> a[i] in a;
    assert forall i :: 0 <= i < |b| ==> b[i] in b;
    if a != [] && b != [] {
      assert a[0] == b[0];
      forall x
        ensures x in a[1..] <==> x in b[1..]
      {
        if x in a[1..] { assert x in a && x != a[0]; }
        if x in b[1..] { assert x in b && x != b[0]; }
      }
      IncreasingUnique(a[1..], b[1..]);
    }
  }

  lemma {:induction false} FlattenFront<T>(x: seq<T>, xss: seq<seq<T>>)
    ensures Flatten([x] + xss) == x + Flatten(xss)
  {
    if xss == [] {
      assert ([x] + xss)[..0] == [] && [] + x == x + [];
    } else {
      var n := |xss| - 1;
      assert ([x] + xss)[..n + 1] == [x] + xss[..n];
      FlattenFront(x, xss[..n]);
      assert x + (Flatten(xss[..n]) + xss[n]) == (x + Flatten(xss[..n])) + xss[n];
    }
  }

  lemma {:induction false} FlattenMember<T>(xss: seq<seq<T>>, x: T)
    ensures x in Flatten(xss) <==> exists k :: 0 <= k < |xss| && x in xss[k]
  {
    if xss != [] {
      var n := |xss| - 1;
      FlattenMember(xss[..n], x);
      if x in Flatten(xss) && x !in xss[n] {
        var k :| 0 <= k < n && x in xss[..n][k];
        assert x in xss[k];
      }
      if k :| 0 <= k < |xss| && x in xss[k] {
        assert k < n ==> x in xss[..n][k];
      }
    }
  }

  /** Parts of a sequence without repetitions have no element in common. */
  lemma {:induction false} FlattenNoDup<T>(xss: seq<seq<T>>)
    requires NoDup(Flatten(xss))
    ensures forall k :: 0 <= k < |xss| ==> NoDup(xss[k])
    ensures forall k, l, x :: 0 <= k < l < |xss| && x in xss[k] ==> x !in xss[l]
  {
    if xss != [] {
      var n := |xss| - 1;
      var front, last := Flatten(xss[..n]), xss[n];
      var all := front + last;
      assert forall i :: 0 <= i < |front| ==> all[i] == front[i];
      assert forall i :: 0 <= i < |last| ==> all[|front| + i] == last[i];
      FlattenNoDup(xss[..n]);
      forall k | 0 <= k < |xss|
        ensures NoDup(xss[k])
      {
        assert k < n ==> xss[k] == xss[..n][k];
      }
      forall k, l, x | 0 <= k < l < |xss| && x in xss[k]
        ensures x !in xss[l]
      {
        if l < n {
          assert x in xss[..n][k] && xss[..n][l] == xss[l];
        } else {
          assert x in xss[..n][k];
          FlattenMember(xss[..n], x);
        }
      }
    }
  }
}
