/** The plain sort of a finite set of events by (lamport, timestamp, id). */
module Sorting {
  import opened Events

  /** The latest event of a set: everything else comes before it. */
  ghost predicate IsLatest(s: set<Event>, m: Event) {
    m in s && forall x :: x in s && x != m ==> Before(x, m)
  }

  lemma LatestExists(s: set<Event>) returns (m: Event)
    requires s != {} && DistinctIds(s)
    ensures IsLatest(s, m)
  {
    var x :| x in s;
    if s == {x} {
      m := x;
    } else {
      var rest := s - {x};
      assert s == rest + {x};
      var y := LatestExists(rest);
      assert x.id != y.id;
      m := if Before(x, y) then y else x;
      assert forall z :: z in s && z != x ==> z in rest;
    }
  }

  ghost function Latest(s: set<Event>): (m: Event)
    requires s != {} && DistinctIds(s)
    ensures IsLatest(s, m)
  {
    assert exists m :: IsLatest(s, m) by { var m := LatestExists(s); }
    var m :| IsLatest(s, m); m
  }

  /** The events of `s`, each once, in increasing order. */
  ghost function Sorted(s: set<Event>): (r: seq<Event>)
    requires DistinctIds(s)
    ensures |r| == |s| && forall x :: x in r <==> x in s
    ensures Increasing(r)
    decreases |s|
  {
    if s == {} then [] else
      var m := Latest(s);
      Sorted(s - {m}) + [m]
  }

  ghost predicate Increasing(r: seq<Event>) {
    forall i, j :: 0 <= i < j < |r| ==> Before(r[i], r[j])
  }

  /** An event that comes after all of `s` is simply appended. */
  lemma SortedAppend(s: set<Event>, e: Event)
    requires DistinctIds(s + {e}) && e !in s
    requires forall x :: x in s ==> Before(x, e)
    ensures Sorted(s + {e}) == Sorted(s) + [e]
  {
    var all := s + {e};
    assert IsLatest(all, e);
    assert Latest(all) == e;
    assert all - {e} == s;
  }

  /** An increasing sequence is the sort of its own elements, so the sort is unique. */
  lemma {:induction false} SortedUnique(s: set<Event>, r: seq<Event>)
    requires DistinctIds(s)
    requires Increasing(r) && forall x :: x in r <==> x in s
    ensures r == Sorted(s)
    decreases |r|
  {
    if r == [] {
      assert forall x :: x !in s;
    } else {
      var n := |r| - 1;
      var m, front := r[n], r[..n];
      assert r == front + [m];
      assert m in r && m !in front;
      forall x | x in s && x != m ensures Before(x, m) {
        assert x in r;
        var i :| 0 <= i < |r| && r[i] == x;
      }
      forall x ensures x in front <==> x in s - {m} {
        if x in front { assert x in r; }
        if x in s - {m} { assert x in r; }
      }
      SortedUnique(s - {m}, front);
      assert s == (s - {m}) + {m};
      SortedAppend(s - {m}, m);
    }
  }

  /** The earliest of a non-empty set, by which an ordered set is popped. */
  lemma EarliestExists(s: set<Event>) returns (m: Event)
    requires s != {} && DistinctIds(s)
    ensures m in s && forall x :: x in s && x != m ==> Before(m, x)
  {
    var r := Sorted(s);
    var x :| x in s;
    assert x in r;
    m := r[0];
    forall x | x in s && x != m ensures Before(m, x) {
      assert x in r;
      var i :| 0 <= i < |r| && r[i] == x;
    }
  }

  /** A library sort: take the earliest remaining event until none is left. */
  method SortEvents(s: set<Event>) returns (r: seq<Event>)
    requires DistinctIds(s)
    ensures r == Sorted(s)
  {
    r := [];
    var todo := s;
    while todo != {}
      invariant todo <= s
      invariant forall x :: x in r <==> x in s - todo
      invariant Increasing(r)
      invariant forall x, y :: x in r && y in todo ==> Before(x, y)
      decreases |todo|
    {
      ghost var w := EarliestExists(todo);
      var m :| m in todo && forall x :: x in todo && x != m ==> Before(m, x);
      r := r + [m];
      todo := todo - {m};
    }
    SortedUnique(s, r);
  }
}
