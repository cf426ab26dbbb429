/** Replicas that receive the same events in any order end with the same graph. */
module Convergence {
  import opened Events
  import opened Sorting
  import opened CausalGraph
  import opened EventGraphs

  /** The graph after a sequence of arrivals, refused ones included. */
  function InsertAll(log: seq<Event>): (g: Graph) {
    if log == [] then EMPTY else
      Insert(InsertAll(log[..|log| - 1]), log[|log| - 1])
  }

  /** Every arrival was reported as a success. */
  predicate AllSucceed(log: seq<Event>) {
    log == []
    || (AllSucceed(log[..|log| - 1]) && Succeeds(InsertAll(log[..|log| - 1]), log[|log| - 1]))
  }

  ghost function Elements(log: seq<Event>): set<Event> {
    set x | x in log
  }

  /** What content addressing gives: an id names one event, and no event can name itself. */
  ghost predicate Authentic(s: set<Event>) {
    DistinctIds(s) && forall e :: e in s ==> e.id !in e.parents
  }

  /** Along every edge inside the set the Lamport clock grows. */
  ghost predicate LamportConsistent(s: set<Event>) {
    forall c, p :: c in s && p in s && p.id in c.parents ==> p.lamport < c.lamport
  }

  lemma {:induction false} ReachableIsValid(log: seq<Event>)
    ensures Valid(InsertAll(log))
    ensures EventSet(InsertAll(log)) <= Elements(log)
  {
    if log != [] {
      var n := |log| - 1;
      ReachableIsValid(log[..n]);
      InsertKeepsValid(InsertAll(log[..n]), log[n]);
      InsertAddsOnly(InsertAll(log[..n]), log[n]);
      assert log == log[..n] + [log[n]];
    }
  }

  /** Without self-parents every reachable graph is causal, whatever was offered to it. */
  lemma {:induction false} ReachableIsCausal(log: seq<Event>)
    requires forall e :: e in log ==> e.id !in e.parents
    ensures Causal(InsertAll(log))
  {
    if log != [] {
      var n := |log| - 1;
      var g, e := InsertAll(log[..n]), log[n];
      ReachableIsCausal(log[..n]);
      ReachableIsValid(log[..n]);
      if e.id !in g.events && Accepts(g, e) { InsertKeepsCausal(g, e); }
    }
  }

  /** The clock grows along every edge between `e` and the set. */
  ghost predicate EdgesGrow(s: set<Event>, e: Event) {
    && (forall p :: p in s && p.id in e.parents ==> p.lamport < e.lamport)
    && (forall c :: c in s && e.id in c.parents ==> e.lamport < c.lamport)
  }

  /** The insertion check is exactly clock growth along the newcomer's edges, whatever arrived first. */
  lemma AcceptsIffEdgesGrow(g: Graph, e: Event)
    requires Valid(g)
    ensures Accepts(g, e) <==> EdgesGrow(EventSet(g), e)
  {
    KidIffNamed(g, e.id);
    EventSetDistinct(g);
    if EdgesGrow(EventSet(g), e) {
      forall p | p in e.parents && p in g.events ensures g.events[p].lamport < e.lamport {
        assert g.events[p] in EventSet(g);
      }
      forall c | c in Kids(g.children, e.id) && c in g.events ensures e.lamport < g.events[c].lamport {
        assert g.events[c] in EventSet(g);
      }
    }
  }

  lemma AcceptsIffConsistent(g: Graph, s: set<Event>, e: Event)
    requires Valid(g) && EventSet(g) == s && Authentic(s + {e}) && LamportConsistent(s)
    ensures Succeeds(g, e) <==> LamportConsistent(s + {e})
    ensures Succeeds(g, e) ==> EventSet(Insert(g, e)) == s + {e}
  {
    assert LamportConsistent(s + {e}) <==> EdgesGrow(s, e);
    AcceptsIffEdgesGrow(g, e);
    if e.id in g.events {
      assert g.events[e.id] in s + {e} && e in s + {e};
      assert s + {e} == s;
    } else if Accepts(g, e) {
      InsertedSet(g, e);
    }
  }

  lemma InsertedSet(g: Graph, e: Event)
    requires Keyed(g) && e.id !in g.events && Accepts(g, e)
    ensures EventSet(Insert(g, e)) == EventSet(g) + {e}
  {
    var r := Insert(g, e);
    assert r.events == g.events[e.id := e];
    forall x ensures x in EventSet(r) <==> x in EventSet(g) + {e} {
      if x in EventSet(r) {
        var k :| k in r.events && r.events[k] == x;
      }
      if x in EventSet(g) {
        var k :| k in g.events && g.events[k] == x;
        assert r.events[k] == x;
      }
      if x == e { assert r.events[e.id] == x; }
    }
  }

  /** A set is accepted completely, in whatever order it arrives, exactly when its clocks are consistent. */
  lemma {:induction false} AcceptedIffConsistent(log: seq<Event>)
    requires Authentic(Elements(log))
    ensures AllSucceed(log) <==> LamportConsistent(Elements(log))
    ensures AllSucceed(log) ==> EventSet(InsertAll(log)) == Elements(log)
  {
    if log != [] {
      var n := |log| - 1;
      var front, e := log[..n], log[n];
      assert log == front + [e];
      assert Elements(log) == Elements(front) + {e};
      AcceptedIffConsistent(front);
      if LamportConsistent(Elements(front)) {
        ReachableIsValid(front);
        AcceptsIffConsistent(InsertAll(front), Elements(front), e);
      }
    }
  }

  /** Equal events force equal heads and equal child counts, whatever the arrival order was. */
  lemma EventsDetermineGraph(g: Graph, h: Graph)
    requires Valid(g) && Valid(h) && g.events == h.events
    ensures g.heads == h.heads
    ensures forall p :: multiset(Kids(g.children, p)) == multiset(Kids(h.children, p))
  {
    forall k ensures k in g.heads <==> k in h.heads {
      assert Named(g, k) <==> Named(h, k);
    }
    forall p ensures multiset(Kids(g.children, p)) == multiset(Kids(h.children, p)) {
      forall c ensures multiset(Kids(g.children, p))[c] == multiset(Kids(h.children, p))[c] {
        assert multiset(Kids(g.children, p))[c] == Mentions(g, c, p);
        assert multiset(Kids(h.children, p))[c] == Mentions(h, c, p);
      }
    }
  }

  lemma EventSetDeterminesEvents(g: Graph, h: Graph)
    requires Keyed(g) && Keyed(h) && EventSet(g) == EventSet(h)
    ensures g.events == h.events
  {
    forall k ensures k in g.events <==> k in h.events {
      if k in g.events { assert g.events[k] in EventSet(h); }
      if k in h.events { assert h.events[k] in EventSet(g); }
    }
    forall k | k in g.events ensures g.events[k] == h.events[k] {
      assert g.events[k] in EventSet(h);
    }
  }

  /** Strong convergence: two replicas that received the same consistent set, in any orders and with any
      repetitions, accepted everything and hold the same events, heads, sort and child counts. */
  lemma Converge(a: seq<Event>, b: seq<Event>)
    requires Elements(a) == Elements(b) && Authentic(Elements(a)) && LamportConsistent(Elements(a))
    ensures AllSucceed(a) && AllSucceed(b)
    ensures EventSet(InsertAll(a)) == Elements(a)
    ensures InsertAll(a).events == InsertAll(b).events && InsertAll(a).heads == InsertAll(b).heads
    ensures forall p :: multiset(Kids(InsertAll(a).children, p)) == multiset(Kids(InsertAll(b).children, p))
  {
    AcceptedIffConsistent(a);
    AcceptedIffConsistent(b);
    ReachableIsValid(a);
    ReachableIsValid(b);
    EventSetDeterminesEvents(InsertAll(a), InsertAll(b));
    EventsDetermineGraph(InsertAll(a), InsertAll(b));
  }

  // ---- Without consistent clocks the arrival order decides ----

  /** The final events do not depend on the order in which the set arrives. */
  ghost predicate OrderIndependent(s: set<Event>) {
    forall a, b :: Elements(a) == s && Elements(b) == s ==> InsertAll(a).events == InsertAll(b).events
  }

  lemma {:induction false} EventsOnlyGrow(log: seq<Event>, i: nat)
    requires i <= |log|
    ensures forall k :: k in InsertAll(log[..i]).events ==>
      k in InsertAll(log).events && InsertAll(log).events[k] == InsertAll(log[..i]).events[k]
    decreases |log|
  {
    if i < |log| {
      var n := |log| - 1;
      assert log[..n][..i] == log[..i];
      EventsOnlyGrow(log[..n], i);
    } else {
      assert log[..i] == log;
    }
  }

  /** The event that arrives first is always kept. */
  lemma FirstIsKept(e: Event, rest: seq<Event>)
    ensures e.id in InsertAll([e] + rest).events && InsertAll([e] + rest).events[e.id] == e
  {
    var log := [e] + rest;
    assert log[..1] == [e] && log[..1][..0] == [];
    assert InsertAll([e]) == Insert(EMPTY, e);
    EventsOnlyGrow(log, 1);
  }

  lemma SomeOrder(s: set<Event>) returns (log: seq<Event>)
    ensures Elements(log) == s
  {
    if s == {} {
      log := [];
    } else {
      var x :| x in s;
      var rest := SomeOrder(s - {x});
      log := [x] + rest;
      assert s == (s - {x}) + {x};
    }
  }

  /** The order of arrival is irrelevant exactly when the clocks are consistent: across an edge that does
      not grow, whichever end arrives first shuts the other out. */
  lemma OrderIndependentIffConsistent(s: set<Event>)
    requires Authentic(s)
    ensures OrderIndependent(s) <==> LamportConsistent(s)
  {
    if LamportConsistent(s) {
      forall a, b | Elements(a) == s && Elements(b) == s ensures InsertAll(a).events == InsertAll(b).events {
        Converge(a, b);
      }
    } else {
      var c, p :| c in s && p in s && p.id in c.parents && !(p.lamport < c.lamport);
      var a, b := FirstWins(s, c, p);
    }
  }

  /** Across an edge that does not grow, two orders keep different ends. */
  lemma FirstWins(s: set<Event>, c: Event, p: Event) returns (a: seq<Event>, b: seq<Event>)
    requires Authentic(s) && c in s && p in s && p.id in c.parents && !(p.lamport < c.lamport)
    ensures Elements(a) == s && Elements(b) == s && InsertAll(a).events != InsertAll(b).events
  {
    var rest := SomeOrder(s);
    a, b := [c] + rest, [p] + rest;
    assert Elements(a) == s && Elements(b) == s;
    FirstIsKept(c, rest);
    FirstIsKept(p, rest);
    NeverBoth(a, c, p);
  }

  lemma NeverBoth(log: seq<Event>, c: Event, p: Event)
    requires (forall e :: e in log ==> e.id !in e.parents) && p.id in c.parents && !(p.lamport < c.lamport)
    requires c.id in InsertAll(log).events && InsertAll(log).events[c.id] == c
    ensures !(p.id in InsertAll(log).events && InsertAll(log).events[p.id] == p)
  {
    ReachableIsCausal(log);
  }

  /** A reload in directory order brings back every object exactly when their clocks are consistent. */
  lemma ReloadIsCompleteIff(order: seq<Event>)
    requires Authentic(Elements(order))
    ensures EventSet(InsertAll(order)) == Elements(order) <==> LamportConsistent(Elements(order))
  {
    AcceptedIffConsistent(order);
    var g := InsertAll(order);
    ReachableIsValid(order);
    ReachableIsCausal(order);
    EventSetDistinct(g);
    if EventSet(g) == Elements(order) {
      forall c, p | c in Elements(order) && p in Elements(order) && p.id in c.parents ensures p.lamport < c.lamport {
        assert g.events[c.id] == c && g.events[p.id] == p;
      }
    }
  }

  // ---- What the sort means for the graph ----

  /** In the sort every present parent comes before its children. */
  lemma ParentsFirst(g: Graph, i: nat, j: nat)
    requires Keyed(g) && Causal(g) && DistinctIds(EventSet(g))
    requires i < |Sorted(EventSet(g))| && j < |Sorted(EventSet(g))|
    requires Sorted(EventSet(g))[i].id in Sorted(EventSet(g))[j].parents
    ensures i < j
  {
    EventSetDistinct(g);
    var r := Sorted(EventSet(g));
    var a, b := r[i], r[j];
    assert a in r && b in r;
    assert g.events[a.id] == a && g.events[b.id] == b;
    assert j < i ==> Before(b, a);
  }
}
