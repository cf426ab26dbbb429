/** The mutable event graph: insertion and the deterministic topological sort. */
module EventGraphs {
  import opened Events
  import opened Sorting
  import opened CausalGraph

  /** How many positions of `parents` hold an id of `live`. */
  function Live(parents: seq<ObjectId>, live: set<ObjectId>): nat {
    if parents == [] then 0 else
      Live(parents[1..], live) + if parents[0] in live then 1 else 0
  }

  lemma {:induction false} LiveDrop(parents: seq<ObjectId>, live: set<ObjectId>, x: ObjectId)
    requires x in live
    ensures Live(parents, live) == Live(parents, live - {x}) + multiset(parents)[x]
  {
    if parents != [] {
      LiveDrop(parents[1..], live, x);
      assert parents == [parents[0]] + parents[1..];
    }
  }

  lemma {:induction false} LiveZero(parents: seq<ObjectId>, live: set<ObjectId>)
    ensures Live(parents, live) == 0 <==> forall p :: p in parents ==> p !in live
  {
    if parents != [] {
      LiveZero(parents[1..], live);
      assert parents == [parents[0]] + parents[1..];
    }
  }

  lemma EventSetDistinct(g: Graph)
    requires Keyed(g)
    ensures DistinctIds(EventSet(g))
    ensures forall x :: x in EventSet(g) <==> x.id in g.events && g.events[x.id] == x
  {
  }

  // ---- The state of the sorting loop ----

  /** `done` is emitted, and the degrees count the parents still to come. */
  ghost predicate Counted(g: Graph, done: set<ObjectId>, degrees: map<ObjectId, nat>) {
    && done <= g.events.Keys
    && degrees.Keys == g.events.Keys
    && (forall k :: k in g.events ==> degrees[k] == Live(g.events[k].parents, g.events.Keys - done))
    && (forall k :: k in done ==> degrees[k] == 0)
  }

  /** The ready set has exactly the events of degree 0 that are not emitted. */
  ghost predicate Frontier(g: Graph, done: set<ObjectId>, degrees: map<ObjectId, nat>, ready: set<Event>) {
    && Counted(g, done, degrees)
    && (forall x :: x in ready
         <==> x.id in g.events && g.events[x.id] == x && x.id !in done && degrees[x.id] == 0)
  }

  /** What has been emitted so far: each done event once. */
  ghost predicate Emits(g: Graph, done: set<ObjectId>, result: seq<Event>) {
    && |result| == |done|
    && (forall x :: x in result <==> x.id in done && x.id in g.events && g.events[x.id] == x)
  }

  /** The emitted events are in order and come before everything not yet emitted. */
  ghost predicate Leads(g: Graph, done: set<ObjectId>, result: seq<Event>)
    requires Keyed(g)
  {
    && Increasing(result)
    && (forall x, y :: x in result && y in Unemitted(g, done) ==> Before(x, y))
  }

  /** An event popped from the ready set charges each of its children within what they still wait for. */
  lemma ChildrenOwe(g: Graph, done: set<ObjectId>, degrees: map<ObjectId, nat>, ready: set<Event>, m: Event)
    requires Valid(g) && Frontier(g, done, degrees, ready) && m in ready
    ensures forall k :: k in g.events ==> multiset(Kids(g.children, m.id))[k] <= degrees[k]
    ensures forall k :: k in g.events ==>
      degrees[k] - multiset(Kids(g.children, m.id))[k] == Live(g.events[k].parents, g.events.Keys - (done + {m.id}))
    ensures m.id !in Kids(g.children, m.id)
    ensures forall k :: k in done ==> k !in Kids(g.children, m.id)
  {
    var live, kids := g.events.Keys - done, Kids(g.children, m.id);
    forall k | k in g.events
      ensures multiset(kids)[k] <= degrees[k]
      ensures degrees[k] - multiset(kids)[k] == Live(g.events[k].parents, g.events.Keys - (done + {m.id}))
    {
      LiveDrop(g.events[k].parents, live, m.id);
      assert live - {m.id} == g.events.Keys - (done + {m.id});
      assert multiset(kids)[k] == Mentions(g, k, m.id);
    }
    assert forall k :: k in kids <==> k in multiset(kids);
  }

  /** The events not yet emitted. */
  ghost function Unemitted(g: Graph, done: set<ObjectId>): (r: set<Event>)
    requires Keyed(g)
    ensures forall x :: x in r <==> x.id in g.events && g.events[x.id] == x && x.id !in done
  {
    set k | k in g.events && k !in done :: g.events[k]
  }

  lemma UnemittedNonEmpty(g: Graph, done: set<ObjectId>)
    requires Keyed(g) && done <= g.events.Keys && done != g.events.Keys
    ensures Unemitted(g, done) != {}
  {
    assert g.events.Keys == done + (g.events.Keys - done);
    var k :| k in g.events.Keys - done;
    assert g.events[k] in Unemitted(g, done);
  }

  /** In a causal graph the earliest event not yet emitted waits for nothing. */
  lemma EarliestIsReady(g: Graph, done: set<ObjectId>, degrees: map<ObjectId, nat>, ready: set<Event>)
    returns (m: Event)
    requires Keyed(g) && Causal(g) && Frontier(g, done, degrees, ready) && done != g.events.Keys
    ensures m in ready && forall x :: x in Unemitted(g, done) && x != m ==> Before(m, x)
  {
    var rest := Unemitted(g, done);
    UnemittedNonEmpty(g, done);
    m := EarliestExists(rest);
    assert forall p :: p in m.parents && p in g.events ==> g.events[p] !in rest;
    LiveZero(m.parents, g.events.Keys - done);
  }

  /** Popping the earliest ready event keeps the emitted prefix in order. */
  lemma PopLeads(g: Graph, done: set<ObjectId>, degrees: map<ObjectId, nat>, ready: set<Event>,
                 result: seq<Event>, m: Event)
    requires Keyed(g) && Causal(g) && Frontier(g, done, degrees, ready)
    requires Emits(g, done, result) && Leads(g, done, result)
    requires m in ready && forall x :: x in ready && x != m ==> Before(m, x)
    ensures Leads(g, done + {m.id}, result + [m])
  {
    var w := EarliestIsReady(g, done, degrees, ready);
    assert m in Unemitted(g, done) && w == m;
  }

  /** One round of the loop: `m` leaves the ready set and its children are charged. */
  lemma PopKeepsFrontier(g: Graph, done: set<ObjectId>, degrees: map<ObjectId, nat>, ready: set<Event>, m: Event,
                         degrees': map<ObjectId, nat>, ready': set<Event>)
    requires Valid(g) && Frontier(g, done, degrees, ready) && m in ready
    requires degrees'.Keys == g.events.Keys
    requires forall k :: k in g.events ==> degrees'[k] + multiset(Kids(g.children, m.id))[k] == degrees[k]
    requires Released(g.events, Kids(g.children, m.id), ready - {m}, degrees', ready')
    ensures Frontier(g, done + {m.id}, degrees', ready')
  {
    PopKeepsCounts(g, done, degrees, ready, m, degrees');
    assert m.id !in Kids(g.children, m.id) && forall k :: k in done ==> k !in Kids(g.children, m.id) by {
      ChildrenOwe(g, done, degrees, ready, m);
    }
    forall x: Event ensures x in ready'
      <==> (x.id in g.events && g.events[x.id] == x && x.id !in done + {m.id} && degrees'[x.id] == 0)
    {
      ReadyAfterPop(g, done, degrees, ready, m, Kids(g.children, m.id), degrees', ready', x);
    }
  }

  lemma ReadyAfterPop(g: Graph, done: set<ObjectId>, degrees: map<ObjectId, nat>, ready: set<Event>, m: Event,
                      kids: seq<ObjectId>, degrees': map<ObjectId, nat>, ready': set<Event>, x: Event)
    requires Frontier(g, done, degrees, ready) && m in ready && degrees'.Keys == g.events.Keys
    requires x.id in g.events ==> degrees'[x.id] + multiset(kids)[x.id] == degrees[x.id]
    requires Released(g.events, kids, ready - {m}, degrees', ready')
    requires m.id !in kids && (x.id in done ==> x.id !in kids)
    ensures x in ready'
      <==> (x.id in g.events && g.events[x.id] == x && x.id !in done + {m.id} && degrees'[x.id] == 0)
  {
    if x.id in g.events { ChargedIff(kids, x.id, degrees'[x.id], degrees[x.id]); }
  }

  /** A degree moves exactly for the children. */
  lemma ChargedIff(kids: seq<ObjectId>, k: ObjectId, after: nat, before: nat)
    requires after + multiset(kids)[k] == before
    ensures after == before <==> k !in kids
  {
    assert k in kids <==> k in multiset(kids);
  }

  lemma PopKeepsCounts(g: Graph, done: set<ObjectId>, degrees: map<ObjectId, nat>, ready: set<Event>, m: Event,
                       degrees': map<ObjectId, nat>)
    requires Valid(g) && Frontier(g, done, degrees, ready) && m in ready
    requires degrees'.Keys == g.events.Keys
    requires forall k :: k in g.events ==> degrees'[k] + multiset(Kids(g.children, m.id))[k] == degrees[k]
    ensures Counted(g, done + {m.id}, degrees')
  {
    ChildrenOwe(g, done, degrees, ready, m);
  }

  /** The ready set after charging `kids`: the old one and the present children down to degree 0. */
  ghost predicate Released(events: map<ObjectId, Event>, kids: seq<ObjectId>, ready: set<Event>,
                           degrees: map<ObjectId, nat>, ready': set<Event>)
    requires degrees.Keys == events.Keys
  {
    forall x ::
      x in ready' <==> x in ready || (x.id in kids && x.id in events && events[x.id] == x && degrees[x.id] == 0)
  }

  lemma PopEmits(g: Graph, done: set<ObjectId>, degrees: map<ObjectId, nat>, ready: set<Event>,
                 result: seq<Event>, m: Event)
    requires Frontier(g, done, degrees, ready) && Emits(g, done, result) && m in ready
    ensures Emits(g, done + {m.id}, result + [m])
    ensures |g.events.Keys - (done + {m.id})| < |g.events.Keys - done|
  {
    assert g.events.Keys - (done + {m.id}) == (g.events.Keys - done) - {m.id};
  }

  /** When nothing is ready any more, a causal graph has been emitted completely and in order. */
  lemma CausalIsComplete(g: Graph, done: set<ObjectId>, degrees: map<ObjectId, nat>, result: seq<Event>)
    requires Keyed(g) && Causal(g) && Frontier(g, done, degrees, {})
    requires Emits(g, done, result) && Leads(g, done, result)
    ensures |result| == |g.events| && DistinctIds(EventSet(g)) && result == Sorted(EventSet(g))
  {
    if done != g.events.Keys {
      var w := EarliestIsReady(g, done, degrees, {});
      assert false;
    }
    EventSetDistinct(g);
    SortedUnique(EventSet(g), result);
  }

  lemma AllEmitted(g: Graph, done: set<ObjectId>)
    requires Keyed(g) && done <= g.events.Keys && |done| >= |g.events|
    ensures Unemitted(g, done) == {}
  {
    assert g.events.Keys == done + (g.events.Keys - done);
    assert g.events.Keys - done == {};
  }

  /** What was emitted and the sort of the rest have every event once; nothing is added to a complete list. */
  lemma EveryEventOnce(g: Graph, done: set<ObjectId>, emitted: seq<Event>)
    requires Keyed(g) && done <= g.events.Keys && Emits(g, done, emitted)
    ensures DistinctIds(Unemitted(g, done))
    ensures var all := emitted + Sorted(Unemitted(g, done));
      |all| == |g.events| && (forall x :: x in all <==> x in EventSet(g)) && (|emitted| == |g.events| ==> all == emitted)
  {
    EventSetDistinct(g);
    var left := g.events.Keys - done;
    assert g.events.Keys == done + left;
    SameSize(g.events, left);
    assert Unemitted(g, done) == set k | k in left :: g.events[k];
    if |emitted| == |g.events| { AllEmitted(g, done); }
  }

  /** The first element of an ordered set. */
  method First(ready: set<Event>) returns (m: Event)
    requires ready != {} && DistinctIds(ready)
    ensures m in ready && forall x :: x in ready && x != m ==> Before(m, x)
  {
    ghost var w := EarliestExists(ready);
    m :| m in ready && forall x :: x in ready && x != m ==> Before(m, x);
  }

  class EventGraph {
    var events: map<ObjectId, Event>
    var children: map<ObjectId, seq<ObjectId>>
    var heads: set<ObjectId>

    ghost function Value(): Graph
      reads this
    {
      Graph(events, children, heads)
    }

    constructor ()
      ensures Value() == EMPTY
    {
      events, children, heads := map[], map[], {};
    }

    /** The clock grows from every known parent and towards every child that arrived first. */
    method ClocksGrow(event: Event) returns (ok: bool)
      ensures ok == Accepts(Value(), event)
    {
      for i := 0 to |event.parents|
        invariant forall j :: 0 <= j < i && event.parents[j] in events ==>
          events[event.parents[j]].lamport < event.lamport
      {
        var parent := event.parents[i];
        if parent in events && event.lamport <= events[parent].lamport {
          return false;
        }
      }
      var early := Kids(children, event.id);
      for i := 0 to |early|
        invariant forall j :: 0 <= j < i && early[j] in events ==> event.lamport < events[early[j]].lamport
      {
        if early[i] in events && events[early[i]].lamport <= event.lamport {
          return false;
        }
      }
      ok := true;
    }

    method RegisterChild(event: Event)
      modifies this`children
      ensures children == Register(old(children), event.parents, event.id)
    {
      for i := 0 to |event.parents|
        invariant children == Register(old(children), event.parents[..i], event.id)
      {
        assert event.parents[..i + 1][..i] == event.parents[..i];
        children := children[event.parents[i] := Kids(children, event.parents[i]) + [event.id]];
      }
      assert event.parents[..|event.parents|] == event.parents;
    }

    method RetireHeads(parents: seq<ObjectId>)
      modifies this`heads
      ensures heads == old(heads) - (set p | p in parents)
    {
      for i := 0 to |parents|
        invariant heads == old(heads) - (set p | p in parents[..i])
      {
        heads := heads - {parents[i]};
      }
    }

    /** Idempotent; refuses an event whose clock does not grow along every known edge. */
    method Insert(event: Event) returns (ok: bool)
      modifies this
      ensures ok == Succeeds(old(Value()), event)
      ensures Value() == CausalGraph.Insert(old(Value()), event)
    {
      if event.id in events {
        return true;
      }
      ok := ClocksGrow(event);
      if !ok {
        return;
      }
      RegisterChild(event);
      RetireHeads(event.parents);
      if Kids(children, event.id) == [] {
        heads := heads + {event.id};
      }
      events := events[event.id := event];
    }

    /** The clock of an event with the given parents. */
    method NextClock(parents: seq<ObjectId>) returns (r: U64)
      ensures r == NextLamport(Value(), parents)
    {
      var top: U64 := 0;
      for i := 0 to |parents|
        invariant top == MaxLamport(Value(), parents[..i])
      {
        MaxLamportSnoc(Value(), parents[..i], parents[i]);
        assert parents[..i] + [parents[i]] == parents[..i + 1];
        if parents[i] in events && events[parents[i]].lamport > top {
          top := events[parents[i]].lamport;
        }
      }
      assert parents[..|parents|] == parents;
      r := Successor(top);
    }

    /** The heads in increasing order. */
    method HeadsToVec() returns (r: seq<ObjectId>)
      ensures ListsHeads(Value(), r)
      ensures forall i, j :: 0 <= i < j < |r| ==> r[i] < r[j]
    {
      r := [];
      var todo := heads;
      while todo != {}
        invariant todo <= heads && forall k :: k in r <==> k in heads - todo
        invariant forall i, j :: 0 <= i < j < |r| ==> r[i] < r[j]
        invariant forall i, k :: 0 <= i < |r| && k in todo ==> r[i] < k
        decreases |todo|
      {
        ghost var w := LeastExists(todo);
        var k :| k in todo && forall x :: x in todo ==> k <= x;
        r := r + [k];
        todo := todo - {k};
      }
    }

    /** Charges the children of an emitted event and makes ready those that wait for nothing more. */
    method Release(kids: seq<ObjectId>, degrees0: map<ObjectId, nat>, ready0: set<Event>)
      returns (degrees: map<ObjectId, nat>, ready: set<Event>)
      requires degrees0.Keys == events.Keys && Keyed(Value())
      requires forall k :: k in events ==> multiset(kids)[k] <= degrees0[k]
      ensures degrees.Keys == events.Keys
      ensures forall k :: k in events ==> degrees[k] + multiset(kids)[k] == degrees0[k]
      ensures Released(events, kids, ready0, degrees, ready)
    {
      degrees, ready := degrees0, ready0;
      for i := 0 to |kids|
        invariant degrees.Keys == events.Keys
        invariant forall k :: k in events ==> degrees[k] + multiset(kids[..i])[k] == degrees0[k]
        invariant Released(events, kids[..i], ready0, degrees, ready)
      {
        assert kids[..i + 1] == kids[..i] + [kids[i]];
        assert kids == kids[..i + 1] + kids[i + 1..];
        var child := kids[i];
        if child in degrees {
          assert multiset(kids)[child] >= multiset(kids[..i + 1])[child];
          degrees := degrees[child := if degrees[child] == 0 then 0 else degrees[child] - 1];
          if degrees[child] == 0 && child in events {
            ready := ready + {events[child]};
          }
        }
      }
      assert kids[..|kids|] == kids;
    }

    /** The number of present parents of every event. */
    method InDegrees() returns (degrees: map<ObjectId, nat>)
      ensures degrees.Keys == events.Keys
      ensures forall k :: k in events ==> degrees[k] == Live(events[k].parents, events.Keys)
    {
      degrees := map[];
      var todo := events.Keys;
      while todo != {}
        invariant todo <= events.Keys && degrees.Keys == events.Keys - todo
        invariant forall k :: k in degrees ==> degrees[k] == Live(events[k].parents, events.Keys)
        decreases |todo|
      {
        var id :| id in todo;
        degrees := degrees[id := Live(events[id].parents, events.Keys)];
        todo := todo - {id};
      }
    }

    /** Kahn's algorithm with an ordered ready set. Every event comes out once whatever the graph; in a
        causal graph the result is the plain sort and nothing is left over for the final branch. */
    method TopologicalSort() returns (result: seq<Event>)
      requires Valid(Value())
      ensures |result| == |events| && forall x :: x in result <==> x in EventSet(Value())
      ensures Causal(Value()) ==> DistinctIds(EventSet(Value())) && result == Sorted(EventSet(Value()))
    {
      ghost var g := Value();
      var degrees, ready := Start();
      result := [];
      ghost var done: set<ObjectId> := {};
      while ready != {}
        invariant Frontier(g, done, degrees, ready)
        invariant Emits(g, done, result)
        invariant Causal(g) ==> Leads(g, done, result)
        decreases |g.events.Keys - done|
      {
        var m := First(ready);
        if Causal(g) { PopLeads(g, done, degrees, ready, result, m); }
        PopEmits(g, done, degrees, ready, result, m);
        degrees, ready := Pop(m, degrees, ready, done);
        result, done := result + [m], done + {m.id};
      }
      if Causal(g) { CausalIsComplete(g, done, degrees, result); }
      EveryEventOnce(g, done, result);
      result := AppendRemaining(result, done);
    }

    /** The in-degrees and the ready set the loop starts from. */
    method Start() returns (degrees: map<ObjectId, nat>, ready: set<Event>)
      requires Valid(Value())
      ensures Frontier(Value(), {}, degrees, ready)
    {
      degrees := InDegrees();
      ready := set id | id in degrees && degrees[id] == 0 :: events[id];
      assert events.Keys - {} == events.Keys;
    }

    /** Takes `m` out of the ready set and charges its children. */
    method Pop(m: Event, degrees0: map<ObjectId, nat>, ready0: set<Event>, ghost done: set<ObjectId>)
      returns (degrees: map<ObjectId, nat>, ready: set<Event>)
      requires Valid(Value()) && Frontier(Value(), done, degrees0, ready0) && m in ready0
      ensures Frontier(Value(), done + {m.id}, degrees, ready)
    {
      ChildrenOwe(Value(), done, degrees0, ready0, m);
      degrees, ready := Release(Kids(children, m.id), degrees0, ready0 - {m});
      PopKeepsFrontier(Value(), done, degrees0, ready0, m, degrees, ready);
    }

    /** Appends whatever the loop could not reach, in the plain order. */
    method AppendRemaining(emitted: seq<Event>, ghost done: set<ObjectId>) returns (result: seq<Event>)
      requires Keyed(Value()) && done <= events.Keys && Emits(Value(), done, emitted)
      ensures DistinctIds(Unemitted(Value(), done)) && result == emitted + Sorted(Unemitted(Value(), done))
    {
      result := emitted;
      EventSetDistinct(Value());
      if |result| < |events| {
        var remaining := set id | id in events && events[id] !in result :: events[id];
        assert remaining == Unemitted(Value(), done);
        var rest := SortEvents(remaining);
        result := result + rest;
      } else {
        AllEmitted(Value(), done);
      }
    }
  }

  lemma LeastExists(s: set<ObjectId>) returns (m: ObjectId)
    requires s != {}
    ensures m in s && forall x :: x in s ==> m <= x
  {
    m :| m in s;
    if s != {m} {
      var rest := s - {m};
      assert s == rest + {m};
      var k := LeastExists(rest);
      m := if k < m then k else m;
    }
  }

  lemma SameSize(m: map<ObjectId, Event>, ks: set<ObjectId>)
    requires ks <= m.Keys && forall k :: k in m ==> m[k].id == k
    ensures |set k | k in ks :: m[k]| == |ks|
  {
    if ks != {} {
      var k :| k in ks;
      SameSize(m, ks - {k});
      assert (set j | j in ks :: m[j]) == (set j | j in ks - {k} :: m[j]) + {m[k]};
    }
  }
}
