/** The value of the causal event graph, what one insertion does to it, and what every insertion keeps. */
module CausalGraph {
  import opened Events

  datatype Graph = Graph(
    events: map<ObjectId, Event>,
    children: map<ObjectId, seq<ObjectId>>,
    heads: set<ObjectId>)

  const EMPTY := Graph(map[], map[], {})

  function Kids(children: map<ObjectId, seq<ObjectId>>, p: ObjectId): (r: seq<ObjectId>) {
    if p in children then children[p] else []
  }

  /** Lamport growth towards the parents already present and the children that arrived first. */
  predicate Accepts(g: Graph, e: Event) {
    && (forall p :: p in e.parents && p in g.events ==> g.events[p].lamport < e.lamport)
    && (forall c :: c in Kids(g.children, e.id) && c in g.events ==> e.lamport < g.events[c].lamport)
  }

  /** The outcome `insert` reports: a known event is a success without effect. */
  predicate Succeeds(g: Graph, e: Event) {
    e.id in g.events || Accepts(g, e)
  }

  /** `id` pushed once for every occurrence of a parent, repeated parents included. */
  function Register(children: map<ObjectId, seq<ObjectId>>, parents: seq<ObjectId>, id: ObjectId)
    : (r: map<ObjectId, seq<ObjectId>>)
  {
    if parents == [] then children else
      var rest := Register(children, parents[..|parents| - 1], id);
      var p := parents[|parents| - 1];
      rest[p := Kids(rest, p) + [id]]
  }

  function Insert(g: Graph, e: Event): (r: Graph) {
    if e.id in g.events || !Accepts(g, e) then g else
      var children := Register(g.children, e.parents, e.id);
      var kept := g.heads - (set p | p in e.parents);
      Graph(g.events[e.id := e], children, if Kids(children, e.id) == [] then kept + {e.id} else kept)
  }

  // ---- What every reachable graph satisfies ----

  /** Some present event lists `id` among its parents. */
  ghost predicate Named(g: Graph, id: ObjectId) {
    exists c :: c in g.events && id in g.events[c].parents
  }

  /** How often the present event `c`, if there is one, lists `p` as a parent. */
  ghost function Mentions(g: Graph, c: ObjectId, p: ObjectId): nat {
    if c in g.events then multiset(g.events[c].parents)[p] else 0
  }

  ghost predicate Keyed(g: Graph) {
    forall k :: k in g.events ==> g.events[k].id == k
  }

  /** The child index counts exactly the parent occurrences. */
  ghost predicate Indexed(g: Graph) {
    forall p, c :: multiset(Kids(g.children, p))[c] == Mentions(g, c, p)
  }

  /** Heads are exactly the present events that no present event names as a parent. */
  ghost predicate HeadsExact(g: Graph) {
    forall k :: k in g.heads <==> k in g.events && !Named(g, k)
  }

  ghost predicate Valid(g: Graph) {
    Keyed(g) && Indexed(g) && HeadsExact(g)
  }

  /** Every edge between present events strictly increases the Lamport clock. */
  ghost predicate Causal(g: Graph) {
    forall c, p :: c in g.events && p in g.events && p in g.events[c].parents
      ==> g.events[p].lamport < g.events[c].lamport
  }

  ghost function EventSet(g: Graph): set<Event> {
    g.events.Values
  }

  lemma {:induction false} RegisterCounts(children: map<ObjectId, seq<ObjectId>>, parents: seq<ObjectId>,
                                          id: ObjectId, p: ObjectId, c: ObjectId)
    ensures multiset(Kids(Register(children, parents, id), p))[c]
         == multiset(Kids(children, p))[c] + (if c == id then multiset(parents)[p] else 0)
    decreases |parents|
  {
    if parents != [] {
      var n := |parents| - 1;
      var rest := Register(children, parents[..n], id);
      RegisterCounts(children, parents[..n], id, p, c);
      assert parents == parents[..n] + [parents[n]];
      assert multiset(parents)[p] == multiset(parents[..n])[p] + if p == parents[n] then 1 else 0;
      OneMoreKid(rest, parents[n], id, p, c);
    }
  }

  lemma OneMoreKid(children: map<ObjectId, seq<ObjectId>>, parent: ObjectId, id: ObjectId, p: ObjectId, c: ObjectId)
    ensures multiset(Kids(children[parent := Kids(children, parent) + [id]], p))[c]
         == multiset(Kids(children, p))[c] + if p == parent && c == id then 1 else 0
  {
  }

  lemma KidIffNamed(g: Graph, id: ObjectId)
    requires Indexed(g)
    ensures Kids(g.children, id) != [] <==> Named(g, id)
    ensures forall c :: c in Kids(g.children, id) <==> c in g.events && id in g.events[c].parents
  {
    forall c ensures c in Kids(g.children, id) <==> c in g.events && id in g.events[c].parents {
      assert multiset(Kids(g.children, id))[c] == Mentions(g, c, id);
      assert c in Kids(g.children, id) <==> c in multiset(Kids(g.children, id));
      if c in g.events {
        assert id in g.events[c].parents <==> id in multiset(g.events[c].parents);
      }
    }
    if Kids(g.children, id) != [] {
      assert Kids(g.children, id)[0] in Kids(g.children, id);
    }
  }

  lemma InsertIndexed(g: Graph, e: Event)
    requires Indexed(g)
    ensures Indexed(Insert(g, e))
  {
    var r := Insert(g, e);
    if r != g {
      forall p, c ensures multiset(Kids(r.children, p))[c] == Mentions(r, c, p) {
        RegisterCounts(g.children, e.parents, e.id, p, c);
        assert multiset(Kids(g.children, p))[c] == Mentions(g, c, p);
      }
    }
  }

  /** Every insertion, accepted or not, keeps the index and the heads exact; one that fails changes nothing. */
  lemma InsertKeepsValid(g: Graph, e: Event)
    requires Valid(g)
    ensures Valid(Insert(g, e))
    ensures !Succeeds(g, e) || e.id in g.events ==> Insert(g, e) == g
  {
    var r := Insert(g, e);
    InsertIndexed(g, e);
    if r != g {
      KidIffNamed(r, e.id);
      forall k ensures k in r.heads <==> k in r.events && !Named(r, k) {
        assert r.events[e.id] == e;
        assert k in e.parents ==> Named(r, k);
        if Named(r, k) && !Named(g, k) {
          var c :| c in r.events && k in r.events[c].parents;
          assert c == e.id;
        }
        if Named(g, k) {
          var c :| c in g.events && k in g.events[c].parents;
          assert c in r.events && k in r.events[c].parents;
        }
      }
    }
  }

  lemma InsertAddsOnly(g: Graph, e: Event)
    ensures EventSet(Insert(g, e)) <= EventSet(g) + {e}
  {
    var r := Insert(g, e);
    forall x | x in EventSet(r) ensures x in EventSet(g) + {e} {
      var k :| k in r.events && r.events[k] == x;
      assert x == e || (k in g.events && g.events[k] == x);
    }
  }

  /** The clock check keeps every present edge growing, except for an event that is its own parent. */
  lemma InsertKeepsCausal(g: Graph, e: Event)
    requires Valid(g) && Causal(g) && e.id !in g.events && Accepts(g, e)
    ensures Causal(Insert(g, e)) <==> e.id !in e.parents
  {
    var r := Insert(g, e);
    KidIffNamed(g, e.id);
    assert r.events[e.id] == e;
    if e.id !in e.parents {
      forall c, p | c in r.events && p in r.events && p in r.events[c].parents
        ensures r.events[p].lamport < r.events[c].lamport
      {
        if c != e.id && p == e.id { assert c in Kids(g.children, e.id); }
      }
    }
  }

  // ---- Heads and the clock of a new event ----

  /** A chain of present events, each naming the one before it as a parent. */
  ghost predicate Chain(g: Graph, path: seq<ObjectId>) {
    && path != []
    && (forall i :: 0 <= i < |path| ==> path[i] in g.events)
    && (forall i :: 0 < i < |path| ==> path[i - 1] in g.events[path[i]].parents)
  }

  /** Events with a larger clock: the measure that shrinks towards the heads. */
  ghost function Above(g: Graph, lamport: nat): set<ObjectId> {
    set k | k in g.events && lamport < g.events[k].lamport
  }

  lemma AboveShrinks(g: Graph, low: nat, c: ObjectId)
    requires c in g.events && low < g.events[c].lamport
    ensures |Above(g, g.events[c].lamport)| < |Above(g, low)|
  {
    var small, large := Above(g, g.events[c].lamport), Above(g, low);
    Smaller(small, large - {c});
  }

  lemma ChainCons(g: Graph, id: ObjectId, rest: seq<ObjectId>)
    requires Chain(g, rest) && id in g.events && id in g.events[rest[0]].parents
    ensures Chain(g, [id] + rest)
  {
    var path := [id] + rest;
    forall i | 0 < i < |path| ensures path[i - 1] in g.events[path[i]].parents {
      assert path[i] == rest[i - 1];
    }
  }

  /** Every present event has a head among its descendants or is one itself. */
  lemma {:induction false} HeadAbove(g: Graph, id: ObjectId) returns (path: seq<ObjectId>)
    requires HeadsExact(g) && Causal(g) && id in g.events
    ensures Chain(g, path) && path[0] == id && path[|path| - 1] in g.heads
    ensures g.events[id].lamport <= g.events[path[|path| - 1]].lamport
    decreases |Above(g, g.events[id].lamport)|
  {
    if id in g.heads {
      path := [id];
    } else {
      assert Named(g, id);
      var c :| c in g.events && id in g.events[c].parents;
      AboveShrinks(g, g.events[id].lamport, c);
      var rest := HeadAbove(g, c);
      ChainCons(g, id, rest);
      path := [id] + rest;
    }
  }

  lemma Smaller<T>(a: set<T>, b: set<T>)
    requires a <= b
    ensures |a| <= |b|
  {
    assert b == a + (b - a);
  }

  /** The largest clock among the present events listed, 0 when there is none. */
  function MaxLamport(g: Graph, ids: seq<ObjectId>): (r: U64)
    ensures forall k :: k in ids && k in g.events ==> g.events[k].lamport <= r
    ensures r == 0 || exists k :: k in ids && k in g.events && g.events[k].lamport == r
  {
    if ids == [] then 0 else
      var front, last := ids[..|ids| - 1], ids[|ids| - 1];
      assert ids == front + [last];
      var top := MaxLamport(g, front);
      if last in g.events && g.events[last].lamport > top then g.events[last].lamport else top
  }

  lemma MaxLamportSnoc(g: Graph, ids: seq<ObjectId>, id: ObjectId)
    ensures MaxLamport(g, ids + [id])
         == if id in g.events && g.events[id].lamport > MaxLamport(g, ids) then g.events[id].lamport else MaxLamport(g, ids)
  {
    assert (ids + [id])[..|ids|] == ids;
  }

  /** The successor in 64-bit arithmetic, which wraps around. */
  function Successor(n: U64): U64 {
    if n == U64_LIMIT - 1 then 0 else n + 1
  }

  function NextLamport(g: Graph, parents: seq<ObjectId>): U64 {
    Successor(MaxLamport(g, parents))
  }

  /** An enumeration of the heads. */
  ghost predicate ListsHeads(g: Graph, parents: seq<ObjectId>) {
    forall k :: k in parents <==> k in g.heads
  }

  lemma HeadsTop(g: Graph, parents: seq<ObjectId>, k: ObjectId)
    requires HeadsExact(g) && Causal(g) && ListsHeads(g, parents) && k in g.events
    ensures g.events[k].lamport <= MaxLamport(g, parents)
  {
    var path := HeadAbove(g, k);
    assert path[|path| - 1] in parents;
  }

  /** The clock of an event authored on all heads exceeds every clock present, unless 2^64 - 1 is in use. */
  lemma NextLamportTops(g: Graph, parents: seq<ObjectId>)
    requires HeadsExact(g) && Causal(g) && ListsHeads(g, parents)
    ensures (forall k :: k in g.events ==> g.events[k].lamport < NextLamport(g, parents))
       <==> (forall k :: k in g.events ==> g.events[k].lamport < U64_LIMIT - 1)
  {
    var top := MaxLamport(g, parents);
    forall k | k in g.events ensures g.events[k].lamport <= top {
      HeadsTop(g, parents, k);
    }
    if top == U64_LIMIT - 1 {
      var k :| k in parents && k in g.events && g.events[k].lamport == top;
    }
  }
}
