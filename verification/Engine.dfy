/** The engine's two locks as atomic steps: local appends, remote ingestion, re-reduction and restart. */
module Engine {
  import opened Events
  import opened CausalGraph
  import opened EventGraphs
  import opened Convergence
  import opened Reducer

  /** `disk` is the object store; `pending` counts ingestions that have inserted but not yet re-reduced. */
  datatype Engine = Engine(graph: Graph, cache: Tickets, disk: set<Event>, pending: nat)

  const FRESH := Engine(EMPTY, map[], {}, 0)

  datatype Step =
    | Append(e: Event)              // write-ahead, insert and apply under the graph write lock
    | Put(e: Event)                 // a remote object reaches the disk before any lock is taken
    | Ingest(batch: seq<Event>)     // put and insert each event under one graph write lock
    | Rereduce                      // reduce under the graph read lock and replace the cache
    | Restart(order: seq<Event>)    // reload the disk in directory order

  function InsertBatch(g: Graph, batch: seq<Event>): Graph {
    if batch == [] then g else
      Insert(InsertBatch(g, batch[..|batch| - 1]), batch[|batch| - 1])
  }

  /** How many events of the batch `insert` reports as a success, known ones included. */
  function Accepted(g: Graph, batch: seq<Event>): nat {
    if batch == [] then 0 else
      var front, e := batch[..|batch| - 1], batch[|batch| - 1];
      Accepted(g, front) + if Succeeds(InsertBatch(g, front), e) then 1 else 0
  }

  /** What an author on this graph produces: all heads as parents and the next clock value. */
  ghost predicate AuthoredOn(g: Graph, e: Event) {
    ListsHeads(g, e.parents) && e.lamport == NextLamport(g, e.parents) && e.payload.Ticket?
  }

  ghost function Do(s: Engine, step: Step): Engine {
    match step
    case Append(e) =>
      if Succeeds(s.graph, e)
      then s.(disk := s.disk + {e}, graph := Insert(s.graph, e), cache := Apply(s.cache, e))
      else s.(disk := s.disk + {e})
    case Put(e) => s.(disk := s.disk + {e})
    case Ingest(batch) =>
      s.(disk := s.disk + Elements(batch), graph := InsertBatch(s.graph, batch),
         pending := s.pending + if Accepted(s.graph, batch) > 0 then 1 else 0)
    case Rereduce =>
      if s.pending == 0 || !DistinctIds(EventSet(s.graph)) then s else
        s.(cache := State(EventSet(s.graph)), pending := s.pending - 1)
    case Restart(order) =>
      var g := InsertAll(order);
      if !DistinctIds(EventSet(g)) then s else
        Engine(g, State(EventSet(g)), s.disk, 0)
  }

  /** Content addressing: `book` tells which event an id stands for, and no event can name itself. */
  predicate Genuine(book: ObjectId -> Event, e: Event) {
    book(e.id) == e && e.id !in e.parents
  }

  ghost predicate Enabled(book: ObjectId -> Event, s: Engine, step: Step) {
    match step
    case Append(e) => AuthoredOn(s.graph, e) && Genuine(book, e)
    case Put(e) => Genuine(book, e)
    case Ingest(batch) => forall e :: e in batch ==> Genuine(book, e)
    case Rereduce => s.pending > 0
    case Restart(order) => Elements(order) == s.disk
  }

  ghost predicate Inv(book: ObjectId -> Event, s: Engine) {
    && Valid(s.graph) && Causal(s.graph)
    && EventSet(s.graph) <= s.disk
    && (forall e :: e in s.disk ==> Genuine(book, e))
  }

  lemma GenuineDistinct(book: ObjectId -> Event, s: set<Event>)
    requires forall e :: e in s ==> Genuine(book, e)
    ensures Authentic(s)
  {
  }

  /** The cache is the reduction of some part of the graph, of all of it when nothing is pending. */
  ghost predicate Reflects(s: Engine, snap: set<Event>) {
    && snap <= EventSet(s.graph) && DistinctIds(snap)
    && s.cache == State(snap)
    && (s.pending == 0 ==> snap == EventSet(s.graph))
  }

  // ---- A locally authored event ----

  /** No present event names every head: the head above it has no child. */
  lemma PresentMissesAHead(g: Graph, id: ObjectId)
    requires HeadsExact(g) && Causal(g) && id in g.events
    ensures !ListsHeads(g, g.events[id].parents)
  {
    var path := HeadAbove(g, id);
    var h := path[|path| - 1];
    assert !Named(g, h);
  }

  lemma PresentIsWritten(book: ObjectId -> Event, s: Engine, k: ObjectId)
    requires Inv(book, s) && k in s.graph.events
    ensures s.graph.events[k] == book(k)
  {
    assert s.graph.events[k] in s.disk;
  }

  /** So an event authored on all heads cannot already be present. */
  lemma AuthoredIsNew(book: ObjectId -> Event, s: Engine, e: Event)
    requires Inv(book, s) && AuthoredOn(s.graph, e) && Genuine(book, e)
    ensures e.id !in s.graph.events
  {
    if e.id in s.graph.events {
      PresentIsWritten(book, s, e.id);
      PresentMissesAHead(s.graph, e.id);
    }
  }

  /** An append is accepted exactly when no clock is at 2^64 - 1 and nothing present names the new id. */
  lemma AppendAcceptedIff(book: ObjectId -> Event, s: Engine, e: Event)
    requires Inv(book, s) && AuthoredOn(s.graph, e) && Genuine(book, e)
    ensures Succeeds(s.graph, e)
      <==> (forall k :: k in s.graph.events ==> s.graph.events[k].lamport < U64_LIMIT - 1)
           && !Named(s.graph, e.id)
    ensures Succeeds(s.graph, e) ==> forall x :: x in EventSet(s.graph) ==> x.lamport < e.lamport
  {
    var g := s.graph;
    AuthoredIsNew(book, s, e);
    NextLamportTops(g, e.parents);
    KidIffNamed(g, e.id);
    if exists k :: k in g.events && g.events[k].lamport == U64_LIMIT - 1 {
      var k :| k in g.events && g.events[k].lamport == U64_LIMIT - 1;
      HeadsTop(g, e.parents, k);
      var p :| p in e.parents && p in g.events && g.events[p].lamport == MaxLamport(g, e.parents);
      assert e.lamport == 0;
    } else if Named(g, e.id) {
      var c :| c in g.events && e.id in g.events[c].parents;
      assert c in Kids(g.children, e.id);
    }
  }

  /** An accepted append sorts last, so applying it to the reduced state is reducing the larger graph. */
  lemma AppendIsIncremental(book: ObjectId -> Event, s: Engine, e: Event, snap: set<Event>)
    requires Inv(book, s) && AuthoredOn(s.graph, e) && Genuine(book, e) && Succeeds(s.graph, e)
    requires snap <= EventSet(s.graph)
    ensures e !in snap && DistinctIds(snap + {e}) && State(snap + {e}) == Apply(State(snap), e)
    ensures EventSet(Insert(s.graph, e)) == EventSet(s.graph) + {e}
  {
    AppendSortsLast(book, s, e);
    ApplyLast(EventSet(s.graph), snap, e);
  }

  /** An accepted append is added alone and comes after everything present. */
  lemma AppendSortsLast(book: ObjectId -> Event, s: Engine, e: Event)
    requires Inv(book, s) && AuthoredOn(s.graph, e) && Genuine(book, e) && Succeeds(s.graph, e)
    ensures DistinctIds(EventSet(s.graph) + {e}) && forall x :: x in EventSet(s.graph) ==> Before(x, e)
    ensures EventSet(Insert(s.graph, e)) == EventSet(s.graph) + {e}
  {
    AuthoredIsNew(book, s, e);
    AppendAcceptedIff(book, s, e);
    EventSetDistinct(s.graph);
    InsertedSet(s.graph, e);
  }

  lemma ApplyLast(all: set<Event>, snap: set<Event>, e: Event)
    requires snap <= all && DistinctIds(all + {e}) && forall x :: x in all ==> Before(x, e)
    ensures e !in snap && DistinctIds(snap + {e}) && State(snap + {e}) == Apply(State(snap), e)
  {
    assert forall x :: x in snap + {e} ==> x in all + {e};
    StateAppend(snap, e);
  }

  // ---- What every step keeps ----

  lemma InsertKeepsInv(book: ObjectId -> Event, g: Graph, disk: set<Event>, e: Event)
    requires Inv(book, Engine(g, map[], disk, 0)) && Genuine(book, e)
    ensures Inv(book, Engine(Insert(g, e), map[], disk + {e}, 0))
    ensures EventSet(g) <= EventSet(Insert(g, e))
    ensures !Succeeds(g, e) ==> Insert(g, e) == g
  {
    if e.id !in g.events && Accepts(g, e) {
      InsertKeepsValid(g, e);
      InsertKeepsCausal(g, e);
      InsertedSet(g, e);
    }
  }

  lemma {:induction false} BatchKeepsInv(book: ObjectId -> Event, g: Graph, disk: set<Event>, batch: seq<Event>)
    requires Inv(book, Engine(g, map[], disk, 0)) && forall e :: e in batch ==> Genuine(book, e)
    ensures Inv(book, Engine(InsertBatch(g, batch), map[], disk + Elements(batch), 0))
    ensures EventSet(g) <= EventSet(InsertBatch(g, batch))
    ensures Accepted(g, batch) == 0 ==> InsertBatch(g, batch) == g
  {
    if batch == [] {
      assert disk + Elements(batch) == disk;
    } else {
      var n := |batch| - 1;
      var front, e := batch[..n], batch[n];
      assert batch == front + [e];
      BatchKeepsInv(book, g, disk, front);
      InsertKeepsInv(book, InsertBatch(g, front), disk + Elements(front), e);
      assert disk + Elements(batch) == disk + Elements(front) + {e};
    }
  }

  lemma {:induction false} ReloadIsInv(book: ObjectId -> Event, order: seq<Event>)
    requires forall e :: e in order ==> Genuine(book, e)
    ensures Inv(book, Engine(InsertAll(order), map[], Elements(order), 0))
  {
    ReachableIsValid(order);
    ReachableIsCausal(order);
  }

  /** Every step keeps the graph valid and causal and inside the disk. */
  lemma StepKeepsInv(book: ObjectId -> Event, s: Engine, step: Step)
    requires Inv(book, s) && Enabled(book, s, step)
    ensures Inv(book, Do(s, step))
  {
    match step {
      case Append(e) => InsertKeepsInv(book, s.graph, s.disk, e);
      case Put(_) =>
      case Ingest(batch) => BatchKeepsInv(book, s.graph, s.disk, batch);
      case Rereduce =>
      case Restart(order) => ReloadIsInv(book, order);
    }
  }

  // ---- What a restart keeps ----

  /** No object on disk has an edge with a live event along which the clock fails to grow. */
  ghost predicate Compatible(s: Engine) {
    forall d :: d in s.disk ==> EdgesGrow(EventSet(s.graph), d)
  }

  /** A restart is clean when the disk is compatible with the live graph. */
  ghost predicate Clean(s: Engine, step: Step) {
    step.Restart? ==> Compatible(s)
  }

  /** A live event is accepted on reload, whatever compatible objects came before it. */
  lemma LiveIsAccepted(g: Graph, live: set<Event>, e: Event)
    requires Valid(g) && e in live && forall x :: x in EventSet(g) ==> EdgesGrow(live, x)
    ensures Accepts(g, e)
  {
    AcceptsIffEdgesGrow(g, e);
  }

  lemma {:induction false} LiveComesBack(book: ObjectId -> Event, live: set<Event>, log: seq<Event>)
    requires forall d :: d in log ==> Genuine(book, d) && EdgesGrow(live, d)
    ensures live * Elements(log) <= EventSet(InsertAll(log))
  {
    if log != [] {
      var n := |log| - 1;
      var front, e := log[..n], log[n];
      assert log == front + [e];
      LiveComesBack(book, live, front);
      ReachableIsValid(front);
      ReloadKeeps(book, live, front, e);
    }
  }

  lemma ReloadKeeps(book: ObjectId -> Event, live: set<Event>, front: seq<Event>, e: Event)
    requires Genuine(book, e) && forall d :: d in front ==> Genuine(book, d) && EdgesGrow(live, d)
    ensures EventSet(InsertAll(front)) <= EventSet(Insert(InsertAll(front), e))
    ensures e in live ==> e in EventSet(Insert(InsertAll(front), e))
  {
    var g := InsertAll(front);
    ReachableIsValid(front);
    if e.id in g.events {
      assert g.events[e.id] in EventSet(g);
      assert g.events[e.id] in front;
    } else if Accepts(g, e) {
      InsertedSet(g, e);
    } else if e in live {
      assert forall x :: x in EventSet(g) ==> x in front;
      LiveIsAccepted(g, live, e);
    }
  }

  /** An incompatible object that is reloaded first shuts some live event out. */
  lemma IncompatibleShutsOut(book: ObjectId -> Event, s: Engine, d: Event) returns (order: seq<Event>)
    requires Inv(book, s) && d in s.disk && !EdgesGrow(EventSet(s.graph), d)
    ensures Elements(order) == s.disk && !(EventSet(s.graph) <= EventSet(InsertAll(order)))
  {
    var rest := SomeOrder(s.disk);
    order := [d] + rest;
    var g := InsertAll(order);
    FirstIsKept(d, rest);
    assert Elements(order) == s.disk;
    forall e | e in order ensures e.id !in e.parents { assert e in s.disk; }
    ReachableIsValid(order);
    ReachableIsCausal(order);
    PresentGrows(g, d);
  }

  lemma PresentGrows(g: Graph, d: Event)
    requires Keyed(g) && Causal(g) && d.id in g.events && g.events[d.id] == d
    ensures EdgesGrow(EventSet(g), d)
  {
    EventSetDistinct(g);
  }

  /** A restart keeps every live event, in whatever order the directory is read, exactly when the disk is
      compatible with the live graph. Rejected objects need not come back, and may conflict with each other. */
  lemma RestartKeepsLiveIff(book: ObjectId -> Event, s: Engine)
    requires Inv(book, s)
    ensures (forall order :: Elements(order) == s.disk ==> EventSet(s.graph) <= EventSet(InsertAll(order)))
      <==> Compatible(s)
  {
    if Compatible(s) {
      forall order | Elements(order) == s.disk ensures EventSet(s.graph) <= EventSet(InsertAll(order)) {
        forall d | d in order ensures Genuine(book, d) && EdgesGrow(EventSet(s.graph), d) {
          assert d in s.disk;
        }
        LiveComesBack(book, EventSet(s.graph), order);
      }
    } else {
      var d :| d in s.disk && !EdgesGrow(EventSet(s.graph), d);
      var order := IncompatibleShutsOut(book, s, d);
    }
  }

  lemma AppendReflects(book: ObjectId -> Event, s: Engine, e: Event, snap: set<Event>)
    requires Inv(book, s) && Enabled(book, s, Append(e)) && Reflects(s, snap)
    ensures Reflects(Do(s, Append(e)), if Succeeds(s.graph, e) then snap + {e} else snap)
  {
    if Succeeds(s.graph, e) { AppendIsIncremental(book, s, e, snap); }
  }

  lemma IngestReflects(book: ObjectId -> Event, s: Engine, batch: seq<Event>, snap: set<Event>)
    requires Inv(book, s) && Enabled(book, s, Ingest(batch)) && Reflects(s, snap)
    ensures Reflects(Do(s, Ingest(batch)), snap)
  {
    var off := Engine(s.graph, map[], s.disk, 0);
    assert Inv(book, off);
    BatchKeepsInv(book, s.graph, s.disk, batch);
  }

  lemma RestartReflects(book: ObjectId -> Event, s: Engine, order: seq<Event>)
    requires Inv(book, s) && Enabled(book, s, Restart(order))
    ensures Reflects(Do(s, Restart(order)), EventSet(InsertAll(order)))
    ensures Compatible(s) ==> EventSet(s.graph) <= EventSet(InsertAll(order))
    ensures LamportConsistent(s.disk) ==> EventSet(InsertAll(order)) == s.disk
  {
    RestartKeepsLiveIff(book, s);
    ReloadIsInv(book, order);
    EventSetDistinct(InsertAll(order));
    GenuineDistinct(book, s.disk);
    AcceptedIffConsistent(order);
  }

  /** Every step takes a reflected part of the graph to a reflected part, which only grows unless an
      unclean restart drops events. */
  lemma StepKeepsReflection(book: ObjectId -> Event, s: Engine, step: Step, snap: set<Event>)
    returns (snap': set<Event>)
    requires Inv(book, s) && Enabled(book, s, step) && Reflects(s, snap)
    ensures Reflects(Do(s, step), snap')
    ensures Clean(s, step) ==> snap <= snap'
  {
    match step {
      case Append(e) =>
        AppendReflects(book, s, e, snap);
        snap' := if Succeeds(s.graph, e) then snap + {e} else snap;
      case Put(_) =>
        snap' := snap;
      case Ingest(batch) =>
        IngestReflects(book, s, batch, snap);
        snap' := snap;
      case Rereduce =>
        EventSetDistinct(s.graph);
        snap' := EventSet(s.graph);
      case Restart(order) =>
        RestartReflects(book, s, order);
        snap' := EventSet(InsertAll(order));
    }
  }
}
