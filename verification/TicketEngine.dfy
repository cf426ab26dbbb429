/** The engine object: its methods are the steps of the engine machine. */
module TicketEngines {
  import opened Events
  import opened CausalGraph
  import opened EventGraphs
  import opened Convergence
  import opened Reducer
  import opened Engine

  /** A graph filled in the order given, refusals ignored. */
  method Load(objects: seq<Event>) returns (g: EventGraph)
    ensures fresh(g) && g.Value() == InsertAll(objects)
  {
    g := new EventGraph();
    for i := 0 to |objects|
      invariant fresh(g) && g.Value() == InsertAll(objects[..i])
    {
      assert objects[..i + 1][..i] == objects[..i];
      var _ := g.Insert(objects[i]);
    }
    assert objects[..|objects|] == objects;
  }

  lemma ReloadReady(objects: seq<Event>)
    requires forall e :: e in objects ==> e.id !in e.parents
    ensures Valid(InsertAll(objects)) && Causal(InsertAll(objects)) && DistinctIds(EventSet(InsertAll(objects)))
  {
    ReachableIsValid(objects);
    ReachableIsCausal(objects);
    EventSetDistinct(InsertAll(objects));
  }

  lemma ReloadFrom(s: Engine, objects: seq<Event>, g: Graph)
    requires g == InsertAll(objects) && DistinctIds(EventSet(g))
    ensures Do(s, Restart(objects)) == Engine(g, State(EventSet(g)), s.disk, 0)
  {
  }

  lemma ReloadValue(objects: seq<Event>, disk: set<Event>)
    requires DistinctIds(EventSet(InsertAll(objects)))
    ensures Do(FRESH.(disk := disk), Restart(objects))
         == Engine(InsertAll(objects), State(EventSet(InsertAll(objects))), disk, 0)
  {
    ReloadFrom(FRESH.(disk := disk), objects, InsertAll(objects));
  }

  class TicketEngine {
    const graph: EventGraph
    const state: TicketStateStore
    var disk: set<Event>
    ghost var pending: nat

    ghost function Value(): Engine
      reads this, graph, state
    {
      Engine(graph.Value(), state.tickets, disk, pending)
    }

    /** The graph is one that `insert` can have built. */
    ghost predicate Ready()
      reads graph
    {
      Valid(graph.Value()) && Causal(graph.Value())
    }

    /** Loads the object store in directory order and reduces it. */
    constructor Open(objects: seq<Event>)
      requires forall e :: e in objects ==> e.id !in e.parents
      ensures fresh(graph) && fresh(state) && Ready()
      ensures Value() == Do(FRESH.(disk := Elements(objects)), Restart(objects))
    {
      var g := Load(objects);
      ReloadReady(objects);
      ReloadValue(objects, Elements(objects));
      var store := Reduce(g);
      graph, state, disk, pending := g, store, set e | e in objects, 0;
    }

    /** Authors an event on all heads, persists it, inserts it and applies it. */
    method AppendTicketEvent(te: TicketEvent, timestamp: U64, author: string,
                             address: (seq<ObjectId>, U64, U64, TicketEvent) -> ObjectId)
      returns (e: Event, ok: bool)
      requires Ready()
      modifies this, graph, state
      ensures AuthoredOn(old(graph.Value()), e)
      ensures e.payload == Ticket(te) && e.timestamp == timestamp && e.author == author
      ensures Value() == Do(old(Value()), Append(e))
      ensures ok == (Succeeds(old(graph.Value()), e) && !Refuses(old(state.tickets), e))
    {
      var parents := graph.HeadsToVec();
      var lamport := graph.NextClock(parents);
      e := Event(address(parents, timestamp, lamport, te), parents, author, timestamp, lamport, Ticket(te));
      disk := disk + {e};
      ok := graph.Insert(e);
      if ok {
        ok := state.ApplyEvent(e);
      }
    }

    /** The part of an ingestion that runs under the graph write lock. */
    method InsertRemote(batch: seq<Event>) returns (count: nat)
      modifies this, graph
      ensures count == Accepted(old(graph.Value()), batch)
      ensures Value() == Do(old(Value()), Ingest(batch))
    {
      count := 0;
      ghost var g0 := graph.Value();
      for i := 0 to |batch|
        invariant graph.Value() == InsertBatch(g0, batch[..i]) && count == Accepted(g0, batch[..i])
        invariant disk == old(disk) + Elements(batch[..i]) && pending == old(pending)
      {
        assert batch[..i + 1][..i] == batch[..i];
        disk := disk + {batch[i]};
        var ok := graph.Insert(batch[i]);
        if ok {
          count := count + 1;
        }
      }
      assert batch[..|batch|] == batch;
      pending := pending + if count > 0 then 1 else 0;
    }

    /** The part of an ingestion that runs under the graph read lock. */
    method RereduceAll()
      requires Ready() && pending > 0
      modifies this, state
      ensures Value() == Do(old(Value()), Rereduce)
    {
      var rebuilt := Reduce(graph);
      state.tickets := rebuilt.tickets;
      pending := pending - 1;
    }

    /** A whole ingestion with nothing in between. */
    method ApplyRemoteObjects(book: ObjectId -> Event, batch: seq<Event>) returns (count: nat)
      requires Inv(book, Value()) && forall e :: e in batch ==> Genuine(book, e)
      modifies this, graph, state
      ensures count == Accepted(old(graph.Value()), batch)
      ensures Inv(book, Value()) && pending == old(pending)
      ensures EventSet(old(graph.Value())) <= EventSet(graph.Value())
      ensures count > 0 ==> DistinctIds(EventSet(graph.Value())) && state.tickets == State(EventSet(graph.Value()))
      ensures count == 0 ==> graph.Value() == old(graph.Value()) && state.tickets == old(state.tickets)
    {
      ghost var s := Value();
      StepKeepsInv(book, s, Ingest(batch));
      BatchKeepsInv(book, s.graph, s.disk, batch);
      count := InsertRemote(batch);
      if count > 0 {
        EventSetDistinct(graph.Value());
        RereduceAll();
      }
    }
  }
}
