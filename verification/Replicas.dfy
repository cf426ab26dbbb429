/** Two nodes that were given the same objects, by whatever runs, show the same tickets. */
module Replicas {
  import opened Events
  import opened CausalGraph
  import opened EventGraphs
  import opened Convergence
  import opened Engine
  import opened EngineRuns

  /** The objects a step offers to the graph. */
  ghost function Offered(step: Step): set<Event> {
    match step
    case Append(e) => {e}
    case Ingest(batch) => Elements(batch)
    case Restart(order) => Elements(order)
    case _ => {}
  }

  /** Everything a run authored, ingested or reloaded, refused or not. */
  ghost function Delivered(steps: seq<Step>): set<Event> {
    if steps == [] then {} else Delivered(steps[..|steps| - 1]) + Offered(steps[|steps| - 1])
  }

  lemma ConsistentInsertSucceeds(book: ObjectId -> Event, g: Graph, disk: set<Event>, e: Event)
    requires Inv(book, Engine(g, map[], disk, 0)) && Genuine(book, e) && LamportConsistent(disk + {e})
    ensures EventSet(Insert(g, e)) == EventSet(g) + {e}
    ensures Inv(book, Engine(Insert(g, e), map[], disk + {e}, 0))
  {
    InsertKeepsInv(book, g, disk, e);
    if e.id in g.events {
      PresentIsWritten(book, Engine(g, map[], disk, 0), e.id);
      assert g.events[e.id] == e;
    } else {
      assert forall x :: x in EventSet(g) ==> x in disk + {e};
      assert EdgesGrow(EventSet(g), e);
      AcceptsIffEdgesGrow(g, e);
      InsertedSet(g, e);
    }
  }

  lemma {:induction false} ConsistentBatchSucceeds(book: ObjectId -> Event, g: Graph, disk: set<Event>,
                                                   batch: seq<Event>)
    requires Inv(book, Engine(g, map[], disk, 0)) && forall e :: e in batch ==> Genuine(book, e)
    requires LamportConsistent(disk + Elements(batch))
    ensures EventSet(InsertBatch(g, batch)) == EventSet(g) + Elements(batch)
    ensures Inv(book, Engine(InsertBatch(g, batch), map[], disk + Elements(batch), 0))
  {
    if batch == [] {
      assert disk + Elements(batch) == disk;
    } else {
      var n := |batch| - 1;
      var front, e := batch[..n], batch[n];
      assert batch == front + [e];
      assert Elements(batch) == Elements(front) + {e};
      ConsistentBatchSucceeds(book, g, disk, front);
      assert disk + Elements(batch) == disk + Elements(front) + {e};
      ConsistentInsertSucceeds(book, InsertBatch(g, front), disk + Elements(front), e);
    }
  }

  lemma DiskGrows(s: Engine, step: Step)
    ensures s.disk <= Do(s, step).disk
  {
  }

  lemma SameInv(book: ObjectId -> Event, s: Engine)
    requires Inv(book, s)
    ensures Inv(book, Engine(s.graph, map[], s.disk, 0))
  {
  }

  /** While the disk is consistent a step adds what it offers to the graph and drops nothing. */
  lemma StepKeepsOffered(book: ObjectId -> Event, s: Engine, step: Step)
    requires Inv(book, s) && Enabled(book, s, step) && LamportConsistent(Do(s, step).disk)
    ensures EventSet(s.graph) + Offered(step) <= EventSet(Do(s, step).graph)
  {
    SameInv(book, s);
    match step {
      case Append(e) => ConsistentInsertSucceeds(book, s.graph, s.disk, e);
      case Ingest(batch) => ConsistentBatchSucceeds(book, s.graph, s.disk, batch);
      case Restart(order) =>
        ReloadIsInv(book, order);
        EventSetDistinct(InsertAll(order));
        RestartReflects(book, s, order);
      case _ =>
    }
  }

  /** On a consistent disk nothing that was delivered is ever missing from the graph, restarts included. */
  lemma {:induction false} DeliveredIsKept(book: ObjectId -> Event, steps: seq<Step>)
    requires Legal(book, steps) && LamportConsistent(Run(steps).disk)
    ensures Delivered(steps) <= EventSet(Run(steps).graph) <= Run(steps).disk
  {
    if steps != [] {
      var front, step := steps[..|steps| - 1], steps[|steps| - 1];
      LegalFront(book, steps);
      DiskGrows(Run(front), step);
      DeliveredIsKept(book, front);
      RunKeepsInv(book, front);
      StepKeepsOffered(book, Run(front), step);
    }
    RunKeepsInv(book, steps);
  }

  /** Replicas converge: two nodes whose disks hold the same consistent objects, all of them delivered, hold the
      same events and heads and show the same tickets, whatever their orders, batches, appends and restarts were. */
  lemma ReplicasConverge(book: ObjectId -> Event, a: seq<Step>, b: seq<Step>)
    requires Legal(book, a) && Legal(book, b)
    requires Run(a).disk == Run(b).disk && LamportConsistent(Run(a).disk)
    requires Delivered(a) == Run(a).disk && Delivered(b) == Run(b).disk
    requires Run(a).pending == 0 && Run(b).pending == 0
    ensures Run(a).graph.events == Run(b).graph.events && Run(a).graph.heads == Run(b).graph.heads
    ensures EventSet(Run(a).graph) == Run(a).disk && Run(a).cache == Run(b).cache
  {
    DeliveredIsKept(book, a);
    DeliveredIsKept(book, b);
    RunKeepsInv(book, a);
    RunKeepsInv(book, b);
    EventSetDeterminesEvents(Run(a).graph, Run(b).graph);
    EventsDetermineGraph(Run(a).graph, Run(b).graph);
    CacheAgrees(book, a);
    CacheAgrees(book, b);
  }
}
