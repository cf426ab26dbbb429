/** What a clock at 2^64 - 1 does to a node: nothing can be authored on it any more. */
module ClockLimit {
  import opened Events
  import opened CausalGraph
  import opened EventGraphs
  import opened Convergence
  import opened Engine
  import opened EngineRuns

  /** Some live event has the largest clock. */
  ghost predicate Saturated(s: Engine) {
    exists k :: k in s.graph.events && s.graph.events[k].lamport == U64_LIMIT - 1
  }

  lemma SaturatedRefuses(book: ObjectId -> Event, s: Engine, e: Event)
    requires Inv(book, s) && Saturated(s) && Enabled(book, s, Append(e))
    ensures Do(s, Append(e)) == s.(disk := s.disk + {e})
  {
    AppendAcceptedIff(book, s, e);
  }

  /** In every run, an append on a graph that holds the largest clock is refused: only the disk changes. */
  lemma AppendRefusedAtLimit(book: ObjectId -> Event, steps: seq<Step>, j: nat)
    requires Legal(book, steps) && j < |steps| && steps[j].Append? && Saturated(Run(steps[..j]))
    ensures var s, s' := Run(steps[..j]), Run(steps[..j + 1]);
      s'.graph == s.graph && s'.cache == s.cache && s'.disk == s.disk + {steps[j].e}
  {
    LegalUpTo(book, steps, j);
    RunKeepsInv(book, steps[..j]);
    RunStep(steps, j);
    SaturatedRefuses(book, Run(steps[..j]), steps[j].e);
  }

  lemma LegalUpTo(book: ObjectId -> Event, steps: seq<Step>, j: nat)
    requires Legal(book, steps) && j <= |steps|
    ensures Legal(book, steps[..j])
    ensures CleanRun(steps) ==> CleanRun(steps[..j])
  {
    forall i | 0 <= i < j ensures steps[..j][..i] == steps[..i] && steps[..j][i] == steps[i] {}
  }

  /** A clean step drops no live event. */
  lemma CleanStepKeepsLive(book: ObjectId -> Event, s: Engine, step: Step)
    requires Inv(book, s) && Enabled(book, s, step) && Clean(s, step)
    ensures EventSet(s.graph) <= EventSet(Do(s, step).graph)
  {
    match step {
      case Append(e) => InsertKeepsInv(book, s.graph, s.disk, e);
      case Ingest(batch) => BatchKeepsInv(book, s.graph, s.disk, batch);
      case Restart(order) =>
        ReloadIsInv(book, order);
        EventSetDistinct(InsertAll(order));
        RestartReflects(book, s, order);
      case _ =>
    }
  }

  lemma {:induction false} LiveStays(book: ObjectId -> Event, steps: seq<Step>, i: nat)
    requires Legal(book, steps) && CleanRun(steps) && i <= |steps|
    ensures EventSet(Run(steps[..i]).graph) <= EventSet(Run(steps).graph)
    decreases |steps|
  {
    if i == |steps| {
      assert steps[..i] == steps;
    } else {
      var n := |steps| - 1;
      LegalFront(book, steps);
      LiveStays(book, steps[..n], i);
      assert steps[..n][..i] == steps[..i];
      RunKeepsInv(book, steps[..n]);
      CleanStepKeepsLive(book, Run(steps[..n]), steps[n]);
    }
  }

  lemma SaturationStays(book: ObjectId -> Event, steps: seq<Step>, i: nat)
    requires Legal(book, steps) && CleanRun(steps) && i <= |steps| && Saturated(Run(steps[..i]))
    ensures Saturated(Run(steps))
  {
    LiveStays(book, steps, i);
    var g, h := Run(steps[..i]).graph, Run(steps).graph;
    var k :| k in g.events && g.events[k].lamport == U64_LIMIT - 1;
    assert g.events[k] in EventSet(h);
    var l :| l in h.events && h.events[l] == g.events[k];
  }

  /** Once the largest clock is live, no append of any continuation with clean restarts is accepted. */
  lemma NothingIsAuthoredAfterwards(book: ObjectId -> Event, steps: seq<Step>, i: nat, j: nat)
    requires Legal(book, steps) && CleanRun(steps) && i <= j < |steps| && steps[j].Append?
    requires Saturated(Run(steps[..i]))
    ensures Run(steps[..j + 1]).graph == Run(steps[..j]).graph && Run(steps[..j + 1]).cache == Run(steps[..j]).cache
  {
    LegalUpTo(book, steps, j);
    assert steps[..j][..i] == steps[..i];
    SaturationStays(book, steps[..j], i);
    AppendRefusedAtLimit(book, steps, j);
  }

  /** One remote root is enough: its clock is compared with nothing, so it is accepted with any value. */
  lemma OneRootSaturates(book: ObjectId -> Event, root: Event)
    requires Genuine(book, root) && root.parents == [] && root.lamport == U64_LIMIT - 1
    ensures Legal(book, [Ingest([root])]) && CleanRun([Ingest([root])]) && Saturated(Run([Ingest([root])]))
  {
    var steps := [] + [Ingest([root])];
    LegalSnoc(book, [], Ingest([root]));
    assert steps == [Ingest([root])];
    assert [root][..0] == [];
    assert InsertBatch(EMPTY, [root][..0]) == EMPTY;
    assert InsertBatch(EMPTY, [root]) == Insert(EMPTY, root);
    assert Run(steps).graph.events[root.id] == root;
  }
}
