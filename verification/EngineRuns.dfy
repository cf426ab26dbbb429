/** Whole runs of the engine: every interleaving of appends, ingestions, re-reductions and restarts. */
module EngineRuns {
  import opened Events
  import opened CausalGraph
  import opened Reducer
  import opened ReducerLaws
  import opened Engine

  ghost function Run(steps: seq<Step>): Engine {
    if steps == [] then FRESH else Do(Run(steps[..|steps| - 1]), steps[|steps| - 1])
  }

  ghost predicate Legal(book: ObjectId -> Event, steps: seq<Step>) {
    forall i :: 0 <= i < |steps| ==> Enabled(book, Run(steps[..i]), steps[i])
  }

  /** Every restart of the run finds a disk that is compatible with the live graph. */
  ghost predicate CleanRun(steps: seq<Step>) {
    forall i :: 0 <= i < |steps| ==> Clean(Run(steps[..i]), steps[i])
  }

  lemma RunStep(steps: seq<Step>, i: nat)
    requires i < |steps|
    ensures Run(steps[..i + 1]) == Do(Run(steps[..i]), steps[i])
  {
    assert steps[..i + 1][..i] == steps[..i];
  }

  lemma LegalFront(book: ObjectId -> Event, steps: seq<Step>)
    requires steps != [] && Legal(book, steps)
    ensures Legal(book, steps[..|steps| - 1])
    ensures Enabled(book, Run(steps[..|steps| - 1]), steps[|steps| - 1])
    ensures CleanRun(steps) ==> CleanRun(steps[..|steps| - 1]) && Clean(Run(steps[..|steps| - 1]), steps[|steps| - 1])
  {
    var n := |steps| - 1;
    forall i | 0 <= i < n ensures steps[..n][..i] == steps[..i] && steps[..n][i] == steps[i] {}
  }

  lemma LegalSnoc(book: ObjectId -> Event, steps: seq<Step>, x: Step)
    requires Legal(book, steps) && Enabled(book, Run(steps), x)
    ensures Legal(book, steps + [x]) && Run(steps + [x]) == Do(Run(steps), x)
    ensures CleanRun(steps) && Clean(Run(steps), x) ==> CleanRun(steps + [x])
  {
    var all := steps + [x];
    assert all[..|steps|] == steps;
    forall i | 0 <= i < |all| ensures i < |steps| ==> all[..i] == steps[..i] && all[i] == steps[i] {}
  }

  lemma {:induction false} RunKeepsInv(book: ObjectId -> Event, steps: seq<Step>)
    requires Legal(book, steps)
    ensures Inv(book, Run(steps))
  {
    if steps != [] {
      var n := |steps| - 1;
      LegalFront(book, steps);
      RunKeepsInv(book, steps[..n]);
      StepKeepsInv(book, Run(steps[..n]), steps[n]);
    }
  }

  lemma LastStepReflects(book: ObjectId -> Event, steps: seq<Step>, snap: set<Event>) returns (snap': set<Event>)
    requires steps != [] && Legal(book, steps) && Reflects(Run(steps[..|steps| - 1]), snap)
    ensures Reflects(Run(steps), snap')
    ensures CleanRun(steps) ==> snap <= snap'
  {
    var n := |steps| - 1;
    LegalFront(book, steps);
    RunKeepsInv(book, steps[..n]);
    snap' := StepKeepsReflection(book, Run(steps[..n]), steps[n], snap);
  }

  /** At every point of a run the cache reflects some part of the graph. */
  lemma {:induction false} RunReflects(book: ObjectId -> Event, steps: seq<Step>) returns (snap: set<Event>)
    requires Legal(book, steps)
    ensures Reflects(Run(steps), snap)
  {
    if steps == [] {
      snap := {};
      assert EventSet(EMPTY) == {};
    } else {
      LegalFront(book, steps);
      snap := RunReflects(book, steps[..|steps| - 1]);
      snap := LastStepReflects(book, steps, snap);
    }
  }

  /** What the cache reflects at step `i` is part of what it reflects at the end of the run. */
  lemma {:induction false} ReflectionGrows(book: ObjectId -> Event, steps: seq<Step>, i: nat)
    returns (early: set<Event>, late: set<Event>)
    requires Legal(book, steps) && i <= |steps|
    ensures Reflects(Run(steps[..i]), early) && Reflects(Run(steps), late)
    ensures CleanRun(steps) ==> early <= late
    decreases |steps|
  {
    if i == |steps| {
      assert steps[..i] == steps;
      early := RunReflects(book, steps);
      late := early;
    } else {
      var n := |steps| - 1;
      LegalFront(book, steps);
      assert steps[..n][..i] == steps[..i];
      early, late := ReflectionGrows(book, steps[..n], i);
      late := LastStepReflects(book, steps, late);
    }
  }

  /** Cache agreement: after any interleaving, whenever no ingestion is between its insert and its re-reduce,
      the cached tickets are the reduction of the graph, refused appends and restarts included. */
  lemma CacheAgrees(book: ObjectId -> Event, steps: seq<Step>)
    requires Legal(book, steps) && Run(steps).pending == 0
    ensures DistinctIds(EventSet(Run(steps).graph)) && Run(steps).cache == State(EventSet(Run(steps).graph))
  {
    var snap := RunReflects(book, steps);
  }

  /** What the view of a ticket holds is never taken back: whether it exists and is closed, and the ids of its
      messages, attachments, sessions and ended sessions. Whatever of this the cache showed at any point of a run, even
      while it was stale, it still shows at the end. */
  lemma NothingIsTakenBack(book: ObjectId -> Event, steps: seq<Step>, i: nat, t: string)
    requires Legal(book, steps) && CleanRun(steps) && i <= |steps|
    ensures Within(Observed(Run(steps[..i]).cache, t), Observed(Run(steps).cache, t))
  {
    var early, late := ReflectionGrows(book, steps, i);
    MergeIsMonotone(early, late, t);
  }

  ghost predicate ShownClosed(s: Engine, t: string) {
    t in s.cache && s.cache[t].record.state.Closed?
  }

  /** Closed is final: once shown closed, a ticket is shown closed after every continuation of the run. */
  lemma ClosedIsFinal(book: ObjectId -> Event, steps: seq<Step>, i: nat, t: string)
    requires Legal(book, steps) && CleanRun(steps) && i <= |steps|
    requires ShownClosed(Run(steps[..i]), t)
    ensures ShownClosed(Run(steps), t) && !Run(steps).cache[t].record.state.PermitsWork()
  {
    NothingIsTakenBack(book, steps, i, t);
  }
}
