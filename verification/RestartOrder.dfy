/** Why restarts have to be clean: runs in which a reload undoes a closing event. */
module RestartOrder {
  import opened Events
  import opened Sorting
  import opened CausalGraph
  import opened Convergence
  import opened Reducer
  import opened ReducerLaws
  import opened Engine
  import opened EngineRuns

  /** A creation, a closing event on top of it, and an unrelated event that names the closing one as its
      parent without a larger clock. */
  ghost predicate Trio(c: Event, k: Event, x: Event, t: string) {
    && Creates(c, t) && Closes(k, t) && x.payload.Custom?
    && c.parents == [] && k.parents == [c.id] && x.parents == [k.id]
    && c.id != k.id && k.id != x.id && c.id != x.id
    && c.lamport < k.lamport && x.lamport <= k.lamport && c.lamport < x.lamport
  }

  lemma RegisterOne(children: map<ObjectId, seq<ObjectId>>, p: ObjectId, id: ObjectId)
    ensures Register(children, [p], id) == children[p := Kids(children, p) + [id]]
  {
    assert [p][..0] == [];
    assert Register(children, [p][..0], id) == children;
  }

  lemma InsertRoot(c: Event)
    requires c.parents == []
    ensures Insert(EMPTY, c) == Graph(map[c.id := c], map[], {c.id})
  {
    assert (set p | p in c.parents) == {};
  }

  /** One event on top of, or beside, a root. */
  lemma InsertSecond(c: Event, e: Event, p: ObjectId)
    requires c.parents == [] && e.parents == [p] && e.id != c.id && e.id != p && c.lamport < e.lamport
    ensures Succeeds(Insert(EMPTY, c), e)
    ensures Insert(Insert(EMPTY, c), e)
         == Graph(map[c.id := c, e.id := e], map[p := [e.id]], {c.id} - {p} + {e.id})
  {
    InsertRoot(c);
    RegisterOne(map[], p, e.id);
    assert [] + [e.id] == [e.id];
    assert (set q | q in e.parents) == {p};
  }

  /** Live, the closing event comes first and shuts the stale one out; on reload it is the other way round. */
  lemma ArrivalOrders(c: Event, k: Event, x: Event, t: string)
    requires Trio(c, k, x, t)
    ensures !Succeeds(Insert(Insert(EMPTY, c), k), x)
    ensures !Succeeds(Insert(Insert(EMPTY, c), x), k)
  {
    InsertSecond(c, k, c.id);
    InsertSecond(c, x, k.id);
    var live, reloaded := Insert(Insert(EMPTY, c), k), Insert(Insert(EMPTY, c), x);
    assert k.id in x.parents && k.id in live.events;
    assert x.id in Kids(reloaded.children, k.id);
  }

  ghost function Live(c: Event, k: Event): Graph {
    Insert(Insert(EMPTY, c), k)
  }

  lemma TwoEvents(c: Event, e: Event, p: ObjectId)
    requires c.parents == [] && e.parents == [p] && e.id != c.id && e.id != p && c.lamport < e.lamport
    ensures EventSet(Live(c, e)) == {c, e} && DistinctIds({c, e})
  {
    InsertSecond(c, e, p);
    var g := Live(c, e);
    assert g.events[c.id] == c && g.events[e.id] == e;
  }

  lemma IngestPair(c: Event, k: Event)
    requires Succeeds(EMPTY, c)
    ensures Do(FRESH, Ingest([c, k])) == Engine(Live(c, k), map[], {c, k}, 1)
  {
    assert [c, k][..1] == [c] && [c][..0] == [];
    assert InsertBatch(EMPTY, [c][..0]) == EMPTY;
    assert InsertBatch(EMPTY, [c]) == Insert(EMPTY, c) && Accepted(EMPTY, [c]) == 1;
    assert Elements([c, k]) == {c, k};
  }

  lemma IngestRefused(s: Engine, x: Event)
    requires !Succeeds(s.graph, x)
    ensures Do(s, Ingest([x])) == s.(disk := s.disk + {x})
  {
    assert [x][..0] == [];
    assert InsertBatch(s.graph, [x][..0]) == s.graph;
    assert InsertBatch(s.graph, [x]) == s.graph && Accepted(s.graph, [x]) == 0;
    assert Elements([x]) == {x};
  }

  /** Both events arrive, the stale one is refused, and the disk is reloaded in another order. */
  ghost predicate Scenario(steps: seq<Step>, c: Event, k: Event, x: Event) {
    steps == [Ingest([c, k]), Rereduce, Ingest([x]), Restart([c, x, k])]
  }

  lemma AfterOne(steps: seq<Step>, c: Event, k: Event, x: Event)
    requires Scenario(steps, c, k, x) && Succeeds(EMPTY, c)
    ensures Run(steps[..1]) == Engine(Live(c, k), map[], {c, k}, 1)
  {
    IngestPair(c, k);
    RunStep(steps, 0);
    assert Run(steps[..0]) == FRESH;
  }

  lemma ReduceStep(s: Engine, all: set<Event>)
    requires s.pending == 1 && EventSet(s.graph) == all && DistinctIds(all)
    ensures Do(s, Rereduce) == Engine(s.graph, State(all), s.disk, 0)
  {
  }

  lemma ReduceNext(steps: seq<Step>, i: nat, s: Engine, all: set<Event>)
    requires i < |steps| && steps[i] == Rereduce && Run(steps[..i]) == s
    requires s.pending == 1 && EventSet(s.graph) == all && DistinctIds(all)
    ensures Run(steps[..i + 1]) == Engine(s.graph, State(all), s.disk, 0)
  {
    ReduceStep(s, all);
    RunStep(steps, i);
  }

  lemma AfterTwo(steps: seq<Step>, c: Event, k: Event, x: Event, t: string)
    requires Trio(c, k, x, t) && Scenario(steps, c, k, x)
    ensures DistinctIds({c, k})
    ensures Run(steps[..1]) == Engine(Live(c, k), map[], {c, k}, 1)
    ensures Run(steps[..2]) == Engine(Live(c, k), State({c, k}), {c, k}, 0)
  {
    TwoEvents(c, k, c.id);
    AfterOne(steps, c, k, x);
    ReduceNext(steps, 1, Engine(Live(c, k), map[], {c, k}, 1), {c, k});
  }

  lemma BeforeRestart(steps: seq<Step>, c: Event, k: Event, x: Event, t: string)
    requires Trio(c, k, x, t) && Scenario(steps, c, k, x)
    ensures DistinctIds({c, k})
    ensures Run(steps[..1]) == Engine(Live(c, k), map[], {c, k}, 1)
    ensures Run(steps[..2]) == Engine(Live(c, k), State({c, k}), {c, k}, 0)
    ensures Run(steps[..3]) == Engine(Live(c, k), State({c, k}), {c, k} + {x}, 0)
  {
    AfterTwo(steps, c, k, x, t);
    assert !Succeeds(Live(c, k), x) by { ArrivalOrders(c, k, x, t); }
    IngestRefused(Run(steps[..2]), x);
    RunStep(steps, 2);
  }

  lemma ReloadedGraph(c: Event, k: Event, x: Event, t: string)
    requires Trio(c, k, x, t)
    ensures InsertAll([c, x, k]) == Live(c, x)
  {
    ArrivalOrders(c, k, x, t);
    assert [c, x, k][..2] == [c, x] && [c, x][..1] == [c] && [c][..0] == [];
    assert InsertAll([c]) == Insert(EMPTY, c);
    assert InsertAll([c, x]) == Live(c, x);
  }

  lemma AfterRestart(steps: seq<Step>, c: Event, k: Event, x: Event, t: string)
    requires Trio(c, k, x, t) && Scenario(steps, c, k, x)
    ensures DistinctIds({c, x}) && Run(steps).cache == State({c, x})
  {
    ReloadedGraph(c, k, x, t);
    TwoEvents(c, x, k.id);
    RunStep(steps, 3);
    assert steps[..4] == steps;
  }

  lemma ClosedBefore(c: Event, k: Event, x: Event, t: string)
    requires Trio(c, k, x, t) && DistinctIds({c, k})
    ensures Observed(State({c, k}), t).closed
  {
    StateIsDeclared({c, k}, t);
    assert Follows({c, k}, t, k);
  }

  lemma PairState(c: Event, x: Event)
    requires DistinctIds({c, x}) && c != x && Before(c, x)
    ensures State({c, x}) == Apply(Apply(map[], c), x)
  {
    assert Sorted({}) == [] && {} + {c} == {c} && {c} + {x} == {c, x};
    StateAppend({}, c);
    StateAppend({c}, x);
  }

  lemma ApplyPair(c: Event, x: Event, t: string)
    requires Creates(c, t) && x.payload.Custom?
    ensures var store := Apply(Apply(map[], c), x); t in store && store[t].record.state.Open?
  {
  }

  lemma OpenAfter(c: Event, k: Event, x: Event, t: string)
    requires Trio(c, k, x, t) && DistinctIds({c, x})
    ensures t in State({c, x}) && State({c, x})[t].record.state.Open?
  {
    PairState(c, x);
    ApplyPair(c, x, t);
  }

  lemma IngestsEnabled(book: ObjectId -> Event, s: Engine, c: Event, k: Event, x: Event, t: string)
    requires Trio(c, k, x, t) && book(c.id) == c && book(k.id) == k && book(x.id) == x
    ensures Enabled(book, s, Ingest([c, k])) && Enabled(book, s, Ingest([x]))
    ensures s.disk == {c, k} + {x} ==> Enabled(book, s, Restart([c, x, k]))
  {
    assert Elements([c, x, k]) == {c, k} + {x};
  }

  lemma Progress(steps: seq<Step>, c: Event, k: Event, x: Event, t: string)
    requires Trio(c, k, x, t) && Scenario(steps, c, k, x)
    ensures Run(steps[..1]).pending == 1 && Run(steps[..3]).disk == {c, k} + {x}
  {
    BeforeRestart(steps, c, k, x, t);
  }

  lemma StepEnabled(book: ObjectId -> Event, steps: seq<Step>, i: nat, c: Event, k: Event, x: Event, t: string)
    requires Trio(c, k, x, t) && Scenario(steps, c, k, x) && i < |steps|
    requires book(c.id) == c && book(k.id) == k && book(x.id) == x
    ensures Enabled(book, Run(steps[..i]), steps[i])
  {
    Progress(steps, c, k, x, t);
    IngestsEnabled(book, Run(steps[..i]), c, k, x, t);
  }

  lemma ScenarioIsLegal(book: ObjectId -> Event, steps: seq<Step>, c: Event, k: Event, x: Event, t: string)
    requires Trio(c, k, x, t) && Scenario(steps, c, k, x)
    requires book(c.id) == c && book(k.id) == k && book(x.id) == x
    ensures Legal(book, steps)
  {
    forall i | 0 <= i < |steps| ensures Enabled(book, Run(steps[..i]), steps[i]) {
      StepEnabled(book, steps, i, c, k, x, t);
    }
  }

  /** An object the live graph rejected is still on disk, and a reload that meets it first rejects the closing
      event instead: a ticket that was shown closed permits work again. */
  lemma UncleanRestartReopens(book: ObjectId -> Event, steps: seq<Step>, c: Event, k: Event, x: Event, t: string)
    requires Trio(c, k, x, t) && Scenario(steps, c, k, x)
    requires book(c.id) == c && book(k.id) == k && book(x.id) == x
    ensures Legal(book, steps) && !CleanRun(steps)
    ensures ShownClosed(Run(steps[..2]), t)
    ensures t in Run(steps).cache && Run(steps).cache[t].record.state.PermitsWork()
  {
    ScenarioIsLegal(book, steps, c, k, x, t);
    BeforeRestart(steps, c, k, x, t);
    AfterRestart(steps, c, k, x, t);
    ClosedBefore(c, k, x, t);
    OpenAfter(c, k, x, t);
    if CleanRun(steps) { ClosedIsFinal(book, steps, 2, t); }
  }
}
