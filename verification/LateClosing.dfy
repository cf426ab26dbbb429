/** A run from nothing in which a shell is served on a ticket that was closed after its check. */
module LateClosing {
  import opened Events
  import opened Sorting
  import opened CausalGraph
  import opened Convergence
  import opened Reducer
  import opened ReducerLaws
  import opened RestartOrder
  import opened ShellGate
  import opened ShellWatch
  import E = Engine
  import R = EngineRuns

  /** A creation for this node, and a closing event on top of it. */
  ghost predicate Pair(cfg: Config, c: Event, k: Event, t: string) {
    && Creates(c, t) && Closes(k, t) && c.payload.event.clientPeerId == cfg.local
    && c.parents == [] && k.parents == [c.id] && c.id != k.id && c.lamport < k.lamport
  }

  lemma IngestOne(s: E.Engine, e: Event)
    requires Succeeds(s.graph, e)
    ensures E.Do(s, E.Ingest([e])) == E.Engine(Insert(s.graph, e), s.cache, s.disk + {e}, s.pending + 1)
  {
    assert [e][..0] == [];
    assert E.InsertBatch(s.graph, [e][..0]) == s.graph && E.Accepted(s.graph, [e][..0]) == 0;
    assert E.InsertBatch(s.graph, [e]) == Insert(s.graph, e) && E.Accepted(s.graph, [e]) == 1;
    assert Elements([e]) == {e};
  }

  lemma OneEvent(c: Event)
    requires c.parents == []
    ensures EventSet(Insert(EMPTY, c)) == {c} && DistinctIds({c}) && State({c}) == Apply(map[], c)
  {
    InsertRoot(c);
    assert Insert(EMPTY, c).events[c.id] == c;
    assert Sorted({}) == [] && {} + {c} == {c};
    StateAppend({}, c);
  }

  /** The engine once the creation is in the graph. */
  ghost function Ingested(c: Event): E.Engine {
    E.Engine(Insert(EMPTY, c), map[], {c}, 1)
  }

  /** The engine once the creation is shown. */
  ghost function Created(c: Event): E.Engine
    requires DistinctIds({c})
  {
    E.Engine(Insert(EMPTY, c), State({c}), {c}, 0)
  }

  /** The engine once the closing event is in the graph, but not yet reduced. */
  ghost function Pending(c: Event, k: Event): E.Engine
    requires DistinctIds({c})
  {
    E.Engine(Live(c, k), State({c}), {c, k}, 1)
  }

  lemma ReductionCloses(cfg: Config, c: Event, k: Event, t: string)
    requires Pair(cfg, c, k, t)
    ensures DistinctIds({c}) && R.ShownClosed(E.Do(Pending(c, k), E.Rereduce), t)
  {
    OneEvent(c);
    TwoEvents(c, k, c.id);
    ReduceStep(Pending(c, k), {c, k});
    PairCloses(c, k, t);
  }

  lemma PairCloses(c: Event, k: Event, t: string)
    requires Creates(c, t) && Closes(k, t) && c.lamport < k.lamport && DistinctIds({c, k})
    ensures t in State({c, k}) && State({c, k})[t].record.state.Closed?
  {
    StateIsDeclared({c, k}, t);
    assert Follows({c, k}, t, k);
  }

  lemma TicketIsOpen(cfg: Config, c: Event, k: Event, t: string)
    requires Pair(cfg, c, k, t)
    ensures DistinctIds({c}) && t in State({c})
    ensures State({c})[t].record.state.Open? && State({c})[t].record.clientPeerId == cfg.local
  {
    OneEvent(c);
    assert Apply(map[], c)[t] == Opened(c, c.payload.event);
  }

  lemma CheckPasses(cfg: Config, g: Gate, hs: Handshake)
    requires g.conns == map[] && AuthorityValid(cfg, hs, g.now) && InOrder(cfg, g.engine.cache, hs)
    ensures Do(cfg, Do(cfg, Do(cfg, g, Arrive(0, hs)), Vet(0)), Check(0)) == g.(conns := map[0 := Checked(hs)])
  {
    var g2 := Do(cfg, Do(cfg, g, Arrive(0, hs)), Vet(0));
    assert g2 == g.(conns := map[0 := Vetted(hs, true)]);
    DecideIff(cfg, g.engine.cache, hs, true);
    assert Do(cfg, g2, Check(0)).conns == map[0 := Checked(hs)];
  }

  lemma IngestSnoc(book: ObjectId -> Event, cfg: Config, steps: seq<Step>, s: E.Engine, e: Event)
    requires Legal(book, cfg, steps) && Run(cfg, steps) == Gate(s, 0, false, map[])
    requires E.Genuine(book, e) && Succeeds(s.graph, e)
    ensures var all := steps + [EngineStep(E.Ingest([e]))];
      && Legal(book, cfg, all)
      && Run(cfg, all) == Gate(E.Engine(Insert(s.graph, e), s.cache, s.disk + {e}, s.pending + 1), 0, false, map[])
  {
    IngestOne(s, e);
    RunSnoc(book, cfg, steps, EngineStep(E.Ingest([e])));
  }

  lemma ReduceSnoc(book: ObjectId -> Event, cfg: Config, steps: seq<Step>, s: E.Engine, events: set<Event>)
    requires Legal(book, cfg, steps) && Run(cfg, steps) == Gate(s, 0, false, map[])
    requires s.pending == 1 && EventSet(s.graph) == events && DistinctIds(events)
    ensures var all := steps + [EngineStep(E.Rereduce)];
      Legal(book, cfg, all) && Run(cfg, all) == Gate(E.Engine(s.graph, State(events), s.disk, 0), 0, false, map[])
  {
    ReduceStep(s, events);
    RunSnoc(book, cfg, steps, EngineStep(E.Rereduce));
  }

  lemma FirstStep(book: ObjectId -> Event, cfg: Config, c: Event) returns (steps: seq<Step>)
    requires c.parents == [] && book(c.id) == c
    ensures Legal(book, cfg, steps) && Run(cfg, steps) == Gate(Ingested(c), 0, false, map[])
  {
    IngestSnoc(book, cfg, [], E.FRESH, c);
    assert {} + {c} == {c};
    steps := [] + [EngineStep(E.Ingest([c]))];
  }

  lemma SecondStep(book: ObjectId -> Event, cfg: Config, c: Event) returns (steps: seq<Step>)
    requires c.parents == [] && book(c.id) == c
    ensures DistinctIds({c}) && Legal(book, cfg, steps) && Run(cfg, steps) == Gate(Created(c), 0, false, map[])
  {
    var front := FirstStep(book, cfg, c);
    OneEvent(c);
    ReduceSnoc(book, cfg, front, Ingested(c), {c});
    steps := front + [EngineStep(E.Rereduce)];
  }

  lemma ThirdStep(book: ObjectId -> Event, cfg: Config, front: seq<Step>, c: Event, k: Event)
    requires DistinctIds({c}) && Legal(book, cfg, front) && Run(cfg, front) == Gate(Created(c), 0, false, map[])
    requires E.Genuine(book, k) && Succeeds(Created(c).graph, k)
    ensures var all := front + [EngineStep(E.Ingest([k]))];
      Legal(book, cfg, all) && Run(cfg, all) == Gate(Pending(c, k), 0, false, map[])
  {
    IngestSnoc(book, cfg, front, Created(c), k);
    assert {c} + {k} == {c, k};
  }

  lemma EngineSteps(book: ObjectId -> Event, cfg: Config, c: Event, k: Event) returns (steps: seq<Step>)
    requires c.parents == [] && book(c.id) == c && E.Genuine(book, k) && Succeeds(Insert(EMPTY, c), k)
    ensures DistinctIds({c}) && Legal(book, cfg, steps) && Run(cfg, steps) == Gate(Pending(c, k), 0, false, map[])
  {
    var front := SecondStep(book, cfg, c);
    ThirdStep(book, cfg, front, c, k);
    steps := front + [EngineStep(E.Ingest([k]))];
  }

  lemma SecondSucceeds(c: Event, k: Event)
    requires c.parents == [] && k.parents == [c.id] && c.id != k.id && c.lamport < k.lamport
    ensures Succeeds(Insert(EMPTY, c), k)
  {
    InsertSecond(c, k, c.id);
  }

  lemma CheckedWhilePending(book: ObjectId -> Event, cfg: Config, c: Event, k: Event, hs: Handshake)
    returns (steps: seq<Step>)
    requires Pair(cfg, c, k, hs.ticket) && book(c.id) == c && book(k.id) == k && AuthorityValid(cfg, hs, 0)
    ensures DistinctIds({c}) && Legal(book, cfg, steps)
    ensures Run(cfg, steps) == Gate(Pending(c, k), 0, false, map[0 := Checked(hs)])
  {
    SecondSucceeds(c, k);
    var front := EngineSteps(book, cfg, c, k);
    TicketIsOpen(cfg, c, k, hs.ticket);
    CheckPasses(cfg, Run(cfg, front), hs);
    RunSnoc(book, cfg, front, Arrive(0, hs));
    RunSnoc(book, cfg, front + [Arrive(0, hs)], Vet(0));
    RunSnoc(book, cfg, front + [Arrive(0, hs)] + [Vet(0)], Check(0));
    steps := front + [Arrive(0, hs)] + [Vet(0)] + [Check(0)];
  }

  /** A ticket arrives and is shown open; its closing event arrives; a shell passes its check; the closing event is
      reduced; and the shell is served. */
  lemma ServedAfterClosing(book: ObjectId -> Event, cfg: Config, c: Event, k: Event, hs: Handshake)
    returns (steps: seq<Step>)
    requires Pair(cfg, c, k, hs.ticket) && book(c.id) == c && book(k.id) == k && AuthorityValid(cfg, hs, 0)
    ensures Legal(book, cfg, steps) && 0 in Run(cfg, steps).conns && Run(cfg, steps).conns[0] == Serving(hs)
    ensures R.ShownClosed(Run(cfg, steps).engine, hs.ticket)
  {
    var front := CheckedWhilePending(book, cfg, c, k, hs);
    ReductionCloses(cfg, c, k, hs.ticket);
    ServedOnClosedTicket(book, cfg, front, E.Rereduce, 0, hs);
    steps := front + [EngineStep(E.Rereduce)] + [Claim(0)] + [Answer(0, true)];
  }
}
