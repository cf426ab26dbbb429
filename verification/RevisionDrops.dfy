/** Why revisions only guard a node that ingests nothing: merging an early closing event lowers a revision, and a signed
    transition passes its check a second time. */
module RevisionDrops {
  import opened Events
  import opened CausalGraph
  import opened Convergence
  import opened Reducer
  import opened ReducerLaws
  import opened Engine
  import opened EngineRuns
  import O = Outbox
  import P = Replicas

  predicate Moves(e: Event, t: string, next: TicketState) {
    About(e, t) && e.payload.event.StatusChanged? && e.payload.event.newState == next
  }

  /** A ticket that is created, worked on, resolved and closed, and an earlier closing event from elsewhere. */
  ghost predicate Story(c: Event, x: Event, a: Event, r: Event, k: Event, t: string) {
    && Creates(c, t) && Moves(x, t, Closed) && Moves(a, t, InProgress) && Moves(r, t, Resolved) && Moves(k, t, Closed)
    && c.lamport < x.lamport < a.lamport < r.lamport < k.lamport
    && c.parents == [] && x.parents == [] && a.parents == [] && r.parents == []
  }

  /** What the store shows of the ticket. */
  predicate Shows(store: Tickets, t: string, owner: string, state: TicketState, revision: nat) {
    && t in store && store[t].record.clientPeerId == owner
    && store[t].record.state == state && store[t].record.revision == revision
  }

  lemma Accepted1(store: Tickets, e: Event, t: string, owner: string, state: TicketState, revision: nat, next: TicketState)
    requires Shows(store, t, owner, state, revision) && Moves(e, t, next) && state.CanTransitionTo(next)
    ensures Shows(Apply(store, e), t, owner, next, revision + 1)
  {
  }

  lemma Refused1(store: Tickets, e: Event, t: string, owner: string, state: TicketState, revision: nat, next: TicketState)
    requires Shows(store, t, owner, state, revision) && Moves(e, t, next) && !state.CanTransitionTo(next)
    ensures Shows(Apply(store, e), t, owner, state, revision)
  {
  }

  lemma OnlyOne(c: Event)
    ensures DistinctIds({c}) && State({c}) == Apply(map[], c)
  {
    assert {} + {c} == {c};
    StateAppend({}, c);
  }

  lemma CreationShows(c: Event, t: string)
    requires Creates(c, t)
    ensures Shows(Apply(map[], c), t, c.payload.event.clientPeerId, Open, 1)
  {
    assert Apply(map[], c)[t] == Opened(c, c.payload.event);
  }

  lemma Created1(c: Event, t: string)
    requires Creates(c, t)
    ensures DistinctIds({c}) && Shows(State({c}), t, c.payload.event.clientPeerId, Open, 1)
  {
    OnlyOne(c);
    CreationShows(c, t);
  }

  lemma Last(s: set<Event>, e: Event, all: set<Event>)
    requires all == s + {e} && DistinctIds(all) && e !in s && forall y :: y in s ==> y.lamport < e.lamport
    ensures DistinctIds(s) && State(all) == Apply(State(s), e)
  {
    StateAppend(s, e);
  }

  lemma Begun(c: Event, a: Event, t: string)
    requires Creates(c, t) && Moves(a, t, InProgress) && c.lamport < a.lamport && DistinctIds({c, a})
    ensures Shows(State({c, a}), t, c.payload.event.clientPeerId, InProgress, 2)
  {
    Created1(c, t);
    Last({c}, a, {c, a});
    Accepted1(State({c}), a, t, c.payload.event.clientPeerId, Open, 1, InProgress);
  }

  /** Without the early event the ticket is resolved at revision 3. */
  lemma WorkedOn(c: Event, a: Event, r: Event, t: string)
    requires Creates(c, t) && Moves(a, t, InProgress) && Moves(r, t, Resolved)
    requires c.lamport < a.lamport < r.lamport && DistinctIds({c, a, r})
    ensures Shows(State({c, a, r}), t, c.payload.event.clientPeerId, Resolved, 3)
  {
    Begun(c, a, t);
    Last({c, a}, r, {c, a, r});
    Accepted1(State({c, a}), r, t, c.payload.event.clientPeerId, InProgress, 2, Resolved);
  }

  lemma ClosedAtOnce(c: Event, x: Event, t: string)
    requires Creates(c, t) && Moves(x, t, Closed) && c.lamport < x.lamport && DistinctIds({c, x})
    ensures Shows(State({c, x}), t, c.payload.event.clientPeerId, Closed, 2)
  {
    Created1(c, t);
    Last({c}, x, {c, x});
    Accepted1(State({c}), x, t, c.payload.event.clientPeerId, Open, 1, Closed);
  }

  lemma ClosedEarly(c: Event, x: Event, a: Event, t: string)
    requires Creates(c, t) && Moves(x, t, Closed) && Moves(a, t, InProgress)
    requires c.lamport < x.lamport < a.lamport && DistinctIds({c, x, a})
    ensures Shows(State({c, x, a}), t, c.payload.event.clientPeerId, Closed, 2)
  {
    ClosedAtOnce(c, x, t);
    Last({c, x}, a, {c, x, a});
    Refused1(State({c, x}), a, t, c.payload.event.clientPeerId, Closed, 2, InProgress);
  }

  /** With it the later work is refused, and the closing event of revision 4 is one of revision 3. */
  lemma Merged(c: Event, x: Event, a: Event, r: Event, k: Event, t: string)
    requires Story(c, x, a, r, k, t) && DistinctIds({c, x, a, r, k})
    ensures Shows(State({c, x, a, r, k}), t, c.payload.event.clientPeerId, Closed, 3)
  {
    var owner := c.payload.event.clientPeerId;
    ClosedEarly(c, x, a, t);
    Last({c, x, a}, r, {c, x, a, r});
    Refused1(State({c, x, a}), r, t, owner, Closed, 2, Resolved);
    Last({c, x, a, r}, k, {c, x, a, r, k});
    Accepted1(State({c, x, a, r}), k, t, owner, Closed, 2, Closed);
  }

  // ---- The run ----

  /** The disk is the graph, and holds exactly these events. */
  ghost predicate Holds(book: ObjectId -> Event, s: Engine, all: set<Event>) {
    Inv(book, s) && s.disk == all && EventSet(s.graph) == all
  }

  lemma IngestAll(book: ObjectId -> Event, s: Engine, all: set<Event>, batch: seq<Event>)
    requires Holds(book, s, all) && forall e :: e in batch ==> Genuine(book, e)
    requires LamportConsistent(all + Elements(batch)) && !(Elements(batch) <= all)
    ensures var s' := Do(s, Ingest(batch));
      Holds(book, s', all + Elements(batch)) && s'.cache == s.cache && s'.pending == s.pending + 1
  {
    P.SameInv(book, s);
    P.ConsistentBatchSucceeds(book, s.graph, s.disk, batch);
    BatchKeepsInv(book, s.graph, s.disk, batch);
    StepKeepsInv(book, s, Ingest(batch));
  }

  lemma ReduceAll(book: ObjectId -> Event, s: Engine, all: set<Event>)
    requires Holds(book, s, all) && s.pending == 1
    ensures DistinctIds(all)
    ensures var s' := Do(s, Rereduce); Holds(book, s', all) && s'.cache == State(all) && s'.pending == 0
  {
    GenuineDistinct(book, all);
  }

  /** Events without parents, below the largest clock. */
  ghost predicate Roots(all: set<Event>) {
    forall e :: e in all ==> e.parents == [] && e.lamport < U64_LIMIT - 1
  }

  lemma AppendLast(book: ObjectId -> Event, s: Engine, all: set<Event>, k: Event)
    requires Holds(book, s, all) && s.pending == 0 && Enabled(book, s, Append(k))
    requires Roots(all)
    ensures var s' := Do(s, Append(k));
      Holds(book, s', all + {k}) && s'.cache == Apply(s.cache, k) && s'.pending == 0
    ensures forall e :: e in all ==> e.lamport < k.lamport
  {
    forall j | j in s.graph.events ensures s.graph.events[j] in all {
      assert s.graph.events[j] in EventSet(s.graph);
    }
    AppendAcceptedIff(book, s, k);
    AppendSortsLast(book, s, k);
    StepKeepsInv(book, s, Append(k));
  }

  lemma RootsAreConsistent(all: set<Event>, k: Event)
    requires (forall e :: e in all ==> e.parents == []) && forall e :: e in all && e.id in k.parents ==> e.lamport < k.lamport
    requires k.id !in k.parents
    ensures LamportConsistent(all + {k})
  {
  }

  lemma FirstMerge(book: ObjectId -> Event, c: Event, a: Event, r: Event) returns (steps: seq<Step>)
    requires Genuine(book, c) && Genuine(book, a) && Genuine(book, r)
    requires c.parents == [] && a.parents == [] && r.parents == []
    ensures Legal(book, steps) && Holds(book, Run(steps), {c, a, r}) && Run(steps).pending == 0
    ensures DistinctIds({c, a, r}) && Run(steps).cache == State({c, a, r})
  {
    var one := [] + [Ingest([c, a, r])];
    assert {} + Elements([c, a, r]) == {c, a, r};
    FreshHoldsNothing(book);
    ThenIngest(book, [], {}, [c, a, r]);
    ThenReduce(book, one, {c, a, r});
    steps := one + [Rereduce];
  }

  lemma FreshHoldsNothing(book: ObjectId -> Event)
    ensures Holds(book, FRESH, {})
  {
    assert EventSet(EMPTY) == {};
  }

  lemma ThenAppend(book: ObjectId -> Event, front: seq<Step>, all: set<Event>, k: Event)
    requires Legal(book, front) && Holds(book, Run(front), all) && Run(front).pending == 0
    requires Enabled(book, Run(front), Append(k))
    requires Roots(all)
    ensures var steps := front + [Append(k)];
      && Legal(book, steps) && Holds(book, Run(steps), all + {k}) && Run(steps).pending == 0
      && Run(steps).cache == Apply(Run(front).cache, k)
    ensures forall e :: e in all ==> e.lamport < k.lamport
  {
    AppendLast(book, Run(front), all, k);
    LegalSnoc(book, front, Append(k));
  }

  lemma ThenIngest(book: ObjectId -> Event, front: seq<Step>, all: set<Event>, batch: seq<Event>)
    requires Legal(book, front) && Holds(book, Run(front), all) && Run(front).pending == 0
    requires (forall e :: e in batch ==> Genuine(book, e)) && !(Elements(batch) <= all)
    requires LamportConsistent(all + Elements(batch))
    ensures var steps := front + [Ingest(batch)];
      Legal(book, steps) && Holds(book, Run(steps), all + Elements(batch)) && Run(steps).pending == 1
  {
    IngestAll(book, Run(front), all, batch);
    LegalSnoc(book, front, Ingest(batch));
  }

  lemma ThenReduce(book: ObjectId -> Event, front: seq<Step>, all: set<Event>)
    requires Legal(book, front) && Holds(book, Run(front), all) && Run(front).pending == 1
    ensures DistinctIds(all)
    ensures var steps := front + [Rereduce];
      Legal(book, steps) && Holds(book, Run(steps), all) && Run(steps).pending == 0 && Run(steps).cache == State(all)
  {
    ReduceAll(book, Run(front), all);
    LegalSnoc(book, front, Rereduce);
  }

  lemma ThenMerge(book: ObjectId -> Event, front: seq<Step>, all: set<Event>, x: Event)
    requires Legal(book, front) && Holds(book, Run(front), all) && Run(front).pending == 0
    requires Genuine(book, x) && x !in all && LamportConsistent(all + {x})
    ensures DistinctIds(all + {x})
    ensures var steps := front + [Ingest([x])] + [Rereduce]; Legal(book, steps) && Run(steps).cache == State(all + {x})
  {
    assert Elements([x]) == {x};
    ThenIngest(book, front, all, [x]);
    ThenReduce(book, front + [Ingest([x])], all + {x});
  }

  /** The mutation is in order for its receiver: the revision is the one expected, and the transition is allowed. */
  predicate PassesChecks(store: Tickets, p: string, m: O.Mutation) {
    O.Authorized(store, p, m) && store[m.ticket].record.state.CanTransitionTo(m.newState)
  }

  lemma ShownPasses(store: Tickets, p: string, m: O.Mutation, state: TicketState)
    requires Shows(store, m.ticket, p, state, m.expected) && m.genuine && state.CanTransitionTo(m.newState)
    ensures PassesChecks(store, p, m)
  {
  }

  /** The append of the transition, and the merge of the early event. */
  lemma AppendAndMerge(book: ObjectId -> Event, front: seq<Step>, all: set<Event>, k: Event, x: Event)
    returns (mid: seq<Step>, steps: seq<Step>)
    requires Legal(book, front) && Holds(book, Run(front), all) && Run(front).pending == 0
    requires Enabled(book, Run(front), Append(k)) && Genuine(book, x) && x !in all + {k} && x.parents == []
    requires Roots(all)
    requires x.id !in k.parents
    ensures mid == front + [Append(k)] && steps == mid + [Ingest([x])] + [Rereduce]
    ensures Run(mid).cache == Apply(Run(front).cache, k)
    ensures DistinctIds(all + {k} + {x}) && Legal(book, steps) && Run(steps).cache == State(all + {k} + {x})
  {
    mid := front + [Append(k)];
    steps := mid + [Ingest([x])] + [Rereduce];
    ThenAppend(book, front, all, k);
    RootsAreConsistent(all + {x}, k);
    assert all + {x} + {k} == all + {k} + {x};
    ThenMerge(book, mid, all + {k}, x);
  }

  lemma NotAHead(book: ObjectId -> Event, s: Engine, all: set<Event>, k: Event, x: Event)
    requires Holds(book, s, all) && AuthoredOn(s.graph, k) && Genuine(book, x) && x !in all
    ensures x.id !in k.parents
  {
    if x.id in k.parents {
      PresentIsWritten(book, s, x.id);
    }
  }

  lemma EarlyIsApart(c: Event, x: Event, a: Event, r: Event, k: Event, t: string)
    requires Story(c, x, a, r, k, t)
    ensures Roots({c, a, r}) && x !in {c, a, r} + {k}
    ensures {c, a, r} + {k} + {x} == {c, x, a, r, k}
  {
  }

  lemma PassesBefore(c: Event, x: Event, a: Event, r: Event, k: Event, m: O.Mutation)
    requires Story(c, x, a, r, k, m.ticket) && DistinctIds({c, a, r})
    requires m.genuine && m.expected == 3 && m.newState.Closed?
    ensures var p, store := c.payload.event.clientPeerId, State({c, a, r});
      PassesChecks(store, p, m) && Shows(Apply(store, k), m.ticket, p, Closed, 4)
  {
    var p := c.payload.event.clientPeerId;
    WorkedOn(c, a, r, m.ticket);
    ShownPasses(State({c, a, r}), p, m, Resolved);
    Accepted1(State({c, a, r}), k, m.ticket, p, Resolved, 3, Closed);
  }

  lemma PassesAfter(c: Event, x: Event, a: Event, r: Event, k: Event, m: O.Mutation)
    requires Story(c, x, a, r, k, m.ticket) && DistinctIds({c, x, a, r, k})
    requires m.genuine && m.expected == 3 && m.newState.Closed?
    ensures PassesChecks(State({c, x, a, r, k}), c.payload.event.clientPeerId, m)
  {
    Merged(c, x, a, r, k, m.ticket);
    ShownPasses(State({c, x, a, r, k}), c.payload.event.clientPeerId, m, Closed);
  }

  lemma SameCaches(before: Tickets, between: Tickets, after: Tickets, c: Event, x: Event, a: Event, r: Event, k: Event,
                   m: O.Mutation)
    requires Story(c, x, a, r, k, m.ticket) && DistinctIds({c, a, r}) && DistinctIds({c, x, a, r, k})
    requires before == State({c, a, r}) && between == Apply(before, k) && after == State({c, x, a, r, k})
    requires m.genuine && m.expected == 3 && m.newState.Closed?
    ensures var p := c.payload.event.clientPeerId;
      PassesChecks(before, p, m) && Shows(between, m.ticket, p, Closed, 4) && PassesChecks(after, p, m)
  {
    PassesBefore(c, x, a, r, k, m);
    PassesAfter(c, x, a, r, k, m);
  }

  /** The transition is in order and carried out, an early closing event is merged, and it is in order once more. */
  lemma SameMutationPassesTwice(book: ObjectId -> Event, front: seq<Step>, c: Event, x: Event, a: Event, r: Event,
                                k: Event, m: O.Mutation) returns (mid: seq<Step>, steps: seq<Step>)
    requires Legal(book, front) && Holds(book, Run(front), {c, a, r}) && Run(front).pending == 0
    requires DistinctIds({c, a, r}) && Run(front).cache == State({c, a, r})
    requires Story(c, x, a, r, k, m.ticket) && Genuine(book, x) && Enabled(book, Run(front), Append(k))
    requires m.genuine && m.expected == 3 && m.newState.Closed?
    ensures mid == front + [Append(k)] && steps == mid + [Ingest([x])] + [Rereduce] && Legal(book, steps)
    ensures var p := c.payload.event.clientPeerId;
      && PassesChecks(Run(front).cache, p, m) && Shows(Run(mid).cache, m.ticket, p, Closed, 4)
      && PassesChecks(Run(steps).cache, p, m)
  {
    EarlyIsApart(c, x, a, r, k, m.ticket);
    NotAHead(book, Run(front), {c, a, r}, k, x);
    mid, steps := AppendAndMerge(book, front, {c, a, r}, k, x);
    SameCaches(Run(front).cache, Run(mid).cache, Run(steps).cache, c, x, a, r, k, m);
  }
}
