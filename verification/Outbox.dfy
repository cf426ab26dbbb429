/** The durable outbox and the revision-guarded signed mutations it delivers. */
module Outbox {
  import opened Events
  import opened Reducer
  import opened ReducerLaws
  import opened Wrappers

  type Peer = string

  /** A signed lifecycle transition; `genuine` stands for its network, transport, certificate and signature checks. */
  datatype Mutation = Mutation(ticket: string, expected: nat, newState: TicketState, genuine: bool, nonce: nat)

  /** A request that reads, a signed transition, or one of the other two mutations (a pushed ticket, pushed objects). */
  datatype Request = Query(n: nat) | Signed(m: Mutation) | Push(n: nat)

  /** `Info` is the only answer that is not terminal. */
  datatype Response = Applied | Rejected | Ack | Info

  /** A request addressed to a peer. */
  datatype Parcel = Parcel(peer: Peer, request: Request)

  /** A command that waits for a dial, with its outbox key if it mutates. */
  datatype Waiting = Waiting(parcel: Parcel, key: Option<nat>)

  /** `outbox` survives crashes. `ledger` records everything ever enqueued and `finished` the keys removed after a
      terminal answer. */
  datatype Sender = Sender(outbox: map<nat, Parcel>, pending: map<nat, Option<nat>>, dials: seq<Waiting>,
                           connected: set<Peer>, ledger: map<nat, Parcel>, finished: set<nat>)

  /** Requests and answers under way; `sent` records every request ever sent and `decided` what was given a terminal
      answer. */
  datatype Wire = Wire(requests: set<nat>, responses: map<nat, Response>, sent: map<nat, Parcel>, decided: set<Parcel>)

  /** What a receiving node is doing with the one request its event loop is at. */
  datatype Handling =
    | Verified(id: nat, m: Mutation)      // authority and revision were in order
    | Permitted(id: nat, m: Mutation)     // the transition was allowed from the state read then

  /** `applied` counts the transitions carried out per peer, ticket and expected revision. */
  datatype Nodes = Nodes(stores: map<Peer, Tickets>, handling: map<Peer, Handling>, applied: multiset<(Peer, string, nat)>)

  datatype Net = Net(sender: Sender, wire: Wire, nodes: Nodes)

  const QUIET := Net(Sender(map[], map[], [], {}, map[], {}), Wire({}, map[], map[], {}), Nodes(map[], map[], multiset{}))

  datatype SenderStep =
    | Command(parcel: Parcel, out: nat, id: nat)    // enqueue if it mutates, then send or wait for a dial
    | Connect(peer: Peer)
    | Disconnect(peer: Peer)
    | FlushDial(k: nat, id: nat)                    // a command that waited for the dial goes out
    | Resend(out: nat, id: nat)                     // an outbox record goes out again
    | DialFailed(peer: Peer)
    | RequestFailed(id: nat)
    | Lost(id: nat)                                 // the network loses the request or its answer
    | Crash
    | Respond(id: nat)                              // the answer reaches the sender

  datatype NodeStep =
    | Deliver(id: nat, answer: Response)            // the request reaches the receiver
    | Permit(peer: Peer)                            // the receiver re-reads the ticket for the transition policy
    | Carry(peer: Peer, e: Event, inserted: bool)   // the receiver appends the status event
    | Local(peer: Peer, e: Event)                   // any other append at a receiver
    | Halt(peer: Peer)                              // the receiver stops and forgets what it was handling
    | HaltAfterWrite(peer: Peer, e: Event, inserted: bool)
                                                    // it stops once the status event is on disk, before answering

  datatype Step = AtSender(s: SenderStep) | AtNode(r: NodeStep)

  predicate Terminal(a: Response) {
    !a.Info?
  }

  // ---- The sender ----

  predicate SenderEnabled(s: Sender, w: Wire, step: SenderStep) {
    match step
    case Command(_, out, id) => out !in s.ledger && id !in w.sent
    case FlushDial(k, id) => k < |s.dials| && s.dials[k].parcel.peer in s.connected && id !in w.sent
    case Resend(out, id) => out in s.outbox && s.outbox[out].peer in s.connected && id !in w.sent
    case DialFailed(p) => p !in s.connected
    case Respond(id) => id in w.responses
    case _ => true
  }

  function SendWire(w: Wire, id: nat, parcel: Parcel): Wire {
    w.(requests := w.requests + {id}, sent := w.sent[id := parcel])
  }

  function Enqueue(s: Sender, parcel: Parcel, out: nat): Sender {
    s.(outbox := s.outbox[out := parcel], ledger := s.ledger[out := parcel])
  }

  function Forget(dials: seq<Waiting>, p: Peer): seq<Waiting> {
    if dials == [] then [] else
      (if dials[0].parcel.peer == p then [] else [dials[0]]) + Forget(dials[1..], p)
  }

  /** Forgets the request; a terminal answer also clears its outbox entry. */
  function Settle(s: Sender, id: nat, a: Response): Sender {
    var s1 := s.(pending := s.pending - {id});
    if id in s.pending && s.pending[id].Some? && Terminal(a)
    then s1.(outbox := s.outbox - {s.pending[id].value}, finished := s.finished + {s.pending[id].value})
    else s1
  }

  function DoSender(s: Sender, w: Wire, step: SenderStep): (Sender, Wire) {
    match step
    case Command(parcel, out, id) =>
      var mutates := !parcel.request.Query?;
      var key := if mutates then Some(out) else None;
      var s1 := if mutates then Enqueue(s, parcel, out) else s;
      if parcel.peer in s.connected
      then (s1.(pending := s1.pending[id := key]), SendWire(w, id, parcel))
      else (s1.(dials := s1.dials + [Waiting(parcel, key)]), w)
    case Connect(p) => (s.(connected := s.connected + {p}), w)
    case Disconnect(p) => (s.(connected := s.connected - {p}), w)
    case FlushDial(k, id) =>
      if k >= |s.dials| then (s, w) else
        (s.(pending := s.pending[id := s.dials[k].key], dials := s.dials[..k] + s.dials[k + 1..]),
         SendWire(w, id, s.dials[k].parcel))
    case Resend(out, id) =>
      if out !in s.outbox then (s, w) else
        (s.(pending := s.pending[id := Some(out)]), SendWire(w, id, s.outbox[out]))
    case DialFailed(p) => (s.(dials := Forget(s.dials, p)), w)
    case RequestFailed(id) => (s.(pending := s.pending - {id}), w)
    case Lost(id) => (s, w.(requests := w.requests - {id}, responses := w.responses - {id}))
    case Crash => (s.(pending := map[], dials := [], connected := {}), w)
    case Respond(id) =>
      if id !in w.responses then (s, w) else
        (Settle(s, id, w.responses[id]), w.(responses := w.responses - {id}))
  }

  // ---- The receivers ----

  function Store(n: Nodes, p: Peer): Tickets {
    if p in n.stores then n.stores[p] else map[]
  }

  /** The check on delivery: the ticket exists, is owned there, and has the expected revision. */
  predicate Authorized(store: Tickets, p: Peer, m: Mutation) {
    && m.ticket in store && m.genuine
    && store[m.ticket].record.clientPeerId == p
    && store[m.ticket].record.revision == m.expected
  }

  predicate NodeEnabled(w: Wire, n: Nodes, step: NodeStep) {
    match step
    case Deliver(id, a) =>
      && id in w.requests && id in w.sent && w.sent[id].peer !in n.handling
      && (w.sent[id].request.Query? ==> a.Info?) && (w.sent[id].request.Push? ==> Terminal(a))
    case Permit(p) => p in n.handling && n.handling[p].Verified? && n.handling[p].id in w.sent
    case Carry(p, e, _) => MayCarry(w, n, p, e)
    case HaltAfterWrite(p, e, _) => MayCarry(w, n, p, e)
    case _ => true
  }

  /** The receiver is at the append of the transition, and `e` is its status event. */
  predicate MayCarry(w: Wire, n: Nodes, p: Peer, e: Event) {
    && p in n.handling && n.handling[p].Permitted? && n.handling[p].id in w.sent
    && About(e, n.handling[p].m.ticket) && e.payload.event.StatusChanged?
    && e.payload.event.newState == n.handling[p].m.newState
  }

  /** The answer to `id`, when the step gives one. */
  function Answer(w: Wire, n: Nodes, step: NodeStep): Option<(nat, Response)> {
    match step
    case Deliver(id, a) =>
      if id !in w.sent then None
      else if !w.sent[id].request.Signed? then Some((id, a))
      else if Authorized(Store(n, w.sent[id].peer), w.sent[id].peer, w.sent[id].request.m) then None
      else Some((id, Rejected))
    case Permit(p) => if p in n.handling && !Allowed(n, p) then Some((n.handling[p].id, Rejected)) else None
    case Carry(p, e, inserted) =>
      if p !in n.handling then None
      else Some((n.handling[p].id, if Carries(n, p, e, inserted) then Applied else Rejected))
    case _ => None
  }

  /** The transition policy, on the ticket as it is now. */
  predicate Allowed(n: Nodes, p: Peer)
    requires p in n.handling
  {
    var m := n.handling[p].m;
    m.ticket in Store(n, p) && Store(n, p)[m.ticket].record.state.CanTransitionTo(m.newState)
  }

  predicate Carries(n: Nodes, p: Peer, e: Event, inserted: bool) {
    inserted && !Refuses(Store(n, p), e)
  }

  function Appended(n: Nodes, p: Peer, e: Event): Nodes {
    n.(stores := n.stores[p := Apply(Store(n, p), e)])
  }

  function DoNode(w: Wire, n: Nodes, step: NodeStep): Nodes {
    match step
    case Deliver(id, _) =>
      if id in w.sent && w.sent[id].request.Signed?
         && Authorized(Store(n, w.sent[id].peer), w.sent[id].peer, w.sent[id].request.m)
      then n.(handling := n.handling[w.sent[id].peer := Verified(id, w.sent[id].request.m)])
      else n
    case Permit(p) =>
      if p !in n.handling then n
      else if Allowed(n, p) then n.(handling := n.handling[p := Permitted(n.handling[p].id, n.handling[p].m)])
      else n.(handling := n.handling - {p})
    case Carry(p, e, inserted) => CarryOut(n, p, e, inserted)
    case Local(p, e) => Appended(n, p, e)
    case Halt(p) => n.(handling := n.handling - {p})
    case HaltAfterWrite(p, e, inserted) => CarryOut(n, p, e, inserted)
  }

  /** The event takes effect at once or, if the node stopped after writing it, on reload: see
      `LocalNode.WrittenAheadTakesEffect`, and `LocalNode.RestartIsNeutral` for a stop before that. */
  function CarryOut(n: Nodes, p: Peer, e: Event, inserted: bool): Nodes {
    if p !in n.handling then n
    else if Carries(n, p, e, inserted) then
      var m := n.handling[p].m;
      Appended(n, p, e).(handling := n.handling - {p}, applied := n.applied + multiset{(p, m.ticket, m.expected)})
    else n.(handling := n.handling - {p})
  }

  /** The wire after a receiver's step: a delivered request is used up and an answer is on its way. */
  function NodeWire(w: Wire, n: Nodes, step: NodeStep): Wire {
    var w1 := if step.Deliver? then w.(requests := w.requests - {step.id}) else w;
    match Answer(w, n, step)
    case None => w1
    case Some((id, a)) =>
      if id !in w.sent then w1 else
        w1.(responses := w1.responses[id := a], decided := if Terminal(a) then w1.decided + {w.sent[id]} else w1.decided)
  }

  // ---- Runs ----

  predicate Enabled(n: Net, step: Step) {
    match step
    case AtSender(s) => SenderEnabled(n.sender, n.wire, s)
    case AtNode(r) => NodeEnabled(n.wire, n.nodes, r)
  }

  function Do(n: Net, step: Step): Net {
    match step
    case AtSender(s) => var (sender, wire) := DoSender(n.sender, n.wire, s); Net(sender, wire, n.nodes)
    case AtNode(r) => Net(n.sender, NodeWire(n.wire, n.nodes, r), DoNode(n.wire, n.nodes, r))
  }

  function Run(steps: seq<Step>): Net {
    if steps == [] then QUIET else Do(Run(steps[..|steps| - 1]), steps[|steps| - 1])
  }

  predicate Legal(steps: seq<Step>) {
    steps == [] || (Legal(steps[..|steps| - 1]) && Enabled(Run(steps[..|steps| - 1]), steps[|steps| - 1]))
  }

  // ---- Nothing is lost ----

  /** The key, if any, is the one the parcel was enqueued under. */
  predicate Keyed(s: Sender, key: Option<nat>, parcel: Parcel) {
    key.Some? ==> key.value in s.ledger && s.ledger[key.value] == parcel
  }

  ghost predicate OutboxTracked(s: Sender) {
    forall o :: o in s.outbox ==> o in s.ledger && s.ledger[o] == s.outbox[o]
  }

  ghost predicate PendingTracked(s: Sender, w: Wire) {
    forall id :: id in s.pending ==> id in w.sent && Keyed(s, s.pending[id], w.sent[id])
  }

  ghost predicate DialsTracked(s: Sender) {
    forall d :: d in s.dials ==> Keyed(s, d.key, d.parcel)
  }

  ghost predicate WireSound(w: Wire) {
    forall id :: id in w.responses ==> id in w.sent && (Terminal(w.responses[id]) ==> w.sent[id] in w.decided)
  }

  /** Every enqueued mutation is in the outbox or finished, and whatever is finished was decided by its receiver. */
  ghost predicate NothingLost(s: Sender, w: Wire) {
    && (forall o :: o in s.ledger ==> o in s.outbox || o in s.finished)
    && (forall o :: o in s.finished ==> o in s.ledger && s.ledger[o] in w.decided)
  }

  ghost predicate Inv(n: Net) {
    && OutboxTracked(n.sender) && PendingTracked(n.sender, n.wire) && DialsTracked(n.sender)
    && WireSound(n.wire) && NothingLost(n.sender, n.wire)
  }

  lemma {:induction false} ForgetKeeps(dials: seq<Waiting>, p: Peer)
    ensures forall d :: d in Forget(dials, p) ==> d in dials
  {
    if dials != [] { ForgetKeeps(dials[1..], p); }
  }

  lemma CommandKeepsInv(n: Net, parcel: Parcel, out: nat, id: nat)
    requires Inv(n) && Enabled(n, AtSender(Command(parcel, out, id)))
    ensures Inv(Do(n, AtSender(Command(parcel, out, id))))
  {
    var n' := Do(n, AtSender(Command(parcel, out, id)));
    assert forall key, x :: Keyed(n.sender, key, x) ==> Keyed(n'.sender, key, x);
    assert forall k :: k in n.wire.sent ==> n'.wire.sent[k] == n.wire.sent[k];
  }

  lemma SettleKeepsInv(n: Net, id: nat)
    requires Inv(n) && id in n.wire.responses
    ensures Inv(Do(n, AtSender(Respond(id))))
  {
    var n' := Do(n, AtSender(Respond(id)));
    assert n'.sender.ledger == n.sender.ledger;
    assert forall key, x :: Keyed(n.sender, key, x) ==> Keyed(n'.sender, key, x);
  }

  lemma SendKeepsInv(n: Net, id: nat, parcel: Parcel, key: Option<nat>, dials: seq<Waiting>)
    requires Inv(n) && id !in n.wire.sent && Keyed(n.sender, key, parcel)
    requires forall d :: d in dials ==> d in n.sender.dials
    ensures Inv(Net(n.sender.(pending := n.sender.pending[id := key], dials := dials),
                    SendWire(n.wire, id, parcel), n.nodes))
  {
    var s := n.sender.(pending := n.sender.pending[id := key], dials := dials);
    assert forall k, x :: Keyed(n.sender, k, x) <==> Keyed(s, k, x);
  }

  lemma SenderKeepsInv(n: Net, step: SenderStep)
    requires Inv(n) && Enabled(n, AtSender(step))
    ensures Inv(Do(n, AtSender(step)))
  {
    var s := n.sender;
    match step {
      case Command(parcel, out, id) => CommandKeepsInv(n, parcel, out, id);
      case FlushDial(k, id) =>
        assert s.dials[k] in s.dials;
        SendKeepsInv(n, id, s.dials[k].parcel, s.dials[k].key, s.dials[..k] + s.dials[k + 1..]);
      case Resend(out, id) => SendKeepsInv(n, id, s.outbox[out], Some(out), s.dials);
      case DialFailed(p) =>
        ForgetKeeps(s.dials, p);
        assert forall k, x :: Keyed(s, k, x) <==> Keyed(s.(dials := Forget(s.dials, p)), k, x);
      case Respond(id) => SettleKeepsInv(n, id);
      case _ =>
        var s' := DoSender(s, n.wire, step).0;
        assert forall k, x :: Keyed(s, k, x) <==> Keyed(s', k, x);
    }
  }

  lemma NodeKeepsInv(n: Net, step: NodeStep)
    requires Inv(n) && Enabled(n, AtNode(step))
    ensures Inv(Do(n, AtNode(step)))
  {
    var w' := NodeWire(n.wire, n.nodes, step);
    assert w'.sent == n.wire.sent && n.wire.decided <= w'.decided;
  }

  lemma {:induction false} RunKeepsInv(steps: seq<Step>)
    requires Legal(steps)
    ensures Inv(Run(steps))
  {
    if steps != [] {
      var front, step := steps[..|steps| - 1], steps[|steps| - 1];
      RunKeepsInv(front);
      match step {
        case AtSender(s) => SenderKeepsInv(Run(front), s);
        case AtNode(r) => NodeKeepsInv(Run(front), r);
      }
    }
  }

  /** Outbox safety: over every run of failures, reconnections, double sends and crashes, a mutation that was once
      enqueued is still in the outbox with the same peer and content, or its receiver has given it a terminal answer. */
  lemma EnqueuedIsKeptOrDecided(steps: seq<Step>, out: nat)
    requires Legal(steps) && out in Run(steps).sender.ledger
    ensures var s, w := Run(steps).sender, Run(steps).wire;
      (out in s.outbox && s.outbox[out] == s.ledger[out]) || (out in s.finished && s.ledger[out] in w.decided)
  {
    RunKeepsInv(steps);
  }

  // ---- At most one effect ----

  lemma ApplyRevision(store: Tickets, e: Event, t: string)
    requires t in store
    ensures t in Apply(store, e) && store[t].record.revision <= Apply(store, e)[t].record.revision
    ensures About(e, t) && e.payload.event.StatusChanged? && !Refuses(store, e) ==>
      Apply(store, e)[t].record.revision == store[t].record.revision + 1
  {
  }

  /** The ticket is beyond the revision. */
  predicate Past(store: Tickets, t: string, revision: nat) {
    t in store && revision < store[t].record.revision
  }

  /** The ticket has reached the revision. */
  predicate Reached(store: Tickets, t: string, revision: nat) {
    t in store && revision <= store[t].record.revision
  }

  /** Whatever was applied for an expected revision lies behind the ticket, once; and what is being handled has not
      been applied yet and is not ahead of the ticket. */
  ghost predicate Guarded(n: Nodes) {
    && (forall k :: n.applied[k] <= 1)
    && (forall p, t, r :: (p, t, r) in n.applied ==> Past(Store(n, p), t, r))
    && (forall p :: p in n.handling ==> Awaited(n, p, n.handling[p].m))
  }

  ghost predicate Awaited(n: Nodes, p: Peer, m: Mutation) {
    (p, m.ticket, m.expected) !in n.applied && Reached(Store(n, p), m.ticket, m.expected)
  }

  lemma AppendKeepsGuarded(n: Nodes, p: Peer, e: Event)
    requires Guarded(n)
    ensures Guarded(Appended(n, p, e))
  {
    var n' := Appended(n, p, e);
    forall q, t, r
      ensures Past(Store(n, q), t, r) ==> Past(Store(n', q), t, r)
      ensures Reached(Store(n, q), t, r) ==> Reached(Store(n', q), t, r)
    {
      if q == p && t in Store(n, p) { ApplyRevision(Store(n, p), e, t); }
    }
  }

  lemma CarryMovesPast(w: Wire, n: Nodes, p: Peer, e: Event)
    requires Guarded(n) && MayCarry(w, n, p, e) && Carries(n, p, e, true)
    ensures Guarded(Appended(n, p, e))
    ensures var m := n.handling[p].m; Past(Store(Appended(n, p, e), p), m.ticket, m.expected)
  {
    AppendKeepsGuarded(n, p, e);
    ApplyRevision(Store(n, p), e, n.handling[p].m.ticket);
  }

  lemma CountKeepsGuarded(n: Nodes, p: Peer)
    requires Guarded(n) && p in n.handling
    requires var m := n.handling[p].m; Past(Store(n, p), m.ticket, m.expected)
    ensures var m := n.handling[p].m;
      Guarded(n.(handling := n.handling - {p}, applied := n.applied + multiset{(p, m.ticket, m.expected)}))
  {
    var m := n.handling[p].m;
    var n' := n.(handling := n.handling - {p}, applied := n.applied + multiset{(p, m.ticket, m.expected)});
    assert Awaited(n, p, m);
    forall q | q in n'.handling ensures Awaited(n', q, n'.handling[q].m) {
      assert Awaited(n, q, n.handling[q].m);
    }
  }

  lemma CarryKeepsGuarded(w: Wire, n: Nodes, p: Peer, e: Event)
    requires Guarded(n) && MayCarry(w, n, p, e) && Carries(n, p, e, true)
    ensures Guarded(CarryOut(n, p, e, true))
  {
    CarryMovesPast(w, n, p, e);
    CountKeepsGuarded(Appended(n, p, e), p);
  }

  lemma CarryOutKeepsGuarded(w: Wire, n: Nodes, p: Peer, e: Event, inserted: bool)
    requires Guarded(n) && MayCarry(w, n, p, e)
    ensures Guarded(CarryOut(n, p, e, inserted))
  {
    if Carries(n, p, e, inserted) {
      CarryKeepsGuarded(w, n, p, e);
    } else {
      DropKeepsGuarded(n, p);
    }
  }

  lemma DropKeepsGuarded(n: Nodes, p: Peer)
    requires Guarded(n)
    ensures Guarded(n.(handling := n.handling - {p}))
  {
    var n' := n.(handling := n.handling - {p});
    forall q | q in n'.handling ensures Awaited(n', q, n'.handling[q].m) {
      assert Awaited(n, q, n.handling[q].m);
    }
  }

  lemma DeliverKeepsGuarded(w: Wire, n: Nodes, id: nat, a: Response)
    requires Guarded(n) && NodeEnabled(w, n, Deliver(id, a))
    ensures Guarded(DoNode(w, n, Deliver(id, a)))
  {
    var p := w.sent[id].peer;
    if w.sent[id].request.Signed? && Authorized(Store(n, p), p, w.sent[id].request.m) {
      var m := w.sent[id].request.m;
      assert !Past(Store(n, p), m.ticket, m.expected);
      assert Awaited(n, p, m);
    }
  }

  lemma PermitKeepsGuarded(w: Wire, n: Nodes, p: Peer)
    requires Guarded(n) && NodeEnabled(w, n, Permit(p))
    ensures Guarded(DoNode(w, n, Permit(p)))
  {
    assert Awaited(n, p, n.handling[p].m);
  }

  lemma NodeKeepsGuarded(w: Wire, n: Nodes, step: NodeStep)
    requires Guarded(n) && NodeEnabled(w, n, step)
    ensures Guarded(DoNode(w, n, step))
  {
    match step {
      case Carry(p, e, inserted) => CarryOutKeepsGuarded(w, n, p, e, inserted);
      case HaltAfterWrite(p, e, inserted) => CarryOutKeepsGuarded(w, n, p, e, inserted);
      case Halt(p) => DropKeepsGuarded(n, p);
      case Local(p, e) => AppendKeepsGuarded(n, p, e);
      case Deliver(id, a) => DeliverKeepsGuarded(w, n, id, a);
      case Permit(p) => PermitKeepsGuarded(w, n, p);
    }
  }

  lemma {:induction false} RunKeepsGuarded(steps: seq<Step>)
    requires Legal(steps)
    ensures Guarded(Run(steps).nodes)
  {
    if steps != [] {
      var front, step := steps[..|steps| - 1], steps[|steps| - 1];
      RunKeepsGuarded(front);
      if step.AtNode? { NodeKeepsGuarded(Run(front).wire, Run(front).nodes, step.r); }
    }
  }

  /** However often signed mutations are delivered, and wherever a receiver stops while it handles one, a receiver
      that ingests no foreign objects carries out at most one of them for each ticket and expected revision. */
  lemma AtMostOnePerRevision(steps: seq<Step>, p: Peer, t: string, revision: nat)
    requires Legal(steps)
    ensures Run(steps).nodes.applied[(p, t, revision)] <= 1
  {
    RunKeepsGuarded(steps);
  }

  // ---- Where a transition lands ----

  lemma RevisionDetectsUpdate(store: Tickets, e: Event, t: string)
    requires t in store
    ensures t in Apply(store, e)
    ensures Apply(store, e)[t] == store[t] || store[t].record.revision < Apply(store, e)[t].record.revision
  {
  }

  /** The ticket store of a receiver after the first `k` steps. */
  function StoreAt(steps: seq<Step>, k: nat, p: Peer): Tickets
    requires k <= |steps|
  {
    Store(Run(steps[..k]).nodes, p)
  }

  lemma RunPrefix(steps: seq<Step>, k: nat)
    requires k < |steps|
    ensures Run(steps[..k + 1]) == Do(Run(steps[..k]), steps[k])
    ensures Legal(steps[..k + 1]) ==> Legal(steps[..k]) && Enabled(Run(steps[..k]), steps[k])
  {
    assert steps[..k + 1][..k] == steps[..k];
  }

  lemma {:induction false} LegalPrefix(steps: seq<Step>, k: nat)
    requires Legal(steps) && k <= |steps|
    ensures Legal(steps[..k])
    decreases |steps|
  {
    if k == |steps| {
      assert steps[..k] == steps;
    } else {
      var front := steps[..|steps| - 1];
      LegalPrefix(front, k);
      assert front[..k] == steps[..k];
    }
  }

  lemma NodeStepStore(w: Wire, n: Nodes, step: NodeStep, p: Peer)
    ensures Store(DoNode(w, n, step), p) == Store(n, p)
      || exists e :: Store(DoNode(w, n, step), p) == Apply(Store(n, p), e)
  {
  }

  lemma StepDetectsChange(n: Net, step: Step, p: Peer, t: string)
    requires t in Store(n.nodes, p)
    ensures t in Store(Do(n, step).nodes, p)
    ensures var a, b := Store(n.nodes, p)[t], Store(Do(n, step).nodes, p)[t];
      a == b || a.record.revision < b.record.revision
  {
    if step.AtNode? {
      NodeStepStore(n.wire, n.nodes, step.r, p);
      var store, store' := Store(n.nodes, p), Store(Do(n, step).nodes, p);
      if store' != store {
        var e :| store' == Apply(store, e);
        RevisionDetectsUpdate(store, e, t);
      }
    }
  }

  lemma NextStore(steps: seq<Step>, k: nat, p: Peer, t: string)
    requires k < |steps| && t in StoreAt(steps, k, p)
    ensures t in StoreAt(steps, k + 1, p)
    ensures var a, b := StoreAt(steps, k, p)[t], StoreAt(steps, k + 1, p)[t];
      a == b || a.record.revision < b.record.revision
  {
    RunPrefix(steps, k);
    StepDetectsChange(Run(steps[..k]), steps[k], p, t);
  }

  /** The revision detects every change: between two points of a run it is the same exactly when the ticket is. */
  lemma {:induction false} RevisionDetectsChange(steps: seq<Step>, i: nat, j: nat, p: Peer, t: string)
    requires i <= j <= |steps| && t in StoreAt(steps, i, p)
    ensures t in StoreAt(steps, j, p)
    ensures var a, b := StoreAt(steps, i, p)[t], StoreAt(steps, j, p)[t];
      a.record.revision <= b.record.revision && (a.record.revision == b.record.revision <==> a == b)
    decreases j
  {
    if i < j {
      RevisionDetectsChange(steps, i, j - 1, p, t);
      NextStore(steps, j - 1, p, t);
    }
  }

  /** No step from `i` to `j` touched the ticket. */
  ghost predicate Untouched(steps: seq<Step>, i: nat, j: nat, p: Peer, t: string)
    requires i <= j <= |steps|
  {
    t in StoreAt(steps, i, p)
    && forall k :: i <= k <= j ==> t in StoreAt(steps, k, p) && StoreAt(steps, k, p)[t] == StoreAt(steps, i, p)[t]
  }

  lemma UntouchedIff(steps: seq<Step>, i: nat, j: nat, p: Peer, t: string)
    requires i <= j <= |steps| && t in StoreAt(steps, i, p)
    ensures t in StoreAt(steps, j, p)
    ensures Untouched(steps, i, j, p, t)
      <==> StoreAt(steps, j, p)[t].record.revision == StoreAt(steps, i, p)[t].record.revision
  {
    forall k | i <= k <= j
      ensures t in StoreAt(steps, k, p) && t in StoreAt(steps, j, p)
      ensures var a, b, c := StoreAt(steps, i, p)[t], StoreAt(steps, k, p)[t], StoreAt(steps, j, p)[t];
        a.record.revision <= b.record.revision <= c.record.revision && (a.record.revision == b.record.revision <==> a == b)
    {
      RevisionDetectsChange(steps, i, k, p, t);
      RevisionDetectsChange(steps, k, j, p, t);
    }
  }

  /** Step `i` delivers the mutation to the peer, which finds it in order. */
  ghost predicate Verifies(steps: seq<Step>, i: nat, p: Peer, m: Mutation)
    requires i < |steps|
  {
    && steps[i].AtNode? && steps[i].r.Deliver?
    && var id, sent := steps[i].r.id, Run(steps[..i]).wire.sent;
       id in sent && sent[id] == Parcel(p, Signed(m)) && Authorized(StoreAt(steps, i, p), p, m)
  }

  /** Step `j` carries the mutation out, whether or not the peer lives to answer. */
  ghost predicate CarriesOut(steps: seq<Step>, j: nat, p: Peer, m: Mutation)
    requires j < |steps|
  {
    && steps[j].AtNode? && (steps[j].r.Carry? || steps[j].r.HaltAfterWrite?) && steps[j].r.peer == p
    && p in Run(steps[..j]).nodes.handling && Run(steps[..j]).nodes.handling[p].m == m
    && Carries(Run(steps[..j]).nodes, p, steps[j].r.e, steps[j].r.inserted)
  }

  lemma CarryOutRevision(w: Wire, n: Nodes, p: Peer, e: Event, inserted: bool)
    requires MayCarry(w, n, p, e) && Carries(n, p, e, inserted) && n.handling[p].m.ticket in Store(n, p)
    ensures var t := n.handling[p].m.ticket;
      && t in Store(CarryOut(n, p, e, inserted), p)
      && Store(CarryOut(n, p, e, inserted), p)[t].record.revision == Store(n, p)[t].record.revision + 1
  {
    ApplyRevision(Store(n, p), e, n.handling[p].m.ticket);
    assert Store(CarryOut(n, p, e, inserted), p) == Apply(Store(n, p), e);
  }

  lemma CarriedAddsOne(steps: seq<Step>, j: nat, p: Peer, m: Mutation)
    requires Legal(steps) && j < |steps| && CarriesOut(steps, j, p, m) && m.ticket in StoreAt(steps, j, p)
    ensures m.ticket in StoreAt(steps, j + 1, p)
    ensures StoreAt(steps, j + 1, p)[m.ticket].record.revision == StoreAt(steps, j, p)[m.ticket].record.revision + 1
  {
    LegalPrefix(steps, j + 1);
    RunPrefix(steps, j);
    CarryOutRevision(Run(steps[..j]).wire, Run(steps[..j]).nodes, p, steps[j].r.e, steps[j].r.inserted);
  }

  /** A transition that was verified at one step of a run and carried out at a later one lands on the revision it was
      signed for exactly when no step in between touched the ticket: the revision is compared before the append, not
      during it. */
  lemma LandsAsSignedIff(steps: seq<Step>, i: nat, j: nat, p: Peer, m: Mutation)
    requires Legal(steps) && i < j < |steps| && Verifies(steps, i, p, m) && CarriesOut(steps, j, p, m)
    ensures m.ticket in StoreAt(steps, j + 1, p)
    ensures StoreAt(steps, j + 1, p)[m.ticket].record.revision == m.expected + 1
      <==> Untouched(steps, i, j, p, m.ticket)
  {
    UntouchedIff(steps, i, j, p, m.ticket);
    CarriedAddsOne(steps, j, p, m);
  }
}
