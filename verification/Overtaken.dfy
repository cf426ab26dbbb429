/** A run in which a signed transition is overtaken between its revision check and its append. */
module Overtaken {
  import opened Events
  import opened Reducer
  import opened ReducerLaws
  import opened Outbox

  lemma RunSnoc(steps: seq<Step>, x: Step)
    ensures Run(steps + [x]) == Do(Run(steps), x)
    ensures Legal(steps + [x]) <==> Legal(steps) && Enabled(Run(steps), x)
  {
    assert (steps + [x])[..|steps|] == steps;
  }

  /** The request is on its way to the peer, which is idle and will find the mutation in order. */
  ghost predicate Due(n: Net, id: nat, p: Peer, m: Mutation) {
    && id in n.wire.requests && id in n.wire.sent && n.wire.sent[id] == Parcel(p, Signed(m))
    && p !in n.nodes.handling && Authorized(Store(n.nodes, p), p, m)
    && Store(n.nodes, p)[m.ticket].record.state.CanTransitionTo(m.newState)
  }

  /** The peer has checked the mutation and is about to append its transition. */
  ghost predicate AtAppend(n: Net, id: nat, p: Peer, m: Mutation) {
    && id in n.wire.sent && p in n.nodes.handling && n.nodes.handling[p] == Permitted(id, m)
    && m.ticket in Store(n.nodes, p)
    && Store(n.nodes, p)[m.ticket].record.state.CanTransitionTo(m.newState)
  }

  lemma DeliverPasses(n: Net, id: nat, p: Peer, m: Mutation)
    requires Due(n, id, p, m)
    ensures Enabled(n, AtNode(Deliver(id, Applied)))
    ensures var n' := Do(n, AtNode(Deliver(id, Applied)));
      && n'.wire.sent == n.wire.sent && Store(n'.nodes, p) == Store(n.nodes, p)
      && p in n'.nodes.handling && n'.nodes.handling[p] == Verified(id, m)
  {
  }

  lemma PermitPasses(n: Net, id: nat, p: Peer, m: Mutation)
    requires id in n.wire.sent && p in n.nodes.handling && n.nodes.handling[p] == Verified(id, m)
    requires m.ticket in Store(n.nodes, p) && Store(n.nodes, p)[m.ticket].record.state.CanTransitionTo(m.newState)
    ensures Enabled(n, AtNode(Permit(p)))
    ensures var n' := Do(n, AtNode(Permit(p))); AtAppend(n', id, p, m) && Store(n'.nodes, p) == Store(n.nodes, p)
  {
  }

  lemma OneMessage(store: Tickets, e: Event, t: string)
    requires t in store && Says(e, t) && e.payload.event.messageId !in Observed(store, t).messages
    ensures t in Apply(store, e) && Apply(store, e)[t].record.revision == store[t].record.revision + 1
    ensures Apply(store, e)[t].record.state == store[t].record.state
  {
  }

  lemma MessageOvertakes(n: Net, id: nat, p: Peer, m: Mutation, local: Event)
    requires AtAppend(n, id, p, m) && Says(local, m.ticket)
    requires local.payload.event.messageId !in Observed(Store(n.nodes, p), m.ticket).messages
    ensures var n' := Do(n, AtNode(Local(p, local)));
      && AtAppend(n', id, p, m)
      && Store(n'.nodes, p)[m.ticket].record.revision == Store(n.nodes, p)[m.ticket].record.revision + 1
  {
    OneMessage(Store(n.nodes, p), local, m.ticket);
    assert Store(Appended(n.nodes, p, local), p) == Apply(Store(n.nodes, p), local);
  }

  lemma CarryIsApplied(n: Net, id: nat, p: Peer, m: Mutation, e: Event)
    requires AtAppend(n, id, p, m)
    requires About(e, m.ticket) && e.payload.event.StatusChanged? && e.payload.event.newState == m.newState
    ensures Enabled(n, AtNode(Carry(p, e, true)))
    ensures var n' := Do(n, AtNode(Carry(p, e, true)));
      && id in n'.wire.responses && n'.wire.responses[id] == Applied
      && m.ticket in Store(n'.nodes, p)
      && Store(n'.nodes, p)[m.ticket].record.revision == Store(n.nodes, p)[m.ticket].record.revision + 1
  {
    ApplyRevision(Store(n.nodes, p), e, m.ticket);
    assert Store(CarryOut(n.nodes, p, e, true), p) == Apply(Store(n.nodes, p), e);
  }

  /** The steps from the delivery to the answer, with one message in between. */
  function Overtaking(id: nat, p: Peer, local: Event, e: Event): seq<Step> {
    [AtNode(Deliver(id, Applied)), AtNode(Permit(p)), AtNode(Local(p, local)), AtNode(Carry(p, e, true))]
  }

  lemma FourMore(steps: seq<Step>, a: Step, b: Step, c: Step, d: Step)
    ensures steps + [a, b, c, d] == steps + [a] + [b] + [c] + [d]
  {
  }

  /** Whenever an authorized mutation is about to be delivered, a message that the receiver appends in between goes
      unnoticed: the transition is answered as applied, two revisions after the one it was signed for. */
  lemma OvertakenMutationLands(steps: seq<Step>, id: nat, p: Peer, m: Mutation, local: Event, e: Event)
    requires Legal(steps) && Due(Run(steps), id, p, m) && Says(local, m.ticket)
    requires local.payload.event.messageId !in Observed(Store(Run(steps).nodes, p), m.ticket).messages
    requires About(e, m.ticket) && e.payload.event.StatusChanged? && e.payload.event.newState == m.newState
    ensures var all := steps + Overtaking(id, p, local, e);
      && Legal(all) && id in Run(all).wire.responses && Run(all).wire.responses[id] == Applied
      && m.ticket in Store(Run(all).nodes, p)
      && Store(Run(all).nodes, p)[m.ticket].record.revision == m.expected + 2
  {
    var a, b := AtNode(Deliver(id, Applied)), AtNode(Permit(p));
    var c, d := AtNode(Local(p, local)), AtNode(Carry(p, e, true));
    FourMore(steps, a, b, c, d);
    RunSnoc(steps, a);
    DeliverPasses(Run(steps), id, p, m);
    RunSnoc(steps + [a], b);
    PermitPasses(Run(steps + [a]), id, p, m);
    RunSnoc(steps + [a] + [b], c);
    MessageOvertakes(Run(steps + [a] + [b]), id, p, m, local);
    RunSnoc(steps + [a] + [b] + [c], d);
    CarryIsApplied(Run(steps + [a] + [b] + [c]), id, p, m, e);
  }

  // ---- Such a point is reached ----

  /** A ticket is created at the peer, and a transition signed for its first revision is sent there. */
  function Opening(p: Peer, c: Event, m: Mutation): seq<Step> {
    [] + [AtSender(Connect(p))] + [AtNode(Local(p, c))] + [AtSender(Command(Parcel(p, Signed(m)), 0, 0))]
  }

  lemma CreatedAt(c: Event, t: string)
    requires Creates(c, t)
    ensures t in Apply(map[], c) && Apply(map[], c)[t] == Opened(c, c.payload.event)
  {
  }

  lemma OpeningIsDue(p: Peer, c: Event, m: Mutation)
    requires Creates(c, m.ticket) && c.payload.event.clientPeerId == p && m.genuine && m.expected == 1
    ensures Legal(Opening(p, c, m)) && Due(Run(Opening(p, c, m)), 0, p, m)
    ensures Observed(Store(Run(Opening(p, c, m)).nodes, p), m.ticket).messages == {}
  {
    var a, b, x := AtSender(Connect(p)), AtNode(Local(p, c)), AtSender(Command(Parcel(p, Signed(m)), 0, 0));
    RunSnoc([], a);
    RunSnoc([] + [a], b);
    RunSnoc([] + [a] + [b], x);
    CreatedAt(c, m.ticket);
    assert Store(Run([] + [a] + [b]).nodes, p) == Apply(map[], c);
  }

  /** A legal run from nothing in which a transition signed for revision 1 is applied as revision 3. */
  lemma OvertakenRun(p: Peer, c: Event, m: Mutation, local: Event, e: Event) returns (steps: seq<Step>)
    requires Creates(c, m.ticket) && c.payload.event.clientPeerId == p && m.genuine && m.expected == 1
    requires Says(local, m.ticket)
    requires About(e, m.ticket) && e.payload.event.StatusChanged? && e.payload.event.newState == m.newState
    ensures Legal(steps) && 0 in Run(steps).wire.responses && Run(steps).wire.responses[0] == Applied
    ensures m.ticket in Store(Run(steps).nodes, p) && Store(Run(steps).nodes, p)[m.ticket].record.revision == 3
  {
    OpeningIsDue(p, c, m);
    OvertakenMutationLands(Opening(p, c, m), 0, p, m, local, e);
    steps := Opening(p, c, m) + Overtaking(0, p, local, e);
  }
}
