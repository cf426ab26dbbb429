/** The deterministic fold of sorted events into ticket state. */
module Reducer {
  import opened Events
  import opened Sorting
  import opened CausalGraph
  import opened EventGraphs
  import opened Wrappers

  datatype TicketRecord = TicketRecord(
    id: string, title: string, description: string, state: TicketState, priority: TicketPriority,
    clientPeerId: string, revision: nat, createdAt: U64, updatedAt: U64, closedAt: Option<U64>)

  datatype ChatMessage = ChatMessage(
    id: string, ticketId: string, senderPeerId: string, body: string, createdAt: U64, deliveryState: string)

  datatype Attachment = Attachment(
    id: string, ticketId: string, senderPeerId: string, filename: string, sizeBytes: U64, sha256: string,
    localPath: string, createdAt: U64, state: string)

  datatype ShellSession = ShellSession(
    id: string, ticketId: string, operatorPeerId: string, startedAt: U64, endedAt: Option<U64>,
    transport: string, result: Option<string>)

  datatype AuditEntry = AuditEntry(
    id: string, ticketId: string, kind: string, actorPeerId: string, timestamp: U64, metadata: Option<string>)

  datatype Aggregate = Aggregate(
    record: TicketRecord, messages: seq<ChatMessage>, attachments: seq<Attachment>,
    sessions: seq<ShellSession>, audit: seq<AuditEntry>)

  type Tickets = map<string, Aggregate>

  function HexDigits(v: nat, digits: nat): string {
    if digits == 0 then "" else HexDigits(v / 16, digits - 1) + ["0123456789abcdef"[v % 16]]
  }

  function ToHex(id: ObjectId): string {
    HexDigits(id, 64)
  }

  function Opened(e: Event, te: TicketEvent): Aggregate
    requires te.Created?
  {
    Aggregate(
      TicketRecord(te.ticketId, te.title, te.description, Open, te.priority, te.clientPeerId, 1,
                   e.timestamp, e.timestamp, None),
      [], [], [],
      [AuditEntry(ToHex(e.id), te.ticketId, "CREATED", e.author, e.timestamp, None)])
  }

  /** Every effective change raises the revision and moves `updatedAt`. */
  function Touch(r: TicketRecord, e: Event): TicketRecord {
    r.(revision := r.revision + 1, updatedAt := e.timestamp)
  }

  function EndSession(sessions: seq<ShellSession>, id: string, at: U64, result: Option<string>)
    : (r: seq<ShellSession>)
  {
    if sessions == [] then []
    else if sessions[0].id == id then [sessions[0].(endedAt := Some(at), result := result)] + sessions[1..]
    else [sessions[0]] + EndSession(sessions[1..], id, at, result)
  }

  /** The effect of an event on the ticket it belongs to, once that ticket exists. */
  function Update(a: Aggregate, e: Event, te: TicketEvent): Aggregate
    requires !te.Created?
  {
    match te
    case StatusChanged(t, next, _, reason) =>
      if !a.record.state.CanTransitionTo(next) then a else
        var record := Touch(a.record, e).(state := next);
        a.(record := if next.Closed? then record.(closedAt := Some(e.timestamp)) else record,
           audit := a.audit + [AuditEntry(ToHex(e.id), t, "STATUS_CHANGED_TO_" + next.AsString(),
                                          e.author, e.timestamp, reason)])
    case ChatMessageAdded(t, id, sender, body, at) =>
      if exists m :: m in a.messages && m.id == id then a else
        a.(record := Touch(a.record, e),
           messages := a.messages + [ChatMessage(id, t, sender, body, at, "DELIVERED")])
    case AttachmentAdded(t, id, sender, filename, size, sha256, path, at) =>
      if exists m :: m in a.attachments && m.id == id then a else
        a.(record := Touch(a.record, e),
           attachments := a.attachments
             + [Attachment(id, t, sender, filename, size, sha256, path, at, "AVAILABLE")])
    case ShellSessionStarted(t, id, operator, transport, at) =>
      if exists m :: m in a.sessions && m.id == id then a else
        a.(record := Touch(a.record, e),
           sessions := a.sessions + [ShellSession(id, t, operator, at, None, transport, None)])
    case ShellSessionEnded(_, id, at, result) =>
      if !(exists m :: m in a.sessions && m.id == id) then a else
        a.(record := Touch(a.record, e), sessions := EndSession(a.sessions, id, at, result))
    case CustomAudit(t, id, kind, actor, metadata, at) =>
      if exists m :: m in a.audit && m.id == id then a else
        a.(record := Touch(a.record, e),
           audit := a.audit + [AuditEntry(id, t, kind, actor, at, metadata)])
  }

  /** The store after one event; a refused event leaves it as it was. */
  function Apply(store: Tickets, e: Event): Tickets {
    match e.payload
    case Custom(_, _) => store
    case Ticket(te) =>
      if te.Created? then
        if te.ticketId in store then store else store[te.ticketId := Opened(e, te)]
      else if te.ticketId in store then store[te.ticketId := Update(store[te.ticketId], e, te)]
      else store
  }

  /** The events for which `apply_event` reports an error. */
  predicate Refuses(store: Tickets, e: Event) {
    && e.payload.Ticket?
    && var te := e.payload.event;
       if te.Created? then te.ticketId in store
       else te.ticketId !in store
            || (te.StatusChanged? && !store[te.ticketId].record.state.CanTransitionTo(te.newState))
  }

  function Fold(log: seq<Event>): Tickets {
    if log == [] then map[] else Apply(Fold(log[..|log| - 1]), log[|log| - 1])
  }

  /** The reduced state of a set of events. */
  ghost function State(s: set<Event>): Tickets
    requires DistinctIds(s)
  {
    Fold(Sorted(s))
  }

  lemma StateAppend(s: set<Event>, e: Event)
    requires DistinctIds(s + {e}) && e !in s && forall x :: x in s ==> Before(x, e)
    ensures State(s + {e}) == Apply(State(s), e)
  {
    SortedAppend(s, e);
    FoldSnoc(Sorted(s), e);
  }

  lemma FoldSnoc(log: seq<Event>, e: Event)
    ensures Fold(log + [e]) == Apply(Fold(log), e)
  {
    assert (log + [e])[..|log|] == log;
  }

  class TicketStateStore {
    var tickets: Tickets

    constructor ()
      ensures tickets == map[]
    {
      tickets := map[];
    }

    /** Applies one event in place and reports whether it was accepted. */
    method ApplyEvent(e: Event) returns (ok: bool)
      modifies this
      ensures ok == !Refuses(old(tickets), e)
      ensures tickets == Apply(old(tickets), e)
    {
      if e.payload.Custom? {
        return true;
      }
      var te := e.payload.event;
      if te.Created? {
        if te.ticketId in tickets {
          return false;
        }
        tickets := tickets[te.ticketId := Opened(e, te)];
        return true;
      }
      if te.ticketId !in tickets {
        return false;
      }
      var agg := tickets[te.ticketId];
      match te {
        case StatusChanged(t, next, _, reason) =>
          if !agg.record.state.CanTransitionTo(next) {
            assert tickets[te.ticketId := agg] == tickets;
            return false;
          }
          agg := agg.(record := agg.record.(state := next));
          agg := agg.(record := agg.record.(revision := agg.record.revision + 1));
          agg := agg.(record := agg.record.(updatedAt := e.timestamp));
          if next == Closed {
            agg := agg.(record := agg.record.(closedAt := Some(e.timestamp)));
          }
          agg := agg.(audit := agg.audit + [AuditEntry(ToHex(e.id), t, "STATUS_CHANGED_TO_" + next.AsString(),
                                                       e.author, e.timestamp, reason)]);
        case ChatMessageAdded(t, id, sender, body, at) =>
          if !exists m :: m in agg.messages && m.id == id {
            agg := agg.(messages := agg.messages + [ChatMessage(id, t, sender, body, at, "DELIVERED")],
                        record := Touch(agg.record, e));
          }
        case AttachmentAdded(t, id, sender, filename, size, sha256, path, at) =>
          if !exists m :: m in agg.attachments && m.id == id {
            agg := agg.(attachments := agg.attachments
                          + [Attachment(id, t, sender, filename, size, sha256, path, at, "AVAILABLE")],
                        record := Touch(agg.record, e));
          }
        case ShellSessionStarted(t, id, operator, transport, at) =>
          if !exists m :: m in agg.sessions && m.id == id {
            agg := agg.(sessions := agg.sessions + [ShellSession(id, t, operator, at, None, transport, None)],
                        record := Touch(agg.record, e));
          }
        case ShellSessionEnded(_, id, at, result) =>
          var i := FindSession(agg.sessions, id);
          if i < |agg.sessions| {
            EndSessionAt(agg.sessions, i, id, at, result);
            agg := agg.(sessions := agg.sessions[i := agg.sessions[i].(endedAt := Some(at), result := result)],
                        record := Touch(agg.record, e));
          }
        case CustomAudit(t, id, kind, actor, metadata, at) =>
          if !exists m :: m in agg.audit && m.id == id {
            agg := agg.(audit := agg.audit + [AuditEntry(id, t, kind, actor, at, metadata)],
                        record := Touch(agg.record, e));
          }
      }
      tickets := tickets[te.ticketId := agg];
      ok := true;
    }
  }

  /** The first session with the id, or the length of the list. */
  method FindSession(sessions: seq<ShellSession>, id: string) returns (i: nat)
    ensures i <= |sessions| && forall j :: 0 <= j < i ==> sessions[j].id != id
    ensures i < |sessions| ==> sessions[i].id == id
    ensures i < |sessions| <==> exists m :: m in sessions && m.id == id
  {
    i := 0;
    while i < |sessions| && sessions[i].id != id
      invariant i <= |sessions| && forall j :: 0 <= j < i ==> sessions[j].id != id
    {
      i := i + 1;
    }
  }

  /** Ending a session is the update of its first occurrence. */
  lemma {:induction false} EndSessionAt(sessions: seq<ShellSession>, i: nat, id: string, at: U64,
                                        result: Option<string>)
    requires i < |sessions| && sessions[i].id == id && forall j :: 0 <= j < i ==> sessions[j].id != id
    ensures EndSession(sessions, id, at, result)
         == sessions[i := sessions[i].(endedAt := Some(at), result := result)]
  {
    if i > 0 {
      EndSessionAt(sessions[1..], i - 1, id, at, result);
    }
  }

  method Replay(order: seq<Event>) returns (store: TicketStateStore)
    ensures fresh(store) && store.tickets == Fold(order)
  {
    store := new TicketStateStore();
    for i := 0 to |order|
      invariant fresh(store) && store.tickets == Fold(order[..i])
    {
      FoldSnoc(order[..i], order[i]);
      assert order[..i] + [order[i]] == order[..i + 1];
      var _ := store.ApplyEvent(order[i]);
    }
    assert order[..|order|] == order;
  }

  /** The whole graph, folded in its topological order, errors ignored. */
  method Reduce(graph: EventGraph) returns (store: TicketStateStore)
    requires Valid(graph.Value()) && Causal(graph.Value())
    ensures fresh(store)
    ensures DistinctIds(EventSet(graph.Value())) && store.tickets == State(EventSet(graph.Value()))
  {
    var order := graph.TopologicalSort();
    store := Replay(order);
  }
}
