/** Exact contents of a reduced ticket: its revision, its identity and its message list. */
module ReducerAccounts {
  import opened Events
  import opened Sorting
  import opened Reducer
  import opened ReducerLaws

  // ---- Bookkeeping of one ticket ----

  ghost predicate DistinctSessions(xs: seq<ShellSession>) {
    forall i, j :: 0 <= i < j < |xs| ==> xs[i].id != xs[j].id
  }

  /** `closedAt` is set exactly when the ticket is closed, and no id is listed twice. */
  ghost predicate WellKept(a: Aggregate, t: string) {
    && a.record.id == t
    && (a.record.closedAt.Some? <==> a.record.state.Closed?)
    && (forall i, j :: 0 <= i < j < |a.messages| ==> a.messages[i].id != a.messages[j].id)
    && (forall i, j :: 0 <= i < j < |a.attachments| ==> a.attachments[i].id != a.attachments[j].id)
    && DistinctSessions(a.sessions)
  }

  function Entries(a: Aggregate): nat {
    |a.audit| + |a.messages| + |a.attachments| + |a.sessions|
  }

  lemma UpdateWellKept(a: Aggregate, e: Event, t: string)
    requires About(e, t) && !e.payload.event.Created? && WellKept(a, t)
    ensures WellKept(Update(a, e, e.payload.event), t)
  {
    match e.payload.event {
      case ShellSessionEnded(_, id, at, result) => EndSessionKeepsIds(a.sessions, id, at, result);
      case _ =>
    }
  }

  /** The revision counts the entries, and the ends of sessions that leave no entry of their own. */
  lemma UpdateCounts(a: Aggregate, e: Event, t: string)
    requires About(e, t) && !e.payload.event.Created?
    ensures var b := Update(a, e, e.payload.event);
      b.record.revision - Entries(b) == a.record.revision - Entries(a)
        + if Ends(e, t) && e.payload.event.sessionId in SessionIds(a.sessions) then 1 else 0
  {
    match e.payload.event {
      case ShellSessionEnded(_, id, at, result) => EndSessionKeepsIds(a.sessions, id, at, result);
      case _ =>
    }
  }

  /** The ticket, if it exists, balances with `ends` effective session ends. */
  ghost predicate Balanced(store: Tickets, t: string, ends: nat) {
    if t in store
    then WellKept(store[t], t) && store[t].record.revision == Entries(store[t]) + ends
    else ends == 0
  }

  /** The event ends a session the ticket has. */
  ghost predicate EndsOne(store: Tickets, e: Event, t: string) {
    Ends(e, t) && e.payload.event.sessionId in Observed(store, t).sessions
  }

  lemma ApplyKeepsBalance(store: Tickets, e: Event, t: string, ends: nat)
    requires Balanced(store, t, ends)
    ensures Balanced(Apply(store, e), t, ends + if EndsOne(store, e, t) then 1 else 0)
  {
    if t in store && About(e, t) && !e.payload.event.Created? {
      UpdateWellKept(store[t], e, t);
      UpdateCounts(store[t], e, t);
    }
  }

  lemma EndsCount(s: set<Event>, s0: set<Event>, m: Event, t: string)
    requires Splits(s, s0, m) && DistinctIds(s0)
    ensures |EffectiveEnds(s, t)| == |EffectiveEnds(s0, t)| + if EndsOne(State(s0), m, t) then 1 else 0
  {
    StateIsDeclared(s0, t);
    EndsSplit(s, s0, m, t);
  }

  /** Accounting: for every set of events and ticket, the revision is the number of audit entries, messages,
      attachments, shell sessions and effective session ends. */
  lemma {:induction false} Accounts(s: set<Event>, t: string)
    requires DistinctIds(s)
    ensures Balanced(State(s), t, |EffectiveEnds(s, t)|)
    decreases |s|
  {
    if s == {} {
      assert EffectiveEnds(s, t) == {};
    } else {
      var s0, m := LatestSplits(s);
      Accounts(s0, t);
      EndsCount(s, s0, m, t);
      ApplyKeepsBalance(State(s0), m, t, |EffectiveEnds(s0, t)|);
    }
  }

  // ---- Identity ----

  /** The first creation of the ticket in sort order. */
  ghost predicate FirstCreation(s: set<Event>, t: string, c: Event) {
    c in s && Creates(c, t) && forall d :: d in s && Creates(d, t) && d != c ==> Before(c, d)
  }

  predicate SameIdentity(a: TicketRecord, b: TicketRecord) {
    && a.id == b.id && a.title == b.title && a.description == b.description
    && a.priority == b.priority && a.clientPeerId == b.clientPeerId && a.createdAt == b.createdAt
  }

  lemma ApplyKeepsIdentity(store: Tickets, e: Event, t: string)
    requires t in store
    ensures t in Apply(store, e) && SameIdentity(Apply(store, e)[t].record, store[t].record)
  {
  }

  /** Title, description, priority, owner and creation time come from the first creation, whatever
      duplicates of it were merged in. */
  lemma {:induction false} IdentityIsFirstCreation(s: set<Event>, t: string) returns (c: Event)
    requires DistinctIds(s) && t in State(s)
    ensures FirstCreation(s, t, c) && SameIdentity(State(s)[t].record, Opened(c, c.payload.event).record)
    decreases |s|
  {
    var s0, m := LatestSplits(s);
    StateIsDeclared(s0, t);
    if t in State(s0) {
      c := IdentityIsFirstCreation(s0, t);
      ApplyKeepsIdentity(State(s0), m, t);
      FirstStaysFirst(s, s0, m, t, c);
    } else {
      c := m;
      ApplyCreates(State(s0), m, t);
      assert forall d :: d in s0 ==> !Creates(d, t);
    }
  }

  lemma FirstStaysFirst(s: set<Event>, s0: set<Event>, m: Event, t: string, c: Event)
    requires Splits(s, s0, m) && FirstCreation(s0, t, c)
    ensures FirstCreation(s, t, c)
  {
    assert Before(c, m);
  }

  lemma ApplyCreates(store: Tickets, e: Event, t: string)
    requires t !in store && t in Apply(store, e)
    ensures Creates(e, t) && Apply(store, e)[t] == Opened(e, e.payload.event)
  {
  }

  // ---- The message list ----

  /** The effective message events, each id represented by its earliest copy. */
  ghost function FirstCopies(s: set<Event>, t: string): set<Event> {
    set d | d in s && Says(d, t) && Follows(s, t, d) && !RepeatedBefore(s, t, d)
  }

  ghost predicate RepeatedBefore(s: set<Event>, t: string, d: Event)
    requires Says(d, t)
  {
    exists b :: b in s && Says(b, t) && Follows(s, t, b) && Before(b, d)
             && b.payload.event.messageId == d.payload.event.messageId
  }

  function MessageOf(e: Event, t: string): ChatMessage
    requires Says(e, t)
  {
    var te := e.payload.event;
    ChatMessage(te.messageId, t, te.senderPeerId, te.body, te.at, "DELIVERED")
  }

  function Transcript(log: seq<Event>, t: string): seq<ChatMessage>
    requires forall e :: e in log ==> Says(e, t)
  {
    if log == [] then [] else
      Transcript(log[..|log| - 1], t) + [MessageOf(log[|log| - 1], t)]
  }

  lemma FirstCopiesSplit(s: set<Event>, s0: set<Event>, m: Event, t: string)
    requires Splits(s, s0, m)
    ensures FirstCopies(s, t) == FirstCopies(s0, t)
      + if Says(m, t) && Exists(s0, t) && m.payload.event.messageId !in Messages(s0, t) then {m} else {}
  {
    forall d | d in s && Says(d, t)
      ensures Follows(s, t, d) <==> if d == m then Exists(s0, t) else Follows(s0, t, d)
      ensures RepeatedBefore(s, t, d)
        <==> if d == m then m.payload.event.messageId in Messages(s0, t) else RepeatedBefore(s0, t, d)
    {
      FollowsSplit(s, s0, m, t, d);
      forall b | b in s { FollowsSplit(s, s0, m, t, b); }
    }
  }

  lemma TranscriptSnoc(log: seq<Event>, e: Event, t: string)
    requires Says(e, t) && forall x :: x in log ==> Says(x, t)
    ensures Transcript(log + [e], t) == Transcript(log, t) + [MessageOf(e, t)]
  {
    assert (log + [e])[..|log|] == log;
  }

  lemma TranscriptAppend(copies: set<Event>, m: Event, t: string)
    requires DistinctIds(copies + {m}) && m !in copies && Says(m, t)
    requires forall x :: x in copies ==> Before(x, m) && Says(x, t)
    ensures Transcript(Sorted(copies + {m}), t) == Transcript(Sorted(copies), t) + [MessageOf(m, t)]
  {
    SortedAppend(copies, m);
    TranscriptSnoc(Sorted(copies), m, t);
  }

  /** The transcript of a set of message events. */
  ghost function TranscriptOf(copies: set<Event>, t: string): seq<ChatMessage>
    requires DistinctIds(copies) && forall x :: x in copies ==> Says(x, t)
  {
    Transcript(Sorted(copies), t)
  }

  lemma TranscriptSplit(s: set<Event>, s0: set<Event>, m: Event, t: string)
    requires Splits(s, s0, m) && DistinctIds(s) && Exists(s0, t)
    ensures TranscriptOf(FirstCopies(s, t), t) == TranscriptOf(FirstCopies(s0, t), t)
      + if Says(m, t) && m.payload.event.messageId !in Messages(s0, t) then [MessageOf(m, t)] else []
  {
    var before, after := FirstCopies(s0, t), FirstCopies(s, t);
    FirstCopiesSplit(s, s0, m, t);
    if Says(m, t) && m.payload.event.messageId !in Messages(s0, t) {
      assert after == before + {m};
      TranscriptAppend(before, m, t);
    } else {
      assert after == before;
    }
  }

  /** The messages of a ticket, none when it does not exist. */
  function MessagesIn(store: Tickets, t: string): seq<ChatMessage> {
    if t in store then store[t].messages else []
  }

  lemma ApplyMessages(store: Tickets, e: Event, t: string)
    ensures MessagesIn(Apply(store, e), t) == MessagesIn(store, t)
      + if Says(e, t) && t in store && e.payload.event.messageId !in Observed(store, t).messages
        then [MessageOf(e, t)] else []
  {
  }

  /** The message list of a ticket is exactly the first copies of its effective messages, in sort order. */
  lemma {:induction false} MessageListIsTranscript(s: set<Event>, t: string)
    requires DistinctIds(s)
    ensures MessagesIn(State(s), t) == TranscriptOf(FirstCopies(s, t), t)
    decreases |s|
  {
    if s == {} {
      assert FirstCopies(s, t) == {};
    } else {
      var s0, m := LatestSplits(s);
      MessageListIsTranscript(s0, t);
      StateIsDeclared(s0, t);
      ApplyMessages(State(s0), m, t);
      if Exists(s0, t) {
        TranscriptSplit(s, s0, m, t);
      } else {
        FirstCopiesSplit(s, s0, m, t);
      }
    }
  }
}
