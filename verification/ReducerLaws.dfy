/** What the reduced state says about a set of events, without replaying them. */
module ReducerLaws {
  import opened Events
  import opened Sorting
  import opened Reducer
  import opened Wrappers

  // ---- Facts about a set of events, in terms of membership and order only ----

  predicate About(e: Event, t: string) {
    e.payload.Ticket? && e.payload.event.ticketId == t
  }

  predicate Creates(e: Event, t: string) {
    About(e, t) && e.payload.event.Created?
  }

  predicate Closes(e: Event, t: string) {
    About(e, t) && e.payload.event.StatusChanged? && e.payload.event.newState.Closed?
  }

  predicate Says(e: Event, t: string) {
    About(e, t) && e.payload.event.ChatMessageAdded?
  }

  predicate Attaches(e: Event, t: string) {
    About(e, t) && e.payload.event.AttachmentAdded?
  }

  predicate Starts(e: Event, t: string) {
    About(e, t) && e.payload.event.ShellSessionStarted?
  }

  predicate Ends(e: Event, t: string) {
    About(e, t) && e.payload.event.ShellSessionEnded?
  }

  ghost predicate Exists(s: set<Event>, t: string) {
    exists c :: c in s && Creates(c, t)
  }

  /** The ticket has been created before `d`. */
  ghost predicate Follows(s: set<Event>, t: string, d: Event) {
    exists c :: c in s && Creates(c, t) && Before(c, d)
  }

  ghost predicate IsClosed(s: set<Event>, t: string) {
    exists d :: d in s && Closes(d, t) && Follows(s, t, d)
  }

  ghost function Messages(s: set<Event>, t: string): set<string> {
    set d | d in s && Says(d, t) && Follows(s, t, d) :: d.payload.event.messageId
  }

  ghost function Attachments(s: set<Event>, t: string): set<string> {
    set d | d in s && Attaches(d, t) && Follows(s, t, d) :: d.payload.event.attachmentId
  }

  ghost function Sessions(s: set<Event>, t: string): set<string> {
    set d | d in s && Starts(d, t) && Follows(s, t, d) :: d.payload.event.sessionId
  }

  /** The session `d` names has been started, on an existing ticket, before `d`. */
  ghost predicate Started(s: set<Event>, t: string, d: Event)
    requires Ends(d, t)
  {
    exists b :: b in s && Starts(b, t) && Follows(s, t, b) && Before(b, d)
             && b.payload.event.sessionId == d.payload.event.sessionId
  }

  /** The end events that had a session to end. */
  ghost function EffectiveEnds(s: set<Event>, t: string): set<Event> {
    set d | d in s && Ends(d, t) && Started(s, t, d)
  }

  ghost function Ended(s: set<Event>, t: string): set<string> {
    set d | d in EffectiveEnds(s, t) :: d.payload.event.sessionId
  }

  /** What can be observed of one ticket and never goes away again. */
  datatype View = View(present: bool, closed: bool, messages: set<string>, attachments: set<string>,
                       sessions: set<string>, ended: set<string>)

  ghost function Declared(s: set<Event>, t: string): View {
    View(Exists(s, t), IsClosed(s, t), Messages(s, t), Attachments(s, t), Sessions(s, t), Ended(s, t))
  }

  ghost function Observed(store: Tickets, t: string): View {
    if t in store then ViewOf(store[t]) else View(false, false, {}, {}, {}, {})
  }

  ghost function ViewOf(a: Aggregate): View {
    View(true, a.record.state.Closed?, set m | m in a.messages :: m.id, set m | m in a.attachments :: m.id,
         SessionIds(a.sessions), EndedIds(a.sessions))
  }

  ghost function SessionIds(sessions: seq<ShellSession>): set<string> {
    set x | x in sessions :: x.id
  }

  ghost function EndedIds(sessions: seq<ShellSession>): set<string> {
    set x | x in sessions && x.endedAt.Some? :: x.id
  }

  /** How one event moves the view of ticket `t`. */
  ghost function Step(v: View, e: Event, t: string): View {
    if !About(e, t) then v else
      match e.payload.event
      case Created(_, _, _, _, _) => v.(present := true)
      case StatusChanged(_, next, _, _) => if v.present && next.Closed? then v.(closed := true) else v
      case ChatMessageAdded(_, id, _, _, _) => if v.present then v.(messages := v.messages + {id}) else v
      case AttachmentAdded(_, id, _, _, _, _, _, _) =>
        if v.present then v.(attachments := v.attachments + {id}) else v
      case ShellSessionStarted(_, id, _, _, _) => if v.present then v.(sessions := v.sessions + {id}) else v
      case ShellSessionEnded(_, id, _, _) => if id in v.sessions then v.(ended := v.ended + {id}) else v
      case CustomAudit(_, _, _, _, _, _) => v
  }

  // ---- The reducer moves views by Step ----

  lemma ConsViews(x: ShellSession, rest: seq<ShellSession>)
    ensures SessionIds([x] + rest) == {x.id} + SessionIds(rest)
    ensures EndedIds([x] + rest) == (if x.endedAt.Some? then {x.id} else {}) + EndedIds(rest)
  {
    var all := [x] + rest;
    assert forall y :: y in all <==> y == x || y in rest;
  }

  lemma {:induction false} EndSessionKeepsIds(sessions: seq<ShellSession>, id: string, at: U64, result: Option<string>)
    ensures |EndSession(sessions, id, at, result)| == |sessions|
    ensures forall i :: 0 <= i < |sessions| ==> EndSession(sessions, id, at, result)[i].id == sessions[i].id
  {
    if sessions != [] && sessions[0].id != id { EndSessionKeepsIds(sessions[1..], id, at, result); }
  }

  lemma {:induction false} EndSessionViews(sessions: seq<ShellSession>, id: string, at: U64, result: Option<string>)
    ensures SessionIds(EndSession(sessions, id, at, result)) == SessionIds(sessions)
    ensures EndedIds(EndSession(sessions, id, at, result))
         == EndedIds(sessions) + if id in SessionIds(sessions) then {id} else {}
  {
    if sessions != [] {
      var x, rest := sessions[0], sessions[1..];
      assert sessions == [x] + rest;
      ConsViews(x, rest);
      if x.id == id {
        ConsViews(x.(endedAt := Some(at), result := result), rest);
      } else {
        EndSessionViews(rest, id, at, result);
        ConsViews(x, EndSession(rest, id, at, result));
      }
    }
  }

  lemma UpdateStepsView(a: Aggregate, e: Event, t: string)
    requires About(e, t) && !e.payload.event.Created?
    ensures ViewOf(Update(a, e, e.payload.event)) == Step(ViewOf(a), e, t)
  {
    match e.payload.event {
      case ShellSessionEnded(_, id, at, result) => EndSessionViews(a.sessions, id, at, result);
      case _ =>
    }
  }

  lemma ApplyStepsView(store: Tickets, e: Event, t: string)
    ensures Observed(Apply(store, e), t) == Step(Observed(store, t), e, t)
  {
    if About(e, t) && !e.payload.event.Created? && t in store {
      UpdateStepsView(store[t], e, t);
    }
  }

  // ---- The declared facts move by the same Step ----

  /** `m` is the latest of `s`, and `s0` is everything before it. */
  ghost predicate Splits(s: set<Event>, s0: set<Event>, m: Event) {
    m !in s0 && s == s0 + {m} && forall x :: x in s0 ==> Before(x, m)
  }

  lemma FollowsSplit(s: set<Event>, s0: set<Event>, m: Event, t: string, d: Event)
    requires Splits(s, s0, m) && d in s
    ensures Follows(s, t, d) <==> if d == m then Exists(s0, t) else Follows(s0, t, d)
  {
    if d != m {
      assert Before(d, m);
    }
  }

  lemma EndsSplit(s: set<Event>, s0: set<Event>, m: Event, t: string)
    requires Splits(s, s0, m)
    ensures EffectiveEnds(s, t) == EffectiveEnds(s0, t)
      + if Ends(m, t) && m.payload.event.sessionId in Sessions(s0, t) then {m} else {}
  {
    forall d | d in s && Ends(d, t)
      ensures Started(s, t, d)
        <==> if d == m then m.payload.event.sessionId in Sessions(s0, t) else Started(s0, t, d)
    {
      forall b | b in s { FollowsSplit(s, s0, m, t, b); }
    }
  }

  lemma MessagesSplit(s: set<Event>, s0: set<Event>, m: Event, t: string)
    requires Splits(s, s0, m)
    ensures Messages(s, t) == Messages(s0, t)
      + if Says(m, t) && Exists(s0, t) then {m.payload.event.messageId} else {}
  {
    forall d | d in s ensures Follows(s, t, d) <==> if d == m then Exists(s0, t) else Follows(s0, t, d) {
      FollowsSplit(s, s0, m, t, d);
    }
  }

  lemma AttachmentsSplit(s: set<Event>, s0: set<Event>, m: Event, t: string)
    requires Splits(s, s0, m)
    ensures Attachments(s, t) == Attachments(s0, t)
      + if Attaches(m, t) && Exists(s0, t) then {m.payload.event.attachmentId} else {}
  {
    forall d | d in s ensures Follows(s, t, d) <==> if d == m then Exists(s0, t) else Follows(s0, t, d) {
      FollowsSplit(s, s0, m, t, d);
    }
  }

  lemma SessionsSplit(s: set<Event>, s0: set<Event>, m: Event, t: string)
    requires Splits(s, s0, m)
    ensures Sessions(s, t) == Sessions(s0, t)
      + if Starts(m, t) && Exists(s0, t) then {m.payload.event.sessionId} else {}
  {
    forall d | d in s ensures Follows(s, t, d) <==> if d == m then Exists(s0, t) else Follows(s0, t, d) {
      FollowsSplit(s, s0, m, t, d);
    }
  }

  lemma ClosedSplit(s: set<Event>, s0: set<Event>, m: Event, t: string)
    requires Splits(s, s0, m)
    ensures IsClosed(s, t) <==> IsClosed(s0, t) || (Closes(m, t) && Exists(s0, t))
  {
    forall d | d in s ensures Follows(s, t, d) <==> if d == m then Exists(s0, t) else Follows(s0, t, d) {
      FollowsSplit(s, s0, m, t, d);
    }
  }

  lemma EndedSplit(s: set<Event>, s0: set<Event>, m: Event, t: string)
    requires Splits(s, s0, m)
    ensures Ended(s, t) == Ended(s0, t)
      + if Ends(m, t) && m.payload.event.sessionId in Sessions(s0, t) then {m.payload.event.sessionId} else {}
  {
    EndsSplit(s, s0, m, t);
  }

  lemma DeclaredSteps(s: set<Event>, s0: set<Event>, m: Event, t: string)
    requires Splits(s, s0, m)
    ensures Declared(s, t) == Step(Declared(s0, t), m, t)
  {
    MessagesSplit(s, s0, m, t);
    AttachmentsSplit(s, s0, m, t);
    SessionsSplit(s, s0, m, t);
    ClosedSplit(s, s0, m, t);
    EndedSplit(s, s0, m, t);
    assert Exists(s, t) <==> Exists(s0, t) || Creates(m, t);
    NotBeforeCreation(s0, t);
    StepByParts(Declared(s0, t), Declared(s, t), m, t);
  }

  lemma NotBeforeCreation(s: set<Event>, t: string)
    ensures Sessions(s, t) != {} ==> Exists(s, t)
  {
  }

  /** Step, one component at a time. */
  lemma StepByParts(v: View, w: View, e: Event, t: string)
    requires v.sessions != {} ==> v.present
    requires w.present <==> v.present || Creates(e, t)
    requires w.closed <==> v.closed || (Closes(e, t) && v.present)
    requires w.messages == v.messages + if Says(e, t) && v.present then {e.payload.event.messageId} else {}
    requires w.attachments == v.attachments + if Attaches(e, t) && v.present then {e.payload.event.attachmentId} else {}
    requires w.sessions == v.sessions + if Starts(e, t) && v.present then {e.payload.event.sessionId} else {}
    requires w.ended == v.ended
      + if Ends(e, t) && e.payload.event.sessionId in v.sessions then {e.payload.event.sessionId} else {}
    ensures w == Step(v, e, t)
  {
  }

  lemma LatestSplits(s: set<Event>) returns (s0: set<Event>, m: Event)
    requires s != {} && DistinctIds(s)
    ensures Splits(s, s0, m) && DistinctIds(s0) && State(s) == Apply(State(s0), m)
    ensures |s0| < |s|
  {
    m := Latest(s);
    s0 := s - {m};
    assert s == s0 + {m};
    StateAppend(s0, m);
  }

  /** The reduced state of a set of events is what the set declares: a ticket is closed exactly when some
      event closes it after some event created it, and so for messages, attachments and sessions. */
  lemma {:induction false} StateIsDeclared(s: set<Event>, t: string)
    requires DistinctIds(s)
    ensures Observed(State(s), t) == Declared(s, t)
    decreases |s|
  {
    if s == {} {
      assert Declared(s, t) == View(false, false, {}, {}, {}, {});
    } else {
      var s0, m := LatestSplits(s);
      StateIsDeclared(s0, t);
      ApplyStepsView(State(s0), m, t);
      DeclaredSteps(s, s0, m, t);
    }
  }

  // ---- Merging more events never takes anything away ----

  ghost predicate Within(v: View, w: View) {
    && (v.present ==> w.present) && (v.closed ==> w.closed)
    && v.messages <= w.messages && v.attachments <= w.attachments
    && v.sessions <= w.sessions && v.ended <= w.ended
  }

  lemma FollowsGrows(s: set<Event>, s': set<Event>, t: string, d: Event)
    requires s <= s' && Follows(s, t, d)
    ensures Follows(s', t, d)
  {
  }

  lemma DeclaredGrows(s: set<Event>, s': set<Event>, t: string)
    requires s <= s'
    ensures Within(Declared(s, t), Declared(s', t))
  {
    forall d | Follows(s, t, d) ensures Follows(s', t, d) { FollowsGrows(s, s', t, d); }
    forall d | d in EffectiveEnds(s, t) ensures d in EffectiveEnds(s', t) {
    }
  }

  /** Merge monotonicity: whatever is merged in, and wherever it sorts, no ticket, message, attachment or
      session disappears, no ended session is running again and no closed ticket is open again. */
  lemma MergeIsMonotone(s: set<Event>, s': set<Event>, t: string)
    requires s <= s' && DistinctIds(s')
    ensures Within(Observed(State(s), t), Observed(State(s'), t))
  {
    StateIsDeclared(s, t);
    StateIsDeclared(s', t);
    DeclaredGrows(s, s', t);
  }
}
