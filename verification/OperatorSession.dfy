/** The lifecycle of the operator session: unlock, lock, expiry, timers and terminal bridges. */
module OperatorSession {
  import opened Wrappers

  /** Capabilities are the set bits of the source's mask; holding a mask is containing its bits. */
  datatype Session = Session(id: nat, expiresAt: nat, capabilities: set<nat>)

  /** `cancelled` and `wiped` record which sessions' tokens and workspaces have been retired; `timers` are the
      expiry tasks still sleeping; a bridge watches the token of the session it was opened under. */
  datatype Desk = Desk(current: Option<Session>, installed: map<nat, Session>, cancelled: set<nat>, wiped: set<nat>,
                       timers: set<nat>, bridges: map<nat, nat>)

  const LOCKED := Desk(None, map[], {}, {}, {}, map[])

  datatype Step =
    | Unlock(session: Session)
    | Lock
    | Status(now: nat)
    | Authorize(now: nat, required: set<nat>)
    | TimerFires(id: nat)
    | OpenBridge(bridge: nat)
    | CloseBridge(bridge: nat)

  /** Takes the session out, cancels its token and wipes its workspace. */
  function Retire(d: Desk): Desk {
    match d.current
    case None => d
    case Some(s) => d.(current := None, cancelled := d.cancelled + {s.id}, wiped := d.wiped + {s.id})
  }

  function RetireIf(d: Desk, condition: bool): Desk {
    if condition then Retire(d) else d
  }

  predicate Expired(d: Desk, now: nat) {
    d.current.Some? && now >= d.current.value.expiresAt
  }

  /** What an authorization check answers. */
  predicate Authorizes(d: Desk, now: nat, required: set<nat>) {
    d.current.Some? && d.current.value.expiresAt > now && required <= d.current.value.capabilities
  }

  function Do(d: Desk, step: Step): Desk {
    match step
    case Unlock(s) =>
      var r := Retire(d);
      r.(current := Some(s), installed := r.installed[s.id := s], timers := r.timers + {s.id})
    case Lock => Retire(d)
    case Status(now) => RetireIf(d, Expired(d, now))
    case Authorize(now, required) => RetireIf(d, !Authorizes(d, now, required) && Expired(d, now))
    case TimerFires(id) =>
      if id !in d.timers then d else
        RetireIf(d, d.current.Some? && d.current.value.id == id).(timers := d.timers - {id})
    case OpenBridge(b) =>
      if d.current.None? then d else d.(bridges := d.bridges[b := d.current.value.id])
    case CloseBridge(b) => d.(bridges := d.bridges - {b})
  }

  /** Session ids are random and never repeat; bridges are numbered by their connection. */
  predicate Enabled(d: Desk, step: Step) {
    match step
    case Unlock(s) => s.id !in d.installed
    case OpenBridge(b) => b !in d.bridges
    case _ => true
  }

  function Run(steps: seq<Step>): Desk {
    if steps == [] then LOCKED else Do(Run(steps[..|steps| - 1]), steps[|steps| - 1])
  }

  ghost predicate Legal(steps: seq<Step>) {
    forall i :: 0 <= i < |steps| ==> Enabled(Run(steps[..i]), steps[i])
  }

  ghost predicate IsCurrent(d: Desk, id: nat) {
    d.current.Some? && d.current.value.id == id
  }

  ghost predicate Inv(d: Desk) {
    && (forall id :: id in d.installed ==> IsCurrent(d, id) || (id in d.cancelled && id in d.wiped))
    && (d.current.Some? ==>
          var s := d.current.value;
          s.id in d.installed && d.installed[s.id] == s && s.id !in d.cancelled && s.id !in d.wiped)
    && d.cancelled <= d.installed.Keys && d.wiped <= d.installed.Keys
    && (forall b :: b in d.bridges ==> d.bridges[b] in d.installed)
  }

  lemma RetireKeepsInv(d: Desk)
    requires Inv(d)
    ensures Inv(Retire(d))
  {
  }

  lemma StepKeepsInv(d: Desk, step: Step)
    requires Inv(d) && Enabled(d, step)
    ensures Inv(Do(d, step))
  {
    RetireKeepsInv(d);
  }

  lemma LegalFront(steps: seq<Step>)
    requires steps != [] && Legal(steps)
    ensures Legal(steps[..|steps| - 1]) && Enabled(Run(steps[..|steps| - 1]), steps[|steps| - 1])
  {
    var n := |steps| - 1;
    forall i | 0 <= i < n ensures steps[..n][..i] == steps[..i] && steps[..n][i] == steps[i] {}
  }

  lemma {:induction false} RunKeepsInv(steps: seq<Step>)
    requires Legal(steps)
    ensures Inv(Run(steps))
  {
    if steps != [] {
      LegalFront(steps);
      RunKeepsInv(steps[..|steps| - 1]);
      StepKeepsInv(Run(steps[..|steps| - 1]), steps[|steps| - 1]);
    }
  }

  /** In every run each session ever installed is either current or both cancelled and wiped, and a terminal
      bridge whose token is not cancelled belongs to the current session. */
  lemma OnlyTheCurrentSessionLives(steps: seq<Step>)
    requires Legal(steps)
    ensures var d := Run(steps);
      && (forall id :: id in d.installed ==> (IsCurrent(d, id) <==> id !in d.cancelled))
      && (forall id :: id in d.installed ==> (IsCurrent(d, id) <==> id !in d.wiped))
      && (forall b :: b in d.bridges && d.bridges[b] !in d.cancelled ==> IsCurrent(d, d.bridges[b]))
  {
    RunKeepsInv(steps);
  }

  // ---- Why a session ends ----

  /** The steps that may end the session `s`; the timer of another session is not among them. */
  predicate MayEnd(step: Step, s: Session) {
    match step
    case Unlock(_) => true
    case Lock => true
    case Status(now) => now >= s.expiresAt
    case Authorize(now, _) => now >= s.expiresAt
    case TimerFires(id) => id == s.id
    case _ => false
  }

  /** An old session's timer never retires a newer session, nor does any check before its expiry: a session that
      is current at one point of a run and not at the end met a step that may end it. */
  lemma {:induction false} EndsForAReason(steps: seq<Step>, i: nat, s: Session) returns (k: nat)
    requires i <= |steps| && Run(steps[..i]).current == Some(s) && Run(steps).current != Some(s)
    ensures i <= k < |steps| && MayEnd(steps[k], s)
    decreases |steps|
  {
    assert steps[..|steps|] == steps;
    assert i < |steps|;
    var n := |steps| - 1;
    if Run(steps[..n]).current == Some(s) {
      k := n;
    } else {
      assert steps[..n][..i] == steps[..i];
      k := EndsForAReason(steps[..n], i, s);
      assert steps[..n][k] == steps[k];
    }
  }

  /** Cancellation is final, so a bridge of a retired session stays cut off. */
  lemma CancelledStaysCancelled(steps: seq<Step>, i: nat, id: nat)
    requires Legal(steps) && i <= |steps| && id in Run(steps[..i]).cancelled
    ensures id in Run(steps).cancelled && !IsCurrent(Run(steps), id)
  {
    RunKeepsInv(steps);
    CancelledGrows(steps, i);
  }

  lemma CancelledGrowsOnce(d: Desk, step: Step)
    ensures d.cancelled <= Do(d, step).cancelled
  {
  }

  lemma {:induction false} CancelledGrows(steps: seq<Step>, i: nat)
    requires i <= |steps|
    ensures Run(steps[..i]).cancelled <= Run(steps).cancelled
    decreases |steps|
  {
    if i < |steps| {
      var front := steps[..|steps| - 1];
      CancelledGrowsOnce(Run(front), steps[|steps| - 1]);
      CancelledGrows(front, i);
      assert front[..i] == steps[..i];
    } else {
      assert steps[..i] == steps;
    }
  }

  /** An authorization is only ever given in the name of a live, unexpired session with the capability. */
  lemma AuthorizedIsLive(steps: seq<Step>, now: nat, required: set<nat>) returns (s: Session)
    requires Legal(steps) && Authorizes(Run(steps), now, required)
    ensures s.id in Run(steps).installed && Run(steps).installed[s.id] == s
    ensures s.id !in Run(steps).cancelled && s.id !in Run(steps).wiped && now < s.expiresAt
    ensures required <= s.capabilities
  {
    RunKeepsInv(steps);
    s := Run(steps).current.value;
  }

  // ---- The service object ----

  class IpcState {
    var operatorSession: Option<Session>
    var installed: map<nat, Session>
    var cancelled: set<nat>
    var wiped: set<nat>
    var timers: set<nat>
    var bridges: map<nat, nat>

    function Value(): Desk
      reads this
    {
      Desk(operatorSession, installed, cancelled, wiped, timers, bridges)
    }

    constructor ()
      ensures Value() == LOCKED
    {
      operatorSession, installed, cancelled, wiped, timers, bridges := None, map[], {}, {}, {}, map[];
    }

    method Take()
      modifies this
      ensures Value() == Retire(old(Value()))
    {
      if operatorSession.Some? {
        cancelled := cancelled + {operatorSession.value.id};
        wiped := wiped + {operatorSession.value.id};
        operatorSession := None;
      }
    }

    method UnlockOperator(session: Session)
      modifies this
      ensures Value() == Do(old(Value()), Unlock(session))
    {
      Take();
      operatorSession := Some(session);
      installed := installed[session.id := session];
      timers := timers + {session.id};
    }

    method LockOperator()
      modifies this
      ensures Value() == Do(old(Value()), Lock)
    {
      Take();
    }

    method IsOperatorAuthorizedFor(now: nat, required: set<nat>) returns (ok: bool)
      modifies this
      ensures ok == Authorizes(old(Value()), now, required)
      ensures Value() == Do(old(Value()), Authorize(now, required))
    {
      if operatorSession.Some? {
        var session := operatorSession.value;
        if session.expiresAt > now && required <= session.capabilities {
          return true;
        }
        if now >= session.expiresAt {
          Take();
        }
      }
      ok := false;
    }

    method GetOperatorStatus(now: nat) returns (unlocked: bool)
      modifies this
      ensures unlocked == (old(operatorSession).Some? && now < old(operatorSession).value.expiresAt)
      ensures Value() == Do(old(Value()), Status(now))
    {
      if operatorSession.Some? {
        if now >= operatorSession.value.expiresAt {
          Take();
          return false;
        }
        return true;
      }
      unlocked := false;
    }

    /** The body of the expiry task spawned by an unlock. */
    method Expire(id: nat)
      requires id in timers
      modifies this
      ensures Value() == Do(old(Value()), TimerFires(id))
    {
      timers := timers - {id};
      if operatorSession.Some? && operatorSession.value.id == id {
        Take();
      }
    }

    /** A terminal clones the token of whatever session is current. */
    method OpenTerminal(bridge: nat) returns (ok: bool)
      modifies this
      ensures ok == old(operatorSession).Some?
      ensures Value() == Do(old(Value()), OpenBridge(bridge))
    {
      ok := operatorSession.Some?;
      if ok {
        bridges := bridges[bridge := operatorSession.value.id];
      }
    }
  }
}
