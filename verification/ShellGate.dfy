/** The single-shell gate, its watcher, and what closing a ticket means for it. */
module ShellGate {
  import opened Events
  import opened Reducer
  import opened Wrappers
  import E = Engine
  import R = EngineRuns

  /** `bound` stands for every check of the handshake that does not depend on time: network, transport and host
      bindings, key id, SHELL_EXEC capability, the certificate's and the challenge's signature. */
  datatype Handshake = Handshake(ticket: string, bound: bool, expiresAt: nat)

  datatype Denial = InvalidAuthority | NoTicket | Busy | TicketClosed | WriteFailed | Revoked | Ended | Stopped

  datatype Phase =
    | Arrived(hs: Handshake)                 // the handshake has been read
    | Vetted(hs: Handshake, valid: bool)     // the authority has been judged by the clock
    | Checked(hs: Handshake)                 // the ticket was read, and both were in order
    | Claimed(hs: Handshake)                 // the flag was taken
    | Serving(hs: Handshake)                 // the guard owns the flag
    | Looked(hs: Handshake, works: bool)     // still serving; the watcher has re-read the ticket
    | Gone(why: Denial)

  datatype Gate = Gate(engine: E.Engine, now: nat, active: bool, conns: map<nat, Phase>)

  datatype Step =
    | EngineStep(step: E.Step)          // a restart ends the process, its connections and its flag
    | Tick(now: nat)
    | Arrive(conn: nat, hs: Handshake)
    | Vet(conn: nat)                    // the authority is judged
    | Check(conn: nat)                  // the ticket is read and the decision taken
    | Claim(conn: nat)                  // compare_exchange(false, true)
    | Answer(conn: nat, sent: bool)     // the authorization byte was written, or not
    | Look(conn: nat)                   // the watcher wakes up and re-reads the ticket
    | Poll(conn: nat)                   // then it reads the clock and goes on or ends the session
    | Finish(conn: nat)                 // the served shell ends

  /** `local` is this node's peer id; `anchored` says whether a Genesis authority is configured. */
  datatype Config = Config(local: string, anchored: bool)

  predicate AuthorityValid(cfg: Config, hs: Handshake, now: nat) {
    cfg.anchored && hs.bound && now < hs.expiresAt
  }

  /** The decision before the flag, in the order of the source; `valid` was settled before the ticket was read. */
  function Decide(cfg: Config, store: Tickets, hs: Handshake, valid: bool): Option<Denial> {
    if hs.ticket !in store then Some(NoTicket)
    else if !valid then Some(InvalidAuthority)
    else if store[hs.ticket].record.clientPeerId != cfg.local || !store[hs.ticket].record.state.PermitsWork()
    then Some(TicketClosed)
    else None
  }

  /** What the watcher asks of the ticket. */
  predicate Works(store: Tickets, t: string) {
    t in store && store[t].record.state.PermitsWork()
  }

  ghost function Do(cfg: Config, g: Gate, step: Step): Gate {
    match step
    case EngineStep(s) =>
      var g1 := g.(engine := E.Do(g.engine, s));
      if s.Restart? then g1.(active := false, conns := map c | c in g.conns :: Gone(Stopped)) else g1
    case Tick(now) => g.(now := now)
    case Arrive(c, hs) => g.(conns := g.conns[c := Arrived(hs)])
    case Vet(c) =>
      if c !in g.conns || !g.conns[c].Arrived? then g else
        g.(conns := g.conns[c := Vetted(g.conns[c].hs, AuthorityValid(cfg, g.conns[c].hs, g.now))])
    case Check(c) =>
      if c !in g.conns || !g.conns[c].Vetted? then g else
        var hs := g.conns[c].hs;
        g.(conns := g.conns[c := match Decide(cfg, g.engine.cache, hs, g.conns[c].valid)
                                 case Some(why) => Gone(why)
                                 case None => Checked(hs)])
    case Claim(c) =>
      if c !in g.conns || !g.conns[c].Checked? then g
      else if g.active then g.(conns := g.conns[c := Gone(Busy)])
      else g.(active := true, conns := g.conns[c := Claimed(g.conns[c].hs)])
    case Answer(c, sent) =>
      if c !in g.conns || !g.conns[c].Claimed? then g
      else if sent then g.(conns := g.conns[c := Serving(g.conns[c].hs)])
      else g.(active := false, conns := g.conns[c := Gone(WriteFailed)])
    case Look(c) =>
      if c !in g.conns || !g.conns[c].Serving? then g
      else g.(conns := g.conns[c := Looked(g.conns[c].hs, Works(g.engine.cache, g.conns[c].hs.ticket))])
    case Poll(c) =>
      if c !in g.conns || !g.conns[c].Looked? then g
      else if g.conns[c].works && g.now < g.conns[c].hs.expiresAt
      then g.(conns := g.conns[c := Serving(g.conns[c].hs)])
      else g.(active := false, conns := g.conns[c := Gone(Revoked)])
    case Finish(c) =>
      if c !in g.conns || !(g.conns[c].Serving? || g.conns[c].Looked?) then g
      else g.(active := false, conns := g.conns[c := Gone(Ended)])
  }

  ghost predicate Enabled(book: ObjectId -> Event, g: Gate, step: Step) {
    match step
    case EngineStep(s) => E.Enabled(book, g.engine, s)
    case Tick(now) => g.now <= now
    case Arrive(c, _) => c !in g.conns
    case Look(c) => c in g.conns && g.conns[c].Serving?
    case Poll(c) => c in g.conns && g.conns[c].Looked?
    case _ => true
  }

  const START := Gate(E.FRESH, 0, false, map[])

  ghost function Run(cfg: Config, steps: seq<Step>): Gate {
    if steps == [] then START else Do(cfg, Run(cfg, steps[..|steps| - 1]), steps[|steps| - 1])
  }

  ghost predicate Legal(book: ObjectId -> Event, cfg: Config, steps: seq<Step>) {
    forall i :: 0 <= i < |steps| ==> Enabled(book, Run(cfg, steps[..i]), steps[i])
  }

  // ---- The flag ----

  predicate Holds(p: Phase) {
    p.Claimed? || p.Serving? || p.Looked?
  }

  /** The flag is set exactly when a connection holds it, and never two do. */
  ghost predicate FlagExact(g: Gate) {
    && (g.active <==> exists c :: c in g.conns && Holds(g.conns[c]))
    && (forall c, d :: c in g.conns && d in g.conns && Holds(g.conns[c]) && Holds(g.conns[d]) ==> c == d)
  }

  lemma StepKeepsFlag(cfg: Config, g: Gate, step: Step, book: ObjectId -> Event)
    requires FlagExact(g) && Enabled(book, g, step)
    ensures FlagExact(Do(cfg, g, step))
  {
    var g' := Do(cfg, g, step);
    if step.EngineStep? {
    } else if step.Claim? && !g.active && step.conn in g.conns && g.conns[step.conn].Checked? {
      assert Holds(g'.conns[step.conn]);
    } else if step.Answer? && step.sent && step.conn in g.conns && g.conns[step.conn].Claimed? {
      assert Holds(g'.conns[step.conn]);
    } else if g'.active == g.active {
      forall c | c in g'.conns && Holds(g'.conns[c]) ensures c in g.conns && Holds(g.conns[c]) {}
      if g.active {
        var c :| c in g.conns && Holds(g.conns[c]);
        assert c in g'.conns && Holds(g'.conns[c]);
      }
    }
  }

  lemma {:induction false} RunKeepsFlag(book: ObjectId -> Event, cfg: Config, steps: seq<Step>)
    requires Legal(book, cfg, steps)
    ensures FlagExact(Run(cfg, steps))
  {
    if steps != [] {
      var n := |steps| - 1;
      assert forall i :: 0 <= i < n ==> steps[..n][..i] == steps[..i];
      RunKeepsFlag(book, cfg, steps[..n]);
      StepKeepsFlag(cfg, Run(cfg, steps[..n]), steps[n], book);
    }
  }

  // ---- Admission ----

  /** The connection has passed the checks. */
  predicate Passed(p: Phase) {
    p.Checked? || p.Claimed? || p.Serving? || p.Looked?
  }

  /** The ticket is known here, owned by this node and open or in progress. */
  predicate InOrder(cfg: Config, store: Tickets, hs: Handshake) {
    && hs.ticket in store && store[hs.ticket].record.clientPeerId == cfg.local
    && (store[hs.ticket].record.state.Open? || store[hs.ticket].record.state.InProgress?)
  }

  lemma DecideIff(cfg: Config, store: Tickets, hs: Handshake, valid: bool)
    ensures Decide(cfg, store, hs, valid).None? <==> valid && InOrder(cfg, store, hs)
  {
  }

  lemma StepPasses(cfg: Config, g: Gate, step: Step, c: nat, book: ObjectId -> Event)
    requires Enabled(book, g, step)
    requires c in Do(cfg, g, step).conns && Passed(Do(cfg, g, step).conns[c])
    ensures c in g.conns && !g.conns[c].Gone? && g.conns[c].hs == Do(cfg, g, step).conns[c].hs
    ensures Passed(g.conns[c])
      || (step == Check(c) && g.conns[c].Vetted? && g.conns[c].valid && InOrder(cfg, g.engine.cache, g.conns[c].hs))
  {
    if step == Check(c) && c in g.conns && g.conns[c].Vetted? {
      DecideIff(cfg, g.engine.cache, g.conns[c].hs, g.conns[c].valid);
    }
  }

  lemma StepVets(cfg: Config, g: Gate, step: Step, c: nat, book: ObjectId -> Event)
    requires Enabled(book, g, step)
    requires c in Do(cfg, g, step).conns && Do(cfg, g, step).conns[c].Vetted? && Do(cfg, g, step).conns[c].valid
    ensures c in g.conns && !g.conns[c].Gone? && g.conns[c].hs == Do(cfg, g, step).conns[c].hs
    ensures g.conns[c] == Do(cfg, g, step).conns[c] || (step == Vet(c) && AuthorityValid(cfg, g.conns[c].hs, g.now))
  {
  }

  lemma LegalFront(book: ObjectId -> Event, cfg: Config, steps: seq<Step>)
    requires steps != [] && Legal(book, cfg, steps)
    ensures Legal(book, cfg, steps[..|steps| - 1])
    ensures Enabled(book, Run(cfg, steps[..|steps| - 1]), steps[|steps| - 1])
  {
    var n := |steps| - 1;
    assert forall i :: 0 <= i < n ==> steps[..n][..i] == steps[..i];
  }

  /** A positive judgement was made at some point of the run, when the authority was valid. */
  lemma {:induction false} VettedWasValid(book: ObjectId -> Event, cfg: Config, steps: seq<Step>, c: nat)
    returns (v: nat)
    requires Legal(book, cfg, steps)
    requires c in Run(cfg, steps).conns && Run(cfg, steps).conns[c].Vetted? && Run(cfg, steps).conns[c].valid
    ensures v < |steps| && steps[v] == Vet(c)
    ensures AuthorityValid(cfg, Run(cfg, steps).conns[c].hs, Run(cfg, steps[..v]).now)
  {
    var n := |steps| - 1;
    LegalFront(book, cfg, steps);
    StepVets(cfg, Run(cfg, steps[..n]), steps[n], c, book);
    if Run(cfg, steps[..n]).conns[c] == Run(cfg, steps).conns[c] {
      v := VettedWasValid(book, cfg, steps[..n], c);
      assert steps[..n][..v] == steps[..v];
    } else {
      v := n;
    }
  }

  lemma LastPasses(book: ObjectId -> Event, cfg: Config, steps: seq<Step>, c: nat)
    requires Legal(book, cfg, steps) && c in Run(cfg, steps).conns && Passed(Run(cfg, steps).conns[c])
    ensures steps != [] && Legal(book, cfg, steps[..|steps| - 1])
    ensures var g, step := Run(cfg, steps[..|steps| - 1]), steps[|steps| - 1];
      && c in g.conns && !g.conns[c].Gone? && g.conns[c].hs == Run(cfg, steps).conns[c].hs
      && (Passed(g.conns[c])
          || (step == Check(c) && g.conns[c].Vetted? && g.conns[c].valid && InOrder(cfg, g.engine.cache, g.conns[c].hs)))
  {
    LegalFront(book, cfg, steps);
    StepPasses(cfg, Run(cfg, steps[..|steps| - 1]), steps[|steps| - 1], c, book);
  }

  /** Every admitted session passed its check at some point of the run. */
  lemma {:induction false} PassedWasChecked(book: ObjectId -> Event, cfg: Config, steps: seq<Step>, c: nat)
    returns (k: nat)
    requires Legal(book, cfg, steps) && c in Run(cfg, steps).conns && Passed(Run(cfg, steps).conns[c])
    ensures k < |steps| && steps[k] == Check(c) && c in Run(cfg, steps[..k]).conns
    ensures var g, hs := Run(cfg, steps[..k]), Run(cfg, steps).conns[c].hs;
      g.conns[c] == Vetted(hs, true) && InOrder(cfg, g.engine.cache, hs)
  {
    var n := |steps| - 1;
    LastPasses(book, cfg, steps, c);
    if Passed(Run(cfg, steps[..n]).conns[c]) {
      k := PassedWasChecked(book, cfg, steps[..n], c);
      assert steps[..n][..k] == steps[..k];
    } else {
      k := n;
    }
  }

  /** Every admitted session was judged at one point of the run, when its authority was valid, and its ticket was
      read at a later one, when it was this node's and open or in progress. */
  lemma AdmittedWasInOrder(book: ObjectId -> Event, cfg: Config, steps: seq<Step>, c: nat) returns (v: nat, k: nat)
    requires Legal(book, cfg, steps) && c in Run(cfg, steps).conns && Passed(Run(cfg, steps).conns[c])
    ensures v < k < |steps| && steps[v] == Vet(c) && steps[k] == Check(c) && c in Run(cfg, steps[..k]).conns
    ensures AuthorityValid(cfg, Run(cfg, steps).conns[c].hs, Run(cfg, steps[..v]).now)
    ensures InOrder(cfg, Run(cfg, steps[..k]).engine.cache, Run(cfg, steps).conns[c].hs)
  {
    k := PassedWasChecked(book, cfg, steps, c);
    LegalUpTo(book, cfg, steps, k);
    v := VettedWasValid(book, cfg, steps[..k], c);
    assert steps[..k][..v] == steps[..v];
  }

  lemma LegalUpTo(book: ObjectId -> Event, cfg: Config, steps: seq<Step>, k: nat)
    requires Legal(book, cfg, steps) && k <= |steps|
    ensures Legal(book, cfg, steps[..k])
  {
    assert forall i :: 0 <= i < k ==> steps[..k][..i] == steps[..i];
  }

  // ---- The engine inside the gate ----

  function Project(steps: seq<Step>): seq<E.Step> {
    if steps == [] then [] else
      var last := steps[|steps| - 1];
      Project(steps[..|steps| - 1]) + if last.EngineStep? then [last.step] else []
  }

  /** Every restart of the node finds a disk that is compatible with the live graph. */
  ghost predicate CleanRun(cfg: Config, steps: seq<Step>) {
    forall i :: 0 <= i < |steps| && steps[i].EngineStep? ==> E.Clean(Run(cfg, steps[..i]).engine, steps[i].step)
  }

  lemma CleanFront(cfg: Config, steps: seq<Step>)
    requires steps != [] && CleanRun(cfg, steps)
    ensures CleanRun(cfg, steps[..|steps| - 1])
  {
    var n := |steps| - 1;
    assert forall i :: 0 <= i < n ==> steps[..n][..i] == steps[..i];
  }

  lemma StepEngine(cfg: Config, g: Gate, step: Step)
    ensures Do(cfg, g, step).engine == if step.EngineStep? then E.Do(g.engine, step.step) else g.engine
    ensures g.conns.Keys <= Do(cfg, g, step).conns.Keys
  {
  }

  /** The last step of the run, seen from the engine. */
  lemma LastInside(book: ObjectId -> Event, cfg: Config, steps: seq<Step>)
    requires steps != [] && Legal(book, cfg, steps) && CleanRun(cfg, steps)
    requires var front := steps[..|steps| - 1];
      R.Legal(book, Project(front)) && R.CleanRun(Project(front)) && Run(cfg, front).engine == R.Run(Project(front))
    ensures R.Legal(book, Project(steps)) && R.CleanRun(Project(steps))
    ensures Run(cfg, steps).engine == R.Run(Project(steps))
  {
    var n := |steps| - 1;
    var front := Project(steps[..n]);
    StepEngine(cfg, Run(cfg, steps[..n]), steps[n]);
    LegalFront(book, cfg, steps);
    if steps[n].EngineStep? {
      assert E.Clean(Run(cfg, steps[..n]).engine, steps[n].step);
      R.LegalSnoc(book, front, steps[n].step);
    } else {
      assert front + [] == front;
    }
  }

  lemma {:induction false} EngineRunsInside(book: ObjectId -> Event, cfg: Config, steps: seq<Step>)
    requires Legal(book, cfg, steps) && CleanRun(cfg, steps)
    ensures R.Legal(book, Project(steps)) && R.CleanRun(Project(steps))
    ensures Run(cfg, steps).engine == R.Run(Project(steps))
  {
    if steps != [] {
      LegalFront(book, cfg, steps);
      CleanFront(cfg, steps);
      EngineRunsInside(book, cfg, steps[..|steps| - 1]);
      LastInside(book, cfg, steps);
    }
  }

  lemma {:induction false} ProjectPrefix(steps: seq<Step>, i: nat)
    requires i <= |steps|
    ensures Project(steps[..i]) <= Project(steps)
    decreases |steps|
  {
    if i == |steps| {
      assert steps[..i] == steps;
    } else {
      var n := |steps| - 1;
      ProjectPrefix(steps[..n], i);
      assert steps[..n][..i] == steps[..i];
    }
  }

  lemma PrefixIsClean(book: ObjectId -> Event, cfg: Config, steps: seq<Step>, i: nat)
    requires Legal(book, cfg, steps) && CleanRun(cfg, steps) && i <= |steps|
    ensures Legal(book, cfg, steps[..i]) && CleanRun(cfg, steps[..i])
  {
    assert forall k :: 0 <= k < i ==> steps[..i][..k] == steps[..k];
  }

  lemma StaysClosed(book: ObjectId -> Event, cfg: Config, steps: seq<Step>, i: nat, t: string)
    requires Legal(book, cfg, steps) && CleanRun(cfg, steps) && i <= |steps|
    requires R.ShownClosed(Run(cfg, steps[..i]).engine, t)
    ensures R.ShownClosed(Run(cfg, steps).engine, t)
  {
    PrefixIsClean(book, cfg, steps, i);
    EngineRunsInside(book, cfg, steps);
    EngineRunsInside(book, cfg, steps[..i]);
    ProjectPrefix(steps, i);
    var k := |Project(steps[..i])|;
    assert Project(steps)[..k] == Project(steps[..i]);
    R.ClosedIsFinal(book, Project(steps), k, t);
  }

  lemma ConnsGrowOnce(cfg: Config, steps: seq<Step>)
    requires steps != []
    ensures Run(cfg, steps[..|steps| - 1]).conns.Keys <= Run(cfg, steps).conns.Keys
  {
    StepEngine(cfg, Run(cfg, steps[..|steps| - 1]), steps[|steps| - 1]);
  }

  lemma {:induction false} ConnsGrow(cfg: Config, steps: seq<Step>, i: nat)
    requires i <= |steps|
    ensures Run(cfg, steps[..i]).conns.Keys <= Run(cfg, steps).conns.Keys
    decreases |steps|
  {
    if i == |steps| {
      assert steps[..i] == steps;
    } else {
      var front := steps[..|steps| - 1];
      ConnsGrowOnce(cfg, steps);
      ConnsGrow(cfg, front, i);
      assert front[..i] == steps[..i];
    }
  }

  lemma ClosedAt(book: ObjectId -> Event, cfg: Config, steps: seq<Step>, i: nat, j: nat, t: string)
    requires Legal(book, cfg, steps) && CleanRun(cfg, steps) && i <= j <= |steps|
    requires R.ShownClosed(Run(cfg, steps[..i]).engine, t)
    ensures R.ShownClosed(Run(cfg, steps[..j]).engine, t)
  {
    PrefixIsClean(book, cfg, steps, j);
    assert steps[..j][..i] == steps[..i];
    StaysClosed(book, cfg, steps[..j], i, t);
  }

  lemma PresentSinceArrival(book: ObjectId -> Event, cfg: Config, steps: seq<Step>, j: nat, k: nat, c: nat)
    requires Legal(book, cfg, steps) && j < |steps| && steps[j].Arrive? && steps[j].conn == c
    requires k <= |steps| && c in Run(cfg, steps[..k]).conns
    ensures j < k
  {
    assert Enabled(book, Run(cfg, steps[..j]), steps[j]);
    if k <= j {
      assert steps[..j][..k] == steps[..k];
      ConnsGrow(cfg, steps[..j], k);
    }
  }

  /** A connection that arrives for a ticket already shown closed is never admitted, in any continuation. */
  lemma ClosedNeverAdmitted(book: ObjectId -> Event, cfg: Config, steps: seq<Step>, i: nat, j: nat, c: nat)
    requires Legal(book, cfg, steps) && CleanRun(cfg, steps) && i <= j < |steps|
    requires steps[j].Arrive? && steps[j].conn == c
    requires c in Run(cfg, steps).conns && Passed(Run(cfg, steps).conns[c])
    ensures !R.ShownClosed(Run(cfg, steps[..i]).engine, Run(cfg, steps).conns[c].hs.ticket)
  {
    var t := Run(cfg, steps).conns[c].hs.ticket;
    var k := PassedWasChecked(book, cfg, steps, c);
    PresentSinceArrival(book, cfg, steps, j, k, c);
    if R.ShownClosed(Run(cfg, steps[..i]).engine, t) { ClosedAt(book, cfg, steps, i, k, t); }
  }

  // ---- The past of a connection ----

  lemma StepNotGone(cfg: Config, g: Gate, step: Step, c: nat, book: ObjectId -> Event)
    requires Enabled(book, g, step) && c in g.conns
    requires c in Do(cfg, g, step).conns && !Do(cfg, g, step).conns[c].Gone?
    ensures !g.conns[c].Gone? && g.conns[c].hs == Do(cfg, g, step).conns[c].hs
  {
  }

  lemma LastNotGone(book: ObjectId -> Event, cfg: Config, steps: seq<Step>, c: nat)
    requires Legal(book, cfg, steps) && steps != [] && c in Run(cfg, steps[..|steps| - 1]).conns
    requires c in Run(cfg, steps).conns && !Run(cfg, steps).conns[c].Gone?
    ensures Legal(book, cfg, steps[..|steps| - 1])
    ensures var p := Run(cfg, steps[..|steps| - 1]).conns[c]; !p.Gone? && p.hs == Run(cfg, steps).conns[c].hs
  {
    LegalFront(book, cfg, steps);
    StepNotGone(cfg, Run(cfg, steps[..|steps| - 1]), steps[|steps| - 1], c, book);
  }

  /** Gone is for good, and a connection keeps its handshake. */
  lemma {:induction false} NeverGoneBefore(book: ObjectId -> Event, cfg: Config, steps: seq<Step>, k: nat, c: nat)
    requires Legal(book, cfg, steps) && k <= |steps| && c in Run(cfg, steps[..k]).conns
    requires c in Run(cfg, steps).conns && !Run(cfg, steps).conns[c].Gone?
    ensures !Run(cfg, steps[..k]).conns[c].Gone?
    ensures Run(cfg, steps[..k]).conns[c].hs == Run(cfg, steps).conns[c].hs
    decreases |steps|
  {
    if k == |steps| {
      assert steps[..k] == steps;
    } else {
      var n := |steps| - 1;
      assert steps[..n][..k] == steps[..k];
      ConnsGrow(cfg, steps[..n], k);
      LastNotGone(book, cfg, steps, c);
      NeverGoneBefore(book, cfg, steps[..n], k, c);
    }
  }

  lemma RunStep(cfg: Config, steps: seq<Step>, k: nat)
    requires k < |steps|
    ensures Run(cfg, steps[..k + 1]) == Do(cfg, Run(cfg, steps[..k]), steps[k])
  {
    assert steps[..k + 1][..k] == steps[..k];
  }

  // ---- The handler object ----

  /** One admission without interference: arrival, judgement, check, claim and answer. */
  ghost function Handled(cfg: Config, g: Gate, c: nat, hs: Handshake, sent: bool): Gate {
    Do(cfg, Do(cfg, Do(cfg, Do(cfg, Do(cfg, g, Arrive(c, hs)), Vet(c)), Check(c)), Claim(c)), Answer(c, sent))
  }

  /** Where an admission ends up, in the order of the source's returns. */
  function Verdict(cfg: Config, store: Tickets, hs: Handshake, now: nat, busy: bool, sent: bool): Phase {
    match Decide(cfg, store, hs, AuthorityValid(cfg, hs, now))
    case Some(why) => Gone(why)
    case None => if busy then Gone(Busy) else if sent then Serving(hs) else Gone(WriteFailed)
  }

  lemma HandledIsVerdict(cfg: Config, g: Gate, c: nat, hs: Handshake, sent: bool)
    requires c !in g.conns
    ensures var p := Verdict(cfg, g.engine.cache, hs, g.now, g.active, sent);
      Handled(cfg, g, c, hs, sent) == g.(conns := g.conns[c := p], active := g.active || p.Serving?)
  {
    var g1 := Do(cfg, Do(cfg, g, Arrive(c, hs)), Vet(c));
    assert g1 == g.(conns := g.conns[c := Vetted(hs, AuthorityValid(cfg, hs, g.now))]);
    var g2 := Do(cfg, g1, Check(c));
    assert g2 == g1.(conns := g.conns[c := g2.conns[c]]);
    var g3 := Do(cfg, g2, Claim(c));
    assert g3.conns == g.conns[c := g3.conns[c]];
    var g4 := Do(cfg, g3, Answer(c, sent));
    assert g4.conns == g.conns[c := g4.conns[c]];
  }

  class ShellHost {
    var activeShells: bool
    var conns: map<nat, Phase>

    ghost function Value(engine: E.Engine, now: nat): Gate
      reads this
    {
      Gate(engine, now, activeShells, conns)
    }

    /** The incoming handler: every failing path leaves the flag as it found it. */
    method HandleIncoming(cfg: Config, ghost engine: E.Engine, store: Tickets, now: nat, c: nat, hs: Handshake,
                          sent: bool) returns (p: Phase)
      requires c !in conns && store == engine.cache
      modifies this
      ensures Value(engine, now) == Handled(cfg, old(Value(engine, now)), c, hs, sent)
      ensures p == conns[c]
      ensures p.Serving? <==> AuthorityValid(cfg, hs, now) && InOrder(cfg, store, hs) && !old(activeShells) && sent
      ensures activeShells == (old(activeShells) || p.Serving?)
    {
      HandledIsVerdict(cfg, Value(engine, now), c, hs, sent);
      var valid := AuthorityValid(cfg, hs, now);
      DecideIff(cfg, store, hs, valid);
      if hs.ticket !in store {
        p := Gone(NoTicket);
      } else if !valid {
        p := Gone(InvalidAuthority);
      } else if store[hs.ticket].record.clientPeerId != cfg.local || !store[hs.ticket].record.state.PermitsWork() {
        p := Gone(TicketClosed);
      } else if activeShells {
        p := Gone(Busy);
      } else {
        activeShells := true;
        if sent {
          p := Serving(hs);
        } else {
          activeShells := false;
          p := Gone(WriteFailed);
        }
      }
      conns := conns[c := p];
    }

    /** One wake-up of the watcher: it looks at the ticket, then at the clock. */
    method Watch(cfg: Config, ghost engine: E.Engine, store: Tickets, now: nat, c: nat) returns (valid: bool)
      requires c in conns && conns[c].Serving? && store == engine.cache
      modifies this
      ensures valid == (Works(store, old(conns)[c].hs.ticket) && now < old(conns)[c].hs.expiresAt)
      ensures Value(engine, now) == Do(cfg, Do(cfg, old(Value(engine, now)), Look(c)), Poll(c))
    {
      var hs := conns[c].hs;
      valid := Works(store, hs.ticket) && now < hs.expiresAt;
      conns := conns[c := Looked(hs, Works(store, hs.ticket))];
      if valid {
        conns := conns[c := Serving(hs)];
      } else {
        activeShells := false;
        conns := conns[c := Gone(Revoked)];
      }
    }

    /** The served shell ended: the guard gives the flag back. */
    method Drop(cfg: Config, ghost engine: E.Engine, now: nat, c: nat)
      requires c in conns && conns[c].Serving?
      modifies this
      ensures Value(engine, now) == Do(cfg, old(Value(engine, now)), Finish(c))
    {
      activeShells := false;
      conns := conns[c := Gone(Ended)];
    }
  }
}
