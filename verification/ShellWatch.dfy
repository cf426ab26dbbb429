/** Sessions that are served: what their watcher guarantees, and tickets that close around their admission. */
module ShellWatch {
  import opened Events
  import opened ShellGate
  import E = Engine
  import R = EngineRuns

  // ---- What a survivor has shown ----

  lemma StepLooks(cfg: Config, g: Gate, step: Step, c: nat, book: ObjectId -> Event)
    requires Enabled(book, g, step)
    requires c in Do(cfg, g, step).conns && Do(cfg, g, step).conns[c].Looked? && Do(cfg, g, step).conns[c].works
    ensures c in g.conns && !g.conns[c].Gone? && g.conns[c].hs == Do(cfg, g, step).conns[c].hs
    ensures (g.conns[c] == Do(cfg, g, step).conns[c] && step != Look(c))
      || (step == Look(c) && Works(g.engine.cache, g.conns[c].hs.ticket))
  {
  }

  lemma LastLooks(book: ObjectId -> Event, cfg: Config, steps: seq<Step>, c: nat)
    requires Legal(book, cfg, steps)
    requires c in Run(cfg, steps).conns && Run(cfg, steps).conns[c].Looked? && Run(cfg, steps).conns[c].works
    ensures steps != [] && Legal(book, cfg, steps[..|steps| - 1])
    ensures var g, step, p := Run(cfg, steps[..|steps| - 1]), steps[|steps| - 1], Run(cfg, steps).conns[c];
      || (step == Look(c) && Works(g.engine.cache, p.hs.ticket))
      || (step != Look(c) && c in g.conns && g.conns[c] == p)
  {
    LegalFront(book, cfg, steps);
    StepLooks(cfg, Run(cfg, steps[..|steps| - 1]), steps[|steps| - 1], c, book);
  }

  /** The ticket as the watcher last re-read it still permitted work. */
  lemma {:induction false} LookedWorked(book: ObjectId -> Event, cfg: Config, steps: seq<Step>, c: nat) returns (l: nat)
    requires Legal(book, cfg, steps)
    requires c in Run(cfg, steps).conns && Run(cfg, steps).conns[c].Looked? && Run(cfg, steps).conns[c].works
    ensures l < |steps| && steps[l] == Look(c) && forall i :: l < i < |steps| ==> steps[i] != Look(c)
    ensures Works(Run(cfg, steps[..l]).engine.cache, Run(cfg, steps).conns[c].hs.ticket)
  {
    var n := |steps| - 1;
    LastLooks(book, cfg, steps, c);
    if steps[n] == Look(c) {
      l := n;
    } else {
      l := LookedWorked(book, cfg, steps[..n], c);
      assert steps[..n][..l] == steps[..l];
      NoLookSince(steps, steps[..n], l, c);
    }
  }

  lemma NoLookSince(steps: seq<Step>, front: seq<Step>, l: nat, c: nat)
    requires steps != [] && front == steps[..|steps| - 1] && steps[|steps| - 1] != Look(c)
    requires forall i :: l < i < |front| ==> front[i] != Look(c)
    ensures forall i :: l < i < |steps| ==> steps[i] != Look(c)
  {
    assert forall i :: 0 <= i < |front| ==> steps[i] == front[i];
  }

  lemma PollSpares(cfg: Config, g: Gate, c: nat)
    requires c in g.conns && g.conns[c].Looked? && !Do(cfg, g, Poll(c)).conns[c].Gone?
    ensures g.conns[c].works && g.now < g.conns[c].hs.expiresAt
  {
  }

  lemma PolledAlive(book: ObjectId -> Event, cfg: Config, steps: seq<Step>, k: nat, c: nat)
    requires Legal(book, cfg, steps) && k < |steps| && steps[k] == Poll(c)
    requires c in Run(cfg, steps).conns && !Run(cfg, steps).conns[c].Gone?
    ensures var g := Run(cfg, steps[..k]);
      && c in g.conns && g.conns[c].Looked? && g.conns[c].works
      && g.conns[c].hs == Run(cfg, steps).conns[c].hs && g.now < g.conns[c].hs.expiresAt
  {
    assert Enabled(book, Run(cfg, steps[..k]), steps[k]);
    RunStep(cfg, steps, k);
    NeverGoneBefore(book, cfg, steps, k, c);
    NeverGoneBefore(book, cfg, steps, k + 1, c);
    PollSpares(cfg, Run(cfg, steps[..k]), c);
  }

  /** In every run, a session that is not gone at the end had, at every poll of its watcher, an unexpired certificate,
      and a ticket that permitted work when the watcher last re-read it before that poll. */
  lemma SurvivorWasValid(book: ObjectId -> Event, cfg: Config, steps: seq<Step>, k: nat, c: nat) returns (l: nat)
    requires Legal(book, cfg, steps) && k < |steps| && steps[k] == Poll(c)
    requires c in Run(cfg, steps).conns && !Run(cfg, steps).conns[c].Gone?
    ensures l < k && steps[l] == Look(c) && forall i :: l < i < k ==> steps[i] != Look(c)
    ensures Works(Run(cfg, steps[..l]).engine.cache, Run(cfg, steps).conns[c].hs.ticket)
    ensures Run(cfg, steps[..k]).now < Run(cfg, steps).conns[c].hs.expiresAt
  {
    PolledAlive(book, cfg, steps, k, c);
    LegalUpTo(book, cfg, steps, k);
    l := LookedWorked(book, cfg, steps[..k], c);
    assert steps[..k][..l] == steps[..l];
    forall i | l < i < k ensures steps[i] != Look(c) { assert steps[..k][i] == steps[i]; }
  }

  // ---- Closing a ticket ----

  lemma ClosedNotWorking(s: E.Engine, t: string)
    requires R.ShownClosed(s, t)
    ensures !Works(s.cache, t)
  {
  }

  /** Once a ticket is shown closed, whatever happens next, no session of it outlives a round of its watcher. */
  lemma ClosedEndsSessions(book: ObjectId -> Event, cfg: Config, steps: seq<Step>, i: nat, l: nat, k: nat, c: nat)
    requires Legal(book, cfg, steps) && CleanRun(cfg, steps) && i <= l < k < |steps|
    requires steps[l] == Look(c) && steps[k] == Poll(c) && c in Run(cfg, steps).conns
    requires !Run(cfg, steps).conns[c].Gone?
    ensures !R.ShownClosed(Run(cfg, steps[..i]).engine, Run(cfg, steps).conns[c].hs.ticket)
  {
    var t := Run(cfg, steps).conns[c].hs.ticket;
    var last := SurvivorWasValid(book, cfg, steps, k, c);
    if R.ShownClosed(Run(cfg, steps[..i]).engine, t) {
      ClosedAt(book, cfg, steps, i, last, t);
      ClosedNotWorking(Run(cfg, steps[..last]).engine, t);
    }
  }

  /** Nor does any check for it succeed. */
  lemma ClosedFailsChecks(book: ObjectId -> Event, cfg: Config, steps: seq<Step>, i: nat, k: nat, c: nat)
    requires Legal(book, cfg, steps) && CleanRun(cfg, steps) && i <= k < |steps| && steps[k] == Check(c)
    requires c in Run(cfg, steps[..k]).conns && Run(cfg, steps[..k]).conns[c].Vetted?
    requires R.ShownClosed(Run(cfg, steps[..i]).engine, Run(cfg, steps[..k]).conns[c].hs.ticket)
    ensures c in Run(cfg, steps[..k + 1]).conns && Run(cfg, steps[..k + 1]).conns[c].Gone?
  {
    var g := Run(cfg, steps[..k]);
    ClosedAt(book, cfg, steps, i, k, g.conns[c].hs.ticket);
    RunStep(cfg, steps, k);
    DecideIff(cfg, g.engine.cache, g.conns[c].hs, g.conns[c].valid);
  }

  // ---- Closing between the check and the answer ----

  lemma RunSnoc(book: ObjectId -> Event, cfg: Config, steps: seq<Step>, x: Step)
    requires Legal(book, cfg, steps) && Enabled(book, Run(cfg, steps), x)
    ensures Legal(book, cfg, steps + [x]) && Run(cfg, steps + [x]) == Do(cfg, Run(cfg, steps), x)
  {
    var all := steps + [x];
    assert all[..|steps|] == steps;
    forall i | 0 <= i < |all| ensures i < |steps| ==> all[..i] == steps[..i] && all[i] == steps[i] {}
  }

  lemma ClaimAndAnswer(cfg: Config, g: Gate, c: nat, hs: Handshake)
    requires c in g.conns && g.conns[c] == Checked(hs) && !g.active
    ensures var g' := Do(cfg, Do(cfg, g, Claim(c)), Answer(c, true));
      g' == g.(active := true, conns := g.conns[c := Serving(hs)])
  {
    var g1 := Do(cfg, g, Claim(c));
    assert g1 == g.(active := true, conns := g.conns[c := Claimed(hs)]);
    assert g1.conns[c := Serving(hs)] == g.conns[c := Serving(hs)];
  }

  /** The ticket is read once, before the flag is claimed: from every point of a run where a connection has passed its
      check and the flag is free, an engine step that closes its ticket does not keep it from being served. */
  lemma ServedOnClosedTicket(book: ObjectId -> Event, cfg: Config, steps: seq<Step>, s: E.Step, c: nat, hs: Handshake)
    requires Legal(book, cfg, steps) && c in Run(cfg, steps).conns && Run(cfg, steps).conns[c] == Checked(hs)
    requires !Run(cfg, steps).active && E.Enabled(book, Run(cfg, steps).engine, s) && !s.Restart?
    requires R.ShownClosed(E.Do(Run(cfg, steps).engine, s), hs.ticket)
    ensures var all := steps + [EngineStep(s)] + [Claim(c)] + [Answer(c, true)];
      && Legal(book, cfg, all) && c in Run(cfg, all).conns && Run(cfg, all).conns[c] == Serving(hs)
      && R.ShownClosed(Run(cfg, all).engine, hs.ticket)
  {
    var one := steps + [EngineStep(s)];
    var two := one + [Claim(c)];
    RunSnoc(book, cfg, steps, EngineStep(s));
    RunSnoc(book, cfg, one, Claim(c));
    RunSnoc(book, cfg, two, Answer(c, true));
    ClaimAndAnswer(cfg, Run(cfg, one), c, hs);
  }

  /** Whether the ticket was shown closed, after each number of steps. */
  ghost function History(cfg: Config, steps: seq<Step>, t: string): (h: seq<bool>)
    ensures |h| == |steps| + 1
  {
    (if steps == [] then [] else History(cfg, steps[..|steps| - 1], t)) + [R.ShownClosed(Run(cfg, steps).engine, t)]
  }

  lemma {:induction false} HistoryAt(cfg: Config, steps: seq<Step>, t: string, i: nat)
    requires i <= |steps|
    ensures History(cfg, steps, t)[i] <==> R.ShownClosed(Run(cfg, steps[..i]).engine, t)
    decreases |steps|
  {
    if i == |steps| {
      assert steps[..i] == steps;
    } else {
      var front := steps[..|steps| - 1];
      HistoryAt(cfg, front, t, i);
      assert front[..i] == steps[..i];
    }
  }

  lemma HistoryStays(book: ObjectId -> Event, cfg: Config, steps: seq<Step>, t: string, i: nat, j: nat)
    requires Legal(book, cfg, steps) && CleanRun(cfg, steps) && i <= j <= |steps| && History(cfg, steps, t)[i]
    ensures History(cfg, steps, t)[j]
  {
    HistoryAt(cfg, steps, t, i);
    HistoryAt(cfg, steps, t, j);
    ClosedAt(book, cfg, steps, i, j, t);
  }

  lemma HistoryMoves(cfg: Config, steps: seq<Step>, t: string, i: nat)
    requires i < |steps| && !steps[i].EngineStep?
    ensures History(cfg, steps, t)[i + 1] == History(cfg, steps, t)[i]
  {
    HistoryAt(cfg, steps, t, i);
    HistoryAt(cfg, steps, t, i + 1);
    RunStep(cfg, steps, i);
    StepEngine(cfg, Run(cfg, steps[..i]), steps[i]);
  }

  /** Some engine step strictly between the two closes the ticket. */
  ghost predicate ClosedBetween(h: seq<bool>, steps: seq<Step>, k: nat, j: nat)
    requires k < j < |steps| && |h| == |steps| + 1
  {
    exists i :: k < i < j && steps[i].EngineStep? && !h[i] && h[i + 1]
  }

  lemma {:induction false} SomeStepCloses(h: seq<bool>, steps: seq<Step>, a: nat, b: nat) returns (i: nat)
    requires |h| == |steps| + 1 && a <= b <= |steps| && !h[a] && h[b]
    requires forall n :: 0 <= n < |steps| && !steps[n].EngineStep? ==> h[n + 1] == h[n]
    ensures a <= i < b && steps[i].EngineStep? && !h[i] && h[i + 1]
    decreases b
  {
    i := b - 1;
    if h[i] { i := SomeStepCloses(h, steps, a, b - 1); }
  }

  lemma ClosedBetweenIff(h: seq<bool>, steps: seq<Step>, k: nat, j: nat)
    requires k < j < |steps| && |h| == |steps| + 1 && !h[k + 1] && !steps[j].EngineStep?
    requires forall n :: 0 <= n < |steps| && !steps[n].EngineStep? ==> h[n + 1] == h[n]
    requires forall a, b :: 0 <= a <= b <= |steps| && h[a] ==> h[b]
    ensures h[j + 1] <==> ClosedBetween(h, steps, k, j)
  {
    if h[j + 1] {
      var i := SomeStepCloses(h, steps, k + 1, j + 1);
    }
  }

  /** Step `k` is the check that the connection passes. */
  ghost predicate PassesAt(cfg: Config, steps: seq<Step>, k: nat, c: nat, hs: Handshake)
    requires k < |steps|
  {
    && steps[k] == Check(c) && c in Run(cfg, steps[..k]).conns
    && Run(cfg, steps[..k]).conns[c] == Vetted(hs, true) && InOrder(cfg, Run(cfg, steps[..k]).engine.cache, hs)
  }

  lemma PassedIsOpen(cfg: Config, steps: seq<Step>, k: nat, c: nat, hs: Handshake)
    requires k < |steps| && PassesAt(cfg, steps, k, c, hs)
    ensures !History(cfg, steps, hs.ticket)[k + 1]
  {
    HistoryAt(cfg, steps, hs.ticket, k);
    HistoryMoves(cfg, steps, hs.ticket, k);
  }

  /** Exactly then: a session whose check passed at one step of a run and whose answer goes out at a later one is served
      on a closed ticket if and only if some engine step in between closed it. */
  lemma ServedOnClosedIff(book: ObjectId -> Event, cfg: Config, steps: seq<Step>, k: nat, j: nat, c: nat, hs: Handshake)
    requires Legal(book, cfg, steps) && CleanRun(cfg, steps) && k < j < |steps|
    requires PassesAt(cfg, steps, k, c, hs) && steps[j] == Answer(c, true)
    ensures History(cfg, steps, hs.ticket)[j + 1] <==> ClosedBetween(History(cfg, steps, hs.ticket), steps, k, j)
  {
    PassedIsOpen(cfg, steps, k, c, hs);
    ClosedSince(book, cfg, steps, k, j, hs.ticket);
  }

  lemma ClosedSince(book: ObjectId -> Event, cfg: Config, steps: seq<Step>, k: nat, j: nat, t: string)
    requires Legal(book, cfg, steps) && CleanRun(cfg, steps) && k < j < |steps| && !steps[j].EngineStep?
    requires !History(cfg, steps, t)[k + 1]
    ensures History(cfg, steps, t)[j + 1] <==> ClosedBetween(History(cfg, steps, t), steps, k, j)
  {
    var h := History(cfg, steps, t);
    forall n | 0 <= n < |steps| && !steps[n].EngineStep? ensures h[n + 1] == h[n] {
      HistoryMoves(cfg, steps, t, n);
    }
    forall a, b | 0 <= a <= b <= |steps| && h[a] ensures h[b] {
      HistoryStays(book, cfg, steps, t, a, b);
    }
    ClosedBetweenIff(h, steps, k, j);
  }
}
