/** The files a ticket really keeps, against the bytes its records count. */
module KeptFiles {
  import opened Events
  import opened Reducer
  import opened ReducerLaws
  import opened FileQuota

  // ---- Bytes of a directory ----

  ghost function Total(folder: Folder): nat
    decreases |folder|
  {
    if folder == map[] then 0 else
      var f :| f in folder;
      folder[f] + Total(folder - {f})
  }

  lemma {:induction false} TotalPick(folder: Folder, f: File)
    requires f in folder
    ensures Total(folder) == folder[f] + Total(folder - {f})
    decreases |folder|
  {
    var k :| k in folder && Total(folder) == folder[k] + Total(folder - {k});
    if k != f {
      TotalPick(folder - {k}, f);
      TotalPick(folder - {f}, k);
      assert folder - {k} - {f} == folder - {f} - {k};
    }
  }

  /** What the name held before, 0 when it was free. */
  function Displaced(folder: Folder, f: File): nat {
    if f in folder then folder[f] else 0
  }

  /** Renaming a file into place replaces what had its name. */
  lemma TotalPut(folder: Folder, f: File, size: nat)
    ensures Total(folder[f := size]) + Displaced(folder, f) == Total(folder) + size
  {
    var after := folder[f := size];
    TotalPick(after, f);
    assert after - {f} == folder - {f};
    if f in folder {
      TotalPick(folder, f);
    } else {
      assert folder - {f} == folder;
    }
  }

  /** The bytes of the ticket's received files on disk. */
  ghost function Kept(n: Node, t: string): nat {
    Total(FolderOf(n.disk, t))
  }

  // ---- Whatever is on disk has a record ----

  predicate Recorded(store: Tickets, t: string, id: string) {
    t in store && exists m :: m in store[t].attachments && m.id == id
  }

  ghost predicate Filed(n: Node) {
    && (forall t, f :: f in FolderOf(n.disk, t) ==> Recorded(n.store, t, f.id))
    && (forall s :: s in n.slots && n.slots[s].Admitted? ==> n.slots[s].ticket in n.store)
  }

  lemma ApplyKeepsRecords(store: Tickets, e: Event)
    ensures forall t :: t in store ==> t in Apply(store, e)
    ensures forall t, id :: Recorded(store, t, id) ==> Recorded(Apply(store, e), t, id)
  {
  }

  lemma RecordIsRecorded(store: Tickets, e: Event, x: Transfer)
    requires Records(e, x) && x.ticket in store
    ensures Recorded(Apply(store, e), x.ticket, x.fileId)
  {
    if TakesUp(store, e) {
      var after := Apply(store, e)[x.ticket].attachments;
      assert after[|after| - 1].id == x.fileId;
    }
  }

  lemma RecordKeepsFiled(n: Node, s: nat, e: Event)
    requires Filed(n) && Enabled(n, Record(s, e))
    ensures Filed(Do(n, Record(s, e)))
  {
    var n' := Do(n, Record(s, e));
    ApplyKeepsRecords(n.store, e);
    RecordIsRecorded(n.store, e, n.slots[s]);
    forall t, f | f in FolderOf(n'.disk, t) ensures Recorded(n'.store, t, f.id) {
      assert f in FolderOf(n.disk, t) || (t == n.slots[s].ticket && f.id == n.slots[s].fileId);
    }
  }

  lemma DiscardKeepsFiled(n: Node, s: nat)
    requires Filed(n) && Enabled(n, Discard(s))
    ensures Filed(Do(n, Discard(s)))
  {
    var n' := Do(n, Discard(s));
    forall t, f | f in FolderOf(n'.disk, t) ensures Recorded(n'.store, t, f.id) {
      assert f in FolderOf(n.disk, t);
    }
  }

  lemma StepKeepsFiled(n: Node, step: Step)
    requires Filed(n) && Enabled(n, step)
    ensures Filed(Do(n, step))
  {
    match step {
      case Record(s, e) => RecordKeepsFiled(n, s, e);
      case Discard(s) => DiscardKeepsFiled(n, s);
      case Local(e) => ApplyKeepsRecords(n.store, e);
      case _ =>
    }
  }

  lemma {:induction false} RunKeepsFiled(steps: seq<Step>)
    requires Legal(steps)
    ensures Filed(Run(steps))
  {
    if steps != [] {
      var n := |steps| - 1;
      RunKeepsFiled(steps[..n]);
      StepKeepsFiled(Run(steps[..n]), steps[n]);
    }
  }

  // ---- When the records count what is kept ----

  /** The completed file is new to the ticket's records, or has the size of what its name held before; one that is
      deleted again had displaced nothing. */
  predicate Regular(n: Node, step: Step)
    requires (step.Record? || step.Discard?) && step.slot in n.slots && n.slots[step.slot].Admitted?
  {
    var x := n.slots[step.slot];
    var before := Displaced(FolderOf(n.disk, x.ticket), File(x.fileId, x.name));
    if step.Discard? then before == 0 else TakesUp(n.store, step.e) || before == x.size
  }

  /** The step completes a file of the ticket. */
  predicate Completes(n: Node, step: Step, t: string) {
    && (step.Record? || step.Discard?)
    && step.slot in n.slots && n.slots[step.slot].Admitted? && n.slots[step.slot].ticket == t
  }

  lemma RecordMovesBothIff(n: Node, s: nat, e: Event)
    requires Filed(n) && Enabled(n, Record(s, e))
    ensures var n', t := Do(n, Record(s, e)), n.slots[s].ticket;
      Kept(n', t) - Kept(n, t) == Received(n', t) - Received(n, t) <==> Regular(n, Record(s, e))
  {
    var x := n.slots[s];
    var folder, f := FolderOf(n.disk, x.ticket), File(x.fileId, x.name);
    TotalPut(folder, f, x.size);
    if TakesUp(n.store, e) { assert f !in folder; }
  }

  lemma DiscardMovesBothIff(n: Node, s: nat)
    requires Enabled(n, Discard(s))
    ensures var n', t := Do(n, Discard(s)), n.slots[s].ticket;
      Kept(n', t) - Kept(n, t) == Received(n', t) - Received(n, t) <==> Regular(n, Discard(s))
  {
    var x := n.slots[s];
    var folder, f := FolderOf(n.disk, x.ticket), File(x.fileId, x.name);
    if f in folder {
      TotalPick(folder, f);
    } else {
      assert folder - {f} == folder;
    }
  }

  lemma StepMovesBothIff(n: Node, step: Step, t: string)
    requires Filed(n) && Enabled(n, step)
    ensures Kept(Do(n, step), t) - Kept(n, t) == Received(Do(n, step), t) - Received(n, t)
      <==> (Completes(n, step, t) ==> Regular(n, step))
  {
    if Completes(n, step, t) {
      if step.Record? { RecordMovesBothIff(n, step.slot, step.e); } else { DiscardMovesBothIff(n, step.slot); }
    }
  }

  /** The ticket keeps exactly the bytes its records count. */
  ghost predicate Agrees(n: Node, t: string) {
    Kept(n, t) == Received(n, t)
  }

  /** The two agree at every point of the run. */
  ghost predicate BooksAgree(steps: seq<Step>, t: string) {
    Agrees(Run(steps), t) && (steps != [] ==> BooksAgree(steps[..|steps| - 1], t))
  }

  /** Every file completed for the ticket was regular. */
  ghost predicate AllRegular(steps: seq<Step>, t: string) {
    steps != [] ==>
      var front, step := steps[..|steps| - 1], steps[|steps| - 1];
      AllRegular(front, t) && (Completes(Run(front), step, t) ==> Regular(Run(front), step))
  }

  lemma LastAgreesIff(steps: seq<Step>, t: string)
    requires steps != [] && Legal(steps) && Agrees(Run(steps[..|steps| - 1]), t)
    ensures var front, step := steps[..|steps| - 1], steps[|steps| - 1];
      Agrees(Run(steps), t) <==> (Completes(Run(front), step, t) ==> Regular(Run(front), step))
  {
    RunKeepsFiled(steps[..|steps| - 1]);
    StepMovesBothIff(Run(steps[..|steps| - 1]), steps[|steps| - 1], t);
  }

  /** The quota check counts records, not files: the two agree throughout a run exactly when no file is completed
      under an id that is already recorded, unless it has the size of what its name held before, and none that is
      deleted again had displaced another. */
  lemma {:induction false} BooksAgreeIff(steps: seq<Step>, t: string)
    requires Legal(steps)
    ensures BooksAgree(steps, t) <==> AllRegular(steps, t)
  {
    if steps == [] {
      assert Kept(IDLE, t) == 0;
    } else {
      BooksAgreeIff(steps[..|steps| - 1], t);
      if BooksAgree(steps[..|steps| - 1], t) { LastAgreesIff(steps, t); }
    }
  }

  /** In such runs the files kept and the bytes in flight exceed the quota by at most one file. */
  lemma KeptQuotaHolds(steps: seq<Step>, t: string)
    requires Legal(steps) && AllRegular(steps, t)
    ensures Kept(Run(steps), t) + InFlight(Run(steps).slots, t)
         <= MAX_TICKET_STORAGE + (MAX_PARALLEL_FILES - 1) * MAX_FILE_SIZE
  {
    BooksAgreeIff(steps, t);
    QuotaHolds(steps, t);
  }

  function Least(a: int, b: int): int {
    if a < b then a else b
  }

  /** One admission stays within the quota, counting every file in full, exactly when the records already exceed it,
      so that nothing is admitted, or there is room on disk for the largest file the check lets through. */
  lemma AdmissionKeepsQuotaIff(n: Node, t: string)
    requires t in n.store && n.store[t].record.state.PermitsWork()
    ensures (forall size :: Admissible(n.store, t, size, true)
               ==> Kept(n, t) + InFlight(n.slots, t) + size <= MAX_TICKET_STORAGE)
      <==> Stored(n.store, t) > MAX_TICKET_STORAGE
           || Kept(n, t) + InFlight(n.slots, t) + Least(MAX_FILE_SIZE, MAX_TICKET_STORAGE - Stored(n.store, t))
                <= MAX_TICKET_STORAGE
  {
    if Stored(n.store, t) <= MAX_TICKET_STORAGE {
      var largest: nat := Least(MAX_FILE_SIZE, MAX_TICKET_STORAGE - Stored(n.store, t));
      assert Admissible(n.store, t, largest, true);
    }
  }

  // ---- Without regularity there is no bound ----

  /** The files named are kept under one id, all of the largest size, and at most the first is recorded. */
  ghost predicate Piled(n: Node, t: string, id: string, names: set<string>) {
    && n.slots == map[] && t in n.store && n.store[t].record.state.PermitsWork()
    && Kept(n, t) == |names| * MAX_FILE_SIZE && (forall f :: f in FolderOf(n.disk, t) ==> f.name in names)
    && (if names == {} then n.store[t].attachments == []
        else Recorded(n.store, t, id) && Stored(n.store, t) == MAX_FILE_SIZE)
  }

  lemma PiledAdmits(n: Node, t: string, id: string, names: set<string>)
    requires Piled(n, t, id, names)
    ensures Admissible(n.store, t, MAX_FILE_SIZE, true)
  {
  }

  lemma OneAttachmentState(store: Tickets, e: Event, t: string)
    requires t in store && Attaches(e, t)
    ensures t in Apply(store, e) && Apply(store, e)[t].record.state == store[t].record.state
  {
  }

  lemma CopyApplied(n: Node, t: string, id: string, names: set<string>, name: string)
    requires Piled(n, t, id, names)
    ensures var store := Apply(n.store, FileEvent(t, id, name));
      && t in store && store[t].record.state == n.store[t].record.state
      && Recorded(store, t, id) && Stored(store, t) == MAX_FILE_SIZE
  {
    var e := FileEvent(t, id, name);
    ApplyStores(n.store, e, t);
    RecordIsRecorded(n.store, e, Admitted(t, id, name, MAX_FILE_SIZE));
    OneAttachmentState(n.store, e, t);
  }

  lemma CopyPiles(n: Node, t: string, id: string, names: set<string>, name: string)
    requires Piled(n, t, id, names) && name !in names
    ensures var n1, e := n.(slots := map[0 := Admitted(t, id, name, MAX_FILE_SIZE)]), FileEvent(t, id, name);
      Enabled(n1, Record(0, e)) && Piled(Do(n1, Record(0, e)), t, id, names + {name})
  {
    var folder, f := FolderOf(n.disk, t), File(id, name);
    assert f !in folder;
    TotalPut(folder, f, MAX_FILE_SIZE);
    CopyApplied(n, t, id, names, name);
    assert |names + {name}| == |names| + 1;
    OneMore(|names|, MAX_FILE_SIZE);
  }

  lemma OneMoreCopy(steps: seq<Step>, t: string, id: string, names: set<string>, name: string)
    returns (more: seq<Step>)
    requires Legal(steps) && Piled(Run(steps), t, id, names) && name !in names
    ensures Legal(more) && Piled(Run(more), t, id, names + {name})
  {
    var n, e := Run(steps), FileEvent(t, id, name);
    PiledAdmits(n, t, id, names);
    var front := ReceiveOne(steps, t, id, name);
    more := front + [Record(0, e)];
    Snoc(front, Record(0, e));
    CopyPiles(n, t, id, names, name);
  }

  lemma NothingPiled(c: Event, t: string, id: string)
    requires Creates(c, t)
    ensures Piled(Do(IDLE, Local(c)), t, id, {})
  {
    assert Apply(map[], c)[t] == Opened(c, c.payload.event);
  }

  lemma CountsOne(n: Node, t: string, id: string, names: set<string>)
    requires Piled(n, t, id, names)
    ensures Kept(n, t) == |names| * MAX_FILE_SIZE && Stored(n.store, t) <= MAX_FILE_SIZE
  {
  }

  /** Files that reuse a recorded id under new names are kept but not counted: for any file id and any finite set of
      filenames there is a run after which a ticket keeps a file of the largest size for each name, while its records
      count at most one. */
  lemma {:induction false} KeptForAnyNames(c: Event, t: string, id: string, names: set<string>)
    returns (steps: seq<Step>)
    requires Creates(c, t)
    ensures Legal(steps) && Piled(Run(steps), t, id, names)
    ensures Kept(Run(steps), t) == |names| * MAX_FILE_SIZE && Stored(Run(steps).store, t) <= MAX_FILE_SIZE
    decreases |names|
  {
    if names == {} {
      steps := JustCreated(c);
      NothingPiled(c, t, id);
    } else {
      var name :| name in names;
      var front := KeptForAnyNames(c, t, id, names - {name});
      steps := OneMoreCopy(front, t, id, names - {name}, name);
      assert names - {name} + {name} == names;
    }
    CountsOne(Run(steps), t, id, names);
  }
}
