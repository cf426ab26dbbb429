/** The storage quota of a ticket under parallel incoming transfers. */
module FileQuota {
  import opened Events
  import opened Reducer
  import opened ReducerLaws

  const MAX_FILE_SIZE: nat := 50 * 1024 * 1024
  const MAX_TICKET_STORAGE: nat := 500 * 1024 * 1024
  const MAX_PARALLEL_FILES: nat := 2

  /** A handler that holds a slot: still reading its offer, or admitted and receiving. */
  datatype Transfer = Waiting | Admitted(ticket: string, fileId: string, name: string, size: nat)

  /** The name of a received file on disk: its id and its cleaned filename. */
  datatype File = File(id: string, name: string)

  /** The sizes of the files in a ticket's directory. */
  type Folder = map<File, nat>

  /** `disk` has the received files of each ticket; `received` counts, per ticket, the bytes of the attachments that
      incoming transfers have recorded. */
  datatype Node = Node(store: Tickets, slots: map<nat, Transfer>, disk: map<string, Folder>, received: map<string, nat>)

  const IDLE := Node(map[], map[], map[], map[])

  datatype Step =
    | Connect(slot: nat)                            // takes a permit if there is one
    | Offer(slot: nat, ticket: string, fileId: string, name: string, size: nat, trusted: bool)
                                                    // the admission checks
    | Record(slot: nat, e: Event)                   // the file is complete: it is renamed into place and recorded
    | Discard(slot: nat)                            // recording failed: the file just put into place is deleted
    | Abort(slot: nat)                              // any earlier failure releases the permit
    | Local(e: Event)                               // any other local append

  function Sizes(xs: seq<Attachment>): nat {
    if xs == [] then 0 else Sizes(xs[..|xs| - 1]) + xs[|xs| - 1].sizeBytes
  }

  /** The bytes the admission check counts as stored. */
  function Stored(store: Tickets, t: string): nat {
    if t in store then Sizes(store[t].attachments) else 0
  }

  function Received(n: Node, t: string): nat {
    if t in n.received then n.received[t] else 0
  }

  function FolderOf(disk: map<string, Folder>, t: string): Folder {
    if t in disk then disk[t] else map[]
  }

  predicate Admissible(store: Tickets, t: string, size: nat, trusted: bool) {
    && t in store && trusted && store[t].record.state.PermitsWork()
    && size <= MAX_FILE_SIZE
    && Stored(store, t) + size <= MAX_TICKET_STORAGE
  }

  /** The event records exactly the admitted file. */
  predicate Records(e: Event, x: Transfer) {
    && x.Admitted? && Attaches(e, x.ticket)
    && e.payload.event.attachmentId == x.fileId && e.payload.event.filename == x.name
    && e.payload.event.sizeBytes == x.size
  }

  /** The reducer takes the attachment up: the ticket exists and the id is new. */
  predicate TakesUp(store: Tickets, e: Event) {
    && e.payload.Ticket? && e.payload.event.AttachmentAdded? && e.payload.event.ticketId in store
    && !exists m :: m in store[e.payload.event.ticketId].attachments && m.id == e.payload.event.attachmentId
  }

  function Do(n: Node, step: Step): Node {
    match step
    case Connect(s) => if |n.slots| < MAX_PARALLEL_FILES then n.(slots := n.slots[s := Waiting]) else n
    case Offer(s, t, fileId, name, size, trusted) =>
      if Admissible(n.store, t, size, trusted)
      then n.(slots := n.slots[s := Admitted(t, fileId, name, size)])
      else n.(slots := n.slots - {s})
    case Record(s, e) =>
      if s !in n.slots || !n.slots[s].Admitted? then n else
        var x := n.slots[s];
        n.(store := Apply(n.store, e), slots := n.slots - {s},
           disk := n.disk[x.ticket := FolderOf(n.disk, x.ticket)[File(x.fileId, x.name) := x.size]],
           received := if TakesUp(n.store, e)
                       then n.received[x.ticket := Received(n, x.ticket) + x.size] else n.received)
    case Discard(s) =>
      if s !in n.slots || !n.slots[s].Admitted? then n else
        var x := n.slots[s];
        n.(slots := n.slots - {s},
           disk := n.disk[x.ticket := FolderOf(n.disk, x.ticket) - {File(x.fileId, x.name)}])
    case Abort(s) => n.(slots := n.slots - {s})
    case Local(e) => n.(store := Apply(n.store, e))
  }

  predicate Enabled(n: Node, step: Step) {
    match step
    case Connect(s) => s !in n.slots
    case Offer(s, _, _, _, _, _) => s in n.slots && n.slots[s].Waiting?
    case Record(s, e) => s in n.slots && Records(e, n.slots[s])
    case Discard(s) => s in n.slots && n.slots[s].Admitted?
    case Abort(s) => s in n.slots
    case Local(_) => true
  }

  function Weight(x: Transfer, t: string): nat {
    if x.Admitted? && x.ticket == t then x.size else 0
  }

  /** The bytes of the ticket that are admitted and still in flight. */
  ghost function InFlight(slots: map<nat, Transfer>, t: string): nat
    decreases |slots|
  {
    if slots == map[] then 0 else
      var s :| s in slots;
      Weight(slots[s], t) + InFlight(slots - {s}, t)
  }

  lemma {:induction false} InFlightPick(slots: map<nat, Transfer>, s: nat, t: string)
    requires s in slots
    ensures InFlight(slots, t) == Weight(slots[s], t) + InFlight(slots - {s}, t)
    decreases |slots|
  {
    var k :| k in slots && InFlight(slots, t) == Weight(slots[k], t) + InFlight(slots - {k}, t);
    if k != s {
      InFlightPick(slots - {k}, s, t);
      InFlightPick(slots - {s}, k, t);
      assert slots - {k} - {s} == slots - {s} - {k};
    }
  }

  lemma DropSize(slots: map<nat, Transfer>, s: nat)
    requires s in slots
    ensures |slots - {s}| == |slots| - 1
  {
    assert (slots - {s}).Keys == slots.Keys - {s};
  }

  lemma OneMore(n: nat, cap: nat)
    ensures (n + 1) * cap == n * cap + cap
  {
  }

  lemma {:induction false} InFlightBound(slots: map<nat, Transfer>, t: string, cap: nat)
    requires forall s :: s in slots ==> Weight(slots[s], t) <= cap
    ensures InFlight(slots, t) <= |slots| * cap
    decreases |slots|
  {
    if slots != map[] {
      var s :| s in slots;
      var rest := slots - {s};
      InFlightPick(slots, s, t);
      DropSize(slots, s);
      InFlightBound(rest, t, cap);
      OneMore(|rest|, cap);
    }
  }

  // ---- What every step keeps ----

  const BOUND: nat := MAX_TICKET_STORAGE + (MAX_PARALLEL_FILES - 1) * MAX_FILE_SIZE

  ghost predicate Inv(n: Node) {
    && |n.slots| <= MAX_PARALLEL_FILES
    && (forall s :: s in n.slots && n.slots[s].Admitted? ==> n.slots[s].size <= MAX_FILE_SIZE)
    && (forall t :: Received(n, t) <= Stored(n.store, t))
    && (forall t :: Received(n, t) + InFlight(n.slots, t) <= BOUND)
  }

  lemma SizesSnoc(xs: seq<Attachment>, x: Attachment)
    ensures Sizes(xs + [x]) == Sizes(xs) + x.sizeBytes
  {
    assert (xs + [x])[..|xs|] == xs;
  }

  /** Stored bytes grow exactly by what the reducer takes up. */
  lemma ApplyStores(store: Tickets, e: Event, t: string)
    ensures Stored(Apply(store, e), t) == Stored(store, t)
      + if Attaches(e, t) && TakesUp(store, e) then e.payload.event.sizeBytes else 0
  {
    if Attaches(e, t) && TakesUp(store, e) {
      var te := e.payload.event;
      SizesSnoc(store[t].attachments, Attachment(te.attachmentId, t, te.senderPeerId, te.filename, te.sizeBytes,
                                                 te.sha256, te.localPath, te.at, "AVAILABLE"));
    }
  }

  /** What the other slots have in flight. */
  lemma OthersBound(n: Node, s: nat, t: string)
    requires Inv(n) && s in n.slots
    ensures InFlight(n.slots - {s}, t) <= (MAX_PARALLEL_FILES - 1) * MAX_FILE_SIZE
  {
    DropSize(n.slots, s);
    InFlightBound(n.slots - {s}, t, MAX_FILE_SIZE);
  }

  lemma OfferKeepsBound(n: Node, s: nat, x: Transfer, t: string)
    requires Inv(n) && s in n.slots && n.slots[s].Waiting?
    requires x.Admitted? && Admissible(n.store, x.ticket, x.size, true)
    ensures Received(n, t) + InFlight(n.slots[s := x], t) <= BOUND
  {
    var slots := n.slots[s := x];
    assert slots - {s} == n.slots - {s};
    InFlightPick(n.slots, s, t);
    InFlightPick(slots, s, t);
    OthersBound(n, s, t);
  }

  lemma OfferKeepsInv(n: Node, s: nat, x: Transfer)
    requires Inv(n) && s in n.slots && n.slots[s].Waiting?
    requires x.Admitted? && Admissible(n.store, x.ticket, x.size, true)
    ensures Inv(n.(slots := n.slots[s := x]))
  {
    var n' := n.(slots := n.slots[s := x]);
    forall t ensures Received(n', t) <= Stored(n'.store, t) && Received(n', t) + InFlight(n'.slots, t) <= BOUND {
      assert Received(n', t) == Received(n, t);
      OfferKeepsBound(n, s, x, t);
    }
    assert n'.slots.Keys == n.slots.Keys;
    assert |n'.slots| == |n'.slots.Keys| == |n.slots.Keys| == |n.slots|;
  }

  lemma ConnectKeepsInv(n: Node, s: nat)
    requires Inv(n) && s !in n.slots && |n.slots| < MAX_PARALLEL_FILES
    ensures Inv(n.(slots := n.slots[s := Waiting]))
  {
    var slots := n.slots[s := Waiting];
    assert slots - {s} == n.slots;
    DropSize(slots, s);
    forall t ensures InFlight(slots, t) == InFlight(n.slots, t) {
      InFlightPick(slots, s, t);
    }
    forall k | k in slots && slots[k].Admitted? ensures slots[k].size <= MAX_FILE_SIZE {
      assert slots[k] == n.slots[k];
    }
  }

  lemma ReleaseKeepsInv(n: Node, s: nat)
    requires Inv(n) && s in n.slots
    ensures Inv(n.(slots := n.slots - {s}))
  {
    DropSize(n.slots, s);
    forall t ensures InFlight(n.slots - {s}, t) <= InFlight(n.slots, t) { InFlightPick(n.slots, s, t); }
  }

  lemma DiscardKeepsInv(n: Node, s: nat)
    requires Inv(n) && Enabled(n, Discard(s))
    ensures Inv(Do(n, Discard(s)))
  {
    ReleaseKeepsInv(n, s);
    var n', n1 := Do(n, Discard(s)), n.(slots := n.slots - {s});
    forall t ensures Received(n', t) == Received(n1, t) {}
  }

  lemma RecordKeepsInv(n: Node, s: nat, e: Event)
    requires Inv(n) && Enabled(n, Record(s, e))
    ensures Inv(Do(n, Record(s, e)))
  {
    var n' := Do(n, Record(s, e));
    ReleaseKeepsInv(n, s);
    forall t
      ensures Received(n', t) <= Stored(n'.store, t) && Received(n', t) + InFlight(n'.slots, t) <= BOUND
    {
      ApplyStores(n.store, e, t);
      InFlightPick(n.slots, s, t);
      assert Received(n, t) + InFlight(n.slots, t) <= BOUND;
    }
  }

  lemma StepKeepsInv(n: Node, step: Step)
    requires Inv(n) && Enabled(n, step)
    ensures Inv(Do(n, step))
  {
    match step {
      case Connect(s) =>
        if |n.slots| < MAX_PARALLEL_FILES { ConnectKeepsInv(n, s); }
      case Offer(s, t0, fileId, name, size, trusted) =>
        if Admissible(n.store, t0, size, trusted) {
          OfferKeepsInv(n, s, Admitted(t0, fileId, name, size));
        } else {
          ReleaseKeepsInv(n, s);
        }
      case Record(s, e) => RecordKeepsInv(n, s, e);
      case Discard(s) => DiscardKeepsInv(n, s);
      case Abort(s) => ReleaseKeepsInv(n, s);
      case Local(e) => LocalKeepsInv(n, e);
    }
  }

  lemma LocalKeepsInv(n: Node, e: Event)
    requires Inv(n)
    ensures Inv(Do(n, Local(e)))
  {
    var n' := Do(n, Local(e));
    forall t ensures Received(n', t) == Received(n, t) <= Stored(n'.store, t) { ApplyStores(n.store, e, t); }
  }

  // ---- Runs ----

  function Run(steps: seq<Step>): Node {
    if steps == [] then IDLE else Do(Run(steps[..|steps| - 1]), steps[|steps| - 1])
  }

  predicate Legal(steps: seq<Step>) {
    steps == [] || (Legal(steps[..|steps| - 1]) && Enabled(Run(steps[..|steps| - 1]), steps[|steps| - 1]))
  }

  lemma {:induction false} RunKeepsInv(steps: seq<Step>)
    requires Legal(steps)
    ensures Inv(Run(steps))
  {
    if steps != [] {
      var n := |steps| - 1;
      RunKeepsInv(steps[..n]);
      StepKeepsInv(Run(steps[..n]), steps[n]);
    }
  }

  /** In every interleaving of transfers and local appends, the recorded bytes that a ticket received together with
      the admitted bytes in flight exceed the quota by at most one file. */
  lemma QuotaHolds(steps: seq<Step>, t: string)
    requires Legal(steps)
    ensures Received(Run(steps), t) + InFlight(Run(steps).slots, t)
         <= MAX_TICKET_STORAGE + (MAX_PARALLEL_FILES - 1) * MAX_FILE_SIZE
  {
    RunKeepsInv(steps);
  }

  // ---- The bound is reached ----

  lemma Snoc(steps: seq<Step>, x: Step)
    ensures Run(steps + [x]) == Do(Run(steps), x)
    ensures Legal(steps + [x]) <==> Legal(steps) && Enabled(Run(steps), x)
  {
    assert (steps + [x])[..|steps|] == steps;
  }

  predicate Distinct(ids: seq<string>) {
    forall i, j :: 0 <= i < j < |ids| ==> ids[i] != ids[j]
  }

  /** The event that records a file of the largest size. */
  function FileEvent(t: string, id: string, name: string): Event {
    Event(0, [], "", 0, 0, Ticket(AttachmentAdded(t, id, "", name, MAX_FILE_SIZE, "", "", 0)))
  }

  /** The first `k` files have arrived one after the other. */
  ghost predicate Filled(n: Node, t: string, ids: seq<string>, k: nat)
    requires k <= |ids|
  {
    && n.slots == map[] && t in n.store && n.store[t].record.state.PermitsWork()
    && Received(n, t) == Stored(n.store, t) == k * MAX_FILE_SIZE
    && forall m :: m in n.store[t].attachments ==> m.id in ids[..k]
  }

  lemma ApplyFile(store: Tickets, t: string, name: string, ids: seq<string>, k: nat)
    requires k < |ids| && Distinct(ids) && t in store
    requires forall m :: m in store[t].attachments ==> m.id in ids[..k]
    ensures TakesUp(store, FileEvent(t, ids[k], name))
    ensures var store' := Apply(store, FileEvent(t, ids[k], name));
      && t in store' && store'[t].record.state == store[t].record.state
      && forall m :: m in store'[t].attachments ==> m.id in ids[..k + 1]
  {
    assert ids[..k + 1] == ids[..k] + [ids[k]];
    assert ids[k] !in ids[..k];
  }

  lemma FileFills(n: Node, t: string, name: string, ids: seq<string>, k: nat)
    requires k < |ids| && Distinct(ids) && Filled(n, t, ids, k)
    ensures var n1, e := n.(slots := map[0 := Admitted(t, ids[k], name, MAX_FILE_SIZE)]), FileEvent(t, ids[k], name);
      Enabled(n1, Record(0, e)) && Filled(Do(n1, Record(0, e)), t, ids, k + 1)
  {
    ApplyFile(n.store, t, name, ids, k);
    ApplyStores(n.store, FileEvent(t, ids[k], name), t);
    OneMore(k, MAX_FILE_SIZE);
  }

  lemma FilledAdmits(n: Node, t: string, ids: seq<string>, k: nat)
    requires k <= |ids| && k < 10 && Filled(n, t, ids, k)
    ensures Admissible(n.store, t, MAX_FILE_SIZE, true)
  {
  }

  /** One admitted transfer, from the connection on. */
  lemma ReceiveOne(steps: seq<Step>, t: string, id: string, name: string) returns (more: seq<Step>)
    requires Legal(steps) && Run(steps).slots == map[] && Admissible(Run(steps).store, t, MAX_FILE_SIZE, true)
    ensures Legal(more) && Run(more) == Run(steps).(slots := map[0 := Admitted(t, id, name, MAX_FILE_SIZE)])
  {
    var n, one := Run(steps), steps + [Connect(0)];
    Snoc(steps, Connect(0));
    assert Run(one) == n.(slots := map[0 := Waiting]);
    more := AdmitIn(one, 0, t, id, name);
    assert Run(more).slots == map[0 := Admitted(t, id, name, MAX_FILE_SIZE)];
  }

  /** One more file, from the connection to its record. */
  lemma OneMoreFile(steps: seq<Step>, t: string, name: string, ids: seq<string>, k: nat) returns (more: seq<Step>)
    requires k < |ids| && k < 10 && Distinct(ids) && Legal(steps) && Filled(Run(steps), t, ids, k)
    ensures Legal(more) && Filled(Run(more), t, ids, k + 1)
  {
    var n, e := Run(steps), FileEvent(t, ids[k], name);
    FilledAdmits(n, t, ids, k);
    var front := ReceiveOne(steps, t, ids[k], name);
    more := front + [Record(0, e)];
    Snoc(front, Record(0, e));
    FileFills(n, t, name, ids, k);
  }

  lemma CreatedIsEmpty(c: Event, t: string, ids: seq<string>)
    requires Creates(c, t)
    ensures Filled(Do(IDLE, Local(c)), t, ids, 0)
  {
    assert Apply(map[], c)[t] == Opened(c, c.payload.event);
  }

  lemma JustCreated(c: Event) returns (steps: seq<Step>)
    ensures Legal(steps) && Run(steps) == Do(IDLE, Local(c))
  {
    steps := [] + [Local(c)];
    Snoc([], Local(c));
  }

  lemma {:induction false} ManyFiles(c: Event, t: string, name: string, ids: seq<string>, k: nat)
    returns (steps: seq<Step>)
    requires Creates(c, t) && k <= |ids| && k <= 10 && Distinct(ids)
    ensures Legal(steps) && Filled(Run(steps), t, ids, k)
  {
    if k == 0 {
      steps := JustCreated(c);
      CreatedIsEmpty(c, t, ids);
    } else {
      var front := ManyFiles(c, t, name, ids, k - 1);
      steps := OneMoreFile(front, t, name, ids, k - 1);
    }
  }

  lemma TwoInFlight(a: Transfer, b: Transfer, t: string)
    ensures InFlight(map[0 := a, 1 := b], t) == Weight(a, t) + Weight(b, t)
  {
    var both := map[0 := a, 1 := b];
    InFlightPick(both, 0, t);
    assert both - {0} == map[1 := b];
    InFlightPick(map[1 := b], 1, t);
    assert map[1 := b] - {1} == map[];
  }

  lemma TwoConnect(steps: seq<Step>) returns (more: seq<Step>)
    requires Legal(steps) && Run(steps).slots == map[]
    ensures Legal(more) && Run(more) == Run(steps).(slots := map[0 := Waiting, 1 := Waiting])
  {
    var one := steps + [Connect(0)];
    Snoc(steps, Connect(0));
    assert Run(one).slots == map[0 := Waiting];
    more := one + [Connect(1)];
    Snoc(one, Connect(1));
    assert Run(more).slots == map[0 := Waiting, 1 := Waiting];
  }

  lemma AdmitIn(steps: seq<Step>, s: nat, t: string, id: string, name: string) returns (more: seq<Step>)
    requires Legal(steps) && s in Run(steps).slots && Run(steps).slots[s].Waiting?
    requires Admissible(Run(steps).store, t, MAX_FILE_SIZE, true)
    ensures Legal(more)
    ensures Run(more) == Run(steps).(slots := Run(steps).slots[s := Admitted(t, id, name, MAX_FILE_SIZE)])
  {
    more := steps + [Offer(s, t, id, name, MAX_FILE_SIZE, true)];
    Snoc(steps, Offer(s, t, id, name, MAX_FILE_SIZE, true));
  }

  lemma AdmitFirst(steps: seq<Step>, t: string, name: string, a: string) returns (more: seq<Step>)
    requires Legal(steps) && Run(steps).slots == map[]
    requires Admissible(Run(steps).store, t, MAX_FILE_SIZE, true)
    ensures Legal(more)
    ensures Run(more) == Run(steps).(slots := map[0 := Admitted(t, a, name, MAX_FILE_SIZE), 1 := Waiting])
  {
    var none := TwoConnect(steps);
    more := AdmitIn(none, 0, t, a, name);
    assert Run(more).slots == map[0 := Admitted(t, a, name, MAX_FILE_SIZE), 1 := Waiting];
  }

  lemma AdmitBoth(steps: seq<Step>, t: string, name: string, a: string, b: string) returns (more: seq<Step>)
    requires Legal(steps) && Run(steps).slots == map[]
    requires Admissible(Run(steps).store, t, MAX_FILE_SIZE, true)
    ensures Legal(more)
    ensures Run(more) == Run(steps).(slots := BothIn(t, name, a, b))
  {
    var one := AdmitFirst(steps, t, name, a);
    more := AdmitIn(one, 1, t, b, name);
    assert Run(more).slots == BothIn(t, name, a, b);
  }

  function BothIn(t: string, name: string, a: string, b: string): map<nat, Transfer> {
    map[0 := Admitted(t, a, name, MAX_FILE_SIZE), 1 := Admitted(t, b, name, MAX_FILE_SIZE)]
  }

  lemma AtTheBound(n: Node, t: string, name: string, ids: seq<string>)
    requires |ids| == 11 && Filled(n, t, ids, 9)
    ensures Admissible(n.store, t, MAX_FILE_SIZE, true)
    ensures Received(n, t) + InFlight(BothIn(t, name, ids[9], ids[10]), t) == BOUND
  {
    TwoInFlight(Admitted(t, ids[9], name, MAX_FILE_SIZE), Admitted(t, ids[10], name, MAX_FILE_SIZE), t);
  }

  /** Two offers checked before either file is recorded reach the bound, so the quota itself can be exceeded: with any
      eleven file ids and any filename. */
  lemma QuotaBoundIsReached(c: Event, t: string, name: string, ids: seq<string>) returns (steps: seq<Step>)
    requires Creates(c, t) && |ids| == 11 && Distinct(ids)
    ensures Legal(steps) && Received(Run(steps), t) + InFlight(Run(steps).slots, t) == BOUND
  {
    var filled := ManyFiles(c, t, name, ids, 9);
    AtTheBound(Run(filled), t, name, ids);
    steps := AdmitBoth(filled, t, name, ids[9], ids[10]);
  }

  // ---- The receiving object ----

  datatype Reply = Accept | Denied | DeniedNoTicket | DeniedTicketClosed | DeniedTooLarge

  /** The sum the admission check computes. */
  method StoredBytes(attachments: seq<Attachment>) returns (sum: nat)
    ensures sum == Sizes(attachments)
  {
    sum := 0;
    for i := 0 to |attachments|
      invariant sum == Sizes(attachments[..i])
    {
      assert attachments[..i + 1][..i] == attachments[..i];
      sum := sum + attachments[i].sizeBytes;
    }
    assert attachments[..|attachments|] == attachments;
  }

  class FileReceiver {
    const store: TicketStateStore
    var slots: map<nat, Transfer>
    var disk: map<string, Folder>
    ghost var received: map<string, nat>

    ghost function Value(): Node
      reads this, store
    {
      Node(store.tickets, slots, disk, received)
    }

    constructor (store: TicketStateStore)
      ensures this.store == store && slots == map[] && disk == map[] && received == map[]
    {
      this.store, slots, disk, received := store, map[], map[], map[];
    }

    method TryAcquire(slot: nat) returns (ok: bool)
      requires slot !in slots
      modifies this
      ensures ok == (|old(slots)| < MAX_PARALLEL_FILES)
      ensures Value() == Do(old(Value()), Connect(slot))
    {
      ok := |slots| < MAX_PARALLEL_FILES;
      if ok {
        slots := slots[slot := Waiting];
      }
    }

    /** The admission checks in the order of the source; every refusal gives the permit back. */
    method HandleOffer(slot: nat, t: string, fileId: string, name: string, size: nat, trusted: bool)
      returns (reply: Reply)
      requires slot in slots && slots[slot].Waiting?
      modifies this
      ensures reply.Accept? <==> Admissible(store.tickets, t, size, trusted)
      ensures reply.DeniedNoTicket? <==> t !in store.tickets
      ensures Value() == Do(old(Value()), Offer(slot, t, fileId, name, size, trusted))
    {
      reply := Accept;
      if t !in store.tickets {
        reply := DeniedNoTicket;
      } else if !trusted {
        reply := Denied;
      } else if !store.tickets[t].record.state.PermitsWork() {
        reply := DeniedTicketClosed;
      } else if size > MAX_FILE_SIZE {
        reply := DeniedTooLarge;
      } else {
        var stored := StoredBytes(store.tickets[t].attachments);
        if stored + size > MAX_TICKET_STORAGE {
          reply := DeniedTooLarge;
        }
      }
      slots := if reply.Accept? then slots[slot := Admitted(t, fileId, name, size)] else slots - {slot};
    }

    /** The file is complete: it is moved into the ticket's directory and its attachment event is applied; when the
        graph or the reducer refuses the event, the file is deleted again. The permit is given back. */
    method RecordFile(slot: nat, e: Event, inserted: bool) returns (ok: bool)
      requires slot in slots && Records(e, slots[slot])
      modifies this, store
      ensures ok == (inserted && old(slots)[slot].ticket in old(store.tickets))
      ensures Value() == Do(old(Value()), if ok then Record(slot, e) else Discard(slot))
    {
      ok := inserted && slots[slot].ticket in store.tickets;
      if ok {
        KeepFile(slot, e);
      } else {
        DropFile(slot);
      }
    }

    method KeepFile(slot: nat, e: Event)
      requires slot in slots && Records(e, slots[slot])
      modifies this, store
      ensures Value() == Do(old(Value()), Record(slot, e))
    {
      var x := slots[slot];
      if TakesUp(store.tickets, e) {
        received := received[x.ticket := Received(Value(), x.ticket) + x.size];
      }
      disk := disk[x.ticket := FolderOf(disk, x.ticket)[File(x.fileId, x.name) := x.size]];
      var _ := store.ApplyEvent(e);
      slots := slots - {slot};
    }

    method DropFile(slot: nat)
      requires slot in slots && slots[slot].Admitted?
      modifies this
      ensures Value() == Do(old(Value()), Discard(slot))
    {
      var x, f := slots[slot], File(slots[slot].fileId, slots[slot].name);
      var folder := FolderOf(disk, x.ticket);
      disk := disk[x.ticket := folder[f := x.size]];
      assert folder[f := x.size] - {f} == folder - {f};
      disk := disk[x.ticket := disk[x.ticket] - {f}];
      slots := slots - {slot};
    }
  }
}
