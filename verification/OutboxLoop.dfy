/** The sending node's event loop: its handlers are runs of the sender's steps. */
module OutboxLoop {
  import opened Outbox
  import opened Wrappers

  function RunSender(s: Sender, w: Wire, steps: seq<SenderStep>): (Sender, Wire) {
    if steps == [] then (s, w) else
      var (s1, w1) := RunSender(s, w, steps[..|steps| - 1]);
      DoSender(s1, w1, steps[|steps| - 1])
  }

  predicate LegalFrom(s: Sender, w: Wire, steps: seq<SenderStep>) {
    steps == [] ||
    var front := steps[..|steps| - 1];
    LegalFrom(s, w, front) && SenderEnabled(RunSender(s, w, front).0, RunSender(s, w, front).1, steps[|steps| - 1])
  }

  /** The steps are legal and lead from one state to the other. */
  ghost predicate Leads(s: Sender, w: Wire, steps: seq<SenderStep>, s': Sender, w': Wire) {
    LegalFrom(s, w, steps) && RunSender(s, w, steps) == (s', w')
  }

  lemma LeadsOn(s: Sender, w: Wire, steps: seq<SenderStep>, s': Sender, w': Wire, x: SenderStep)
    requires Leads(s, w, steps, s', w') && SenderEnabled(s', w', x)
    ensures var r := DoSender(s', w', x); Leads(s, w, steps + [x], r.0, r.1)
  {
    assert (steps + [x])[..|steps|] == steps;
  }

  class SyncLoop {
    var outbox: map<nat, Parcel>
    var pending: map<nat, Option<nat>>
    var dials: seq<Waiting>
    var connected: set<Peer>
    var nextId: nat
    ghost var ledger: map<nat, Parcel>
    ghost var finished: set<nat>
    ghost var wire: Wire

    ghost function Value(): Sender
      reads this
    {
      Sender(outbox, pending, dials, connected, ledger, finished)
    }

    /** Request ids are handed out in order and never reused. */
    ghost predicate Fresh()
      reads this
    {
      forall id :: id in wire.sent || id in pending ==> id < nextId
    }

    /** A node started on a persisted outbox, with nothing in memory. */
    constructor (stored: map<nat, Parcel>, ghost history: Wire, firstId: nat, ghost enqueued: map<nat, Parcel>,
                 ghost settled: set<nat>)
      requires forall id :: id in history.sent ==> id < firstId
      ensures Value() == Sender(stored, map[], [], {}, enqueued, settled) && wire == history && Fresh()
    {
      outbox, pending, dials, connected, nextId := stored, map[], [], {}, firstId;
      ledger, finished, wire := enqueued, settled, history;
    }

    method Send(parcel: Parcel, key: Option<nat>) returns (id: nat)
      requires Fresh()
      modifies this
      ensures Fresh() && id == old(nextId) && id !in old(wire).sent && id !in old(pending)
      ensures Value() == old(Value()).(pending := old(pending)[id := key]) && wire == SendWire(old(wire), id, parcel)
    {
      id := nextId;
      pending := pending[id := key];
      wire := SendWire(wire, id, parcel);
      nextId := nextId + 1;
    }

    /** A command: mutations are persisted first, then sent or left to wait for the dial. */
    method SyncTickets(parcel: Parcel, out: nat) returns (id: nat)
      requires Fresh() && out !in ledger
      modifies this
      ensures Fresh() && SenderEnabled(old(Value()), old(wire), Command(parcel, out, id))
      ensures (Value(), wire) == DoSender(old(Value()), old(wire), Command(parcel, out, id))
    {
      var key := None;
      if !parcel.request.Query? {
        outbox := outbox[out := parcel];
        ledger := ledger[out := parcel];
        key := Some(out);
      }
      id := nextId;
      if parcel.peer in connected {
        id := Send(parcel, key);
      } else {
        dials := dials + [Waiting(parcel, key)];
      }
    }

    /** Sends whatever waited for this peer. */
    method FlushDials(peer: Peer, ghost s0: Sender, ghost w0: Wire, ghost steps0: seq<SenderStep>)
      returns (ghost steps: seq<SenderStep>)
      requires Fresh() && peer in connected && Leads(s0, w0, steps0, Value(), wire)
      modifies this
      ensures Fresh() && Leads(s0, w0, steps, Value(), wire)
      ensures outbox == old(outbox) && connected == old(connected)
      ensures forall d :: d in dials ==> d.parcel.peer != peer
    {
      steps := steps0;
      var i := 0;
      while i < |dials|
        invariant 0 <= i <= |dials| && Fresh() && peer in connected && Leads(s0, w0, steps, Value(), wire)
        invariant outbox == old(outbox) && connected == old(connected)
        invariant forall j :: 0 <= j < i ==> dials[j].parcel.peer != peer
        decreases |dials| - i
      {
        if dials[i].parcel.peer == peer {
          var d := dials[i];
          ghost var s, w := Value(), wire;
          var id := Send(d.parcel, d.key);
          dials := dials[..i] + dials[i + 1..];
          LeadsOn(s0, w0, steps, s, w, FlushDial(i, id));
          steps := steps + [FlushDial(i, id)];
        } else {
          i := i + 1;
        }
      }
    }

    /** A connection: the waiting commands go out, and so does every outbox record for the peer, once more. */
    method ConnectionEstablished(peer: Peer) returns (ghost steps: seq<SenderStep>)
      requires Fresh()
      modifies this
      ensures Fresh() && Leads(old(Value()), old(wire), steps, Value(), wire)
      ensures outbox == old(outbox)
      ensures forall o :: o in outbox && outbox[o].peer == peer ==> InFlight(o)
    {
      ghost var s0, w0 := Value(), wire;
      connected := connected + {peer};
      LeadsOn(s0, w0, [], s0, w0, Connect(peer));
      steps := FlushDials(peer, s0, w0, [] + [Connect(peer)]);
      var todo: set<nat> := set o | o in outbox && outbox[o].peer == peer;
      while todo != {}
        invariant Fresh() && peer in connected && outbox == old(outbox) && Leads(s0, w0, steps, Value(), wire)
        invariant forall o :: o in todo ==> o in outbox && outbox[o].peer == peer
        invariant forall o :: o in outbox && outbox[o].peer == peer ==> o in todo || InFlight(o)
        decreases |todo|
      {
        var o :| o in todo;
        ghost var s, w, pending0 := Value(), wire, pending;
        var id := Send(outbox[o], Some(o));
        LeadsOn(s0, w0, steps, s, w, Resend(o, id));
        steps := steps + [Resend(o, id)];
        assert pending[id] == Some(o) && forall k :: k in pending0 ==> k in pending && pending[k] == pending0[k];
        todo := todo - {o};
      }
    }

    /** Some request under way carries the outbox key. */
    ghost predicate InFlight(o: nat)
      reads this
    {
      exists id :: id in pending && pending[id] == Some(o)
    }

    /** An answer: a terminal one removes the outbox entry of the request it answers. */
    method TicketResponse(id: nat, a: Response)
      requires Fresh() && id in wire.responses && wire.responses[id] == a
      modifies this
      ensures Fresh() && (Value(), wire) == DoSender(old(Value()), old(wire), Respond(id))
    {
      if id in pending {
        var key := pending[id];
        pending := pending - {id};
        if Terminal(a) && key.Some? {
          outbox := outbox - {key.value};
          finished := finished + {key.value};
        }
      } else {
        assert pending - {id} == pending;
      }
      wire := wire.(responses := wire.responses - {id});
    }

    /** A failed request is forgotten; its outbox entry stays. */
    method OutboundFailure(id: nat)
      requires Fresh()
      modifies this
      ensures Fresh() && (Value(), wire) == DoSender(old(Value()), old(wire), RequestFailed(id))
    {
      pending := pending - {id};
    }

    /** A failed dial forgets the commands that waited for it; their outbox entries stay. */
    method OutgoingConnectionError(peer: Peer)
      requires Fresh()
      modifies this
      ensures Fresh() && wire == old(wire)
      ensures Value() == if peer in connected then old(Value()) else DoSender(old(Value()), old(wire), DialFailed(peer)).0
    {
      if peer !in connected {
        var kept: seq<Waiting> := [];
        for i := |dials| downto 0
          invariant kept == Forget(dials[i..], peer) && unchanged(this)
        {
          assert dials[i..][1..] == dials[i + 1..];
          if dials[i].parcel.peer != peer {
            kept := [dials[i]] + kept;
          }
        }
        assert dials[0..] == dials;
        dials := kept;
      }
    }
  }
}
