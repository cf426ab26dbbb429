/** The ticket lifecycle, the ticket events and the signed, immutable events that carry them. */
module Events {
  import opened Wrappers

  const U64_LIMIT: nat := 0x1_0000_0000_0000_0000

  type U64 = n: nat | n < 0x1_0000_0000_0000_0000

  /** A 32-byte content address, read as a big-endian number: byte order is number order. */
  type ObjectId = nat

  datatype TicketState = Open | InProgress | Resolved | Closed {

    predicate PermitsWork() {
      Open? || InProgress?
    }

    predicate CanTransitionTo(next: TicketState) {
      this == next
      || match this
         case Open => true
         case InProgress => next.Resolved? || next.Closed?
         case Resolved => next.InProgress? || next.Closed?
         case Closed => false
    }

    function AsString(): string {
      match this
      case Open => "OPEN"
      case InProgress => "IN_PROGRESS"
      case Resolved => "RESOLVED"
      case Closed => "CLOSED"
    }
  }

  datatype TicketPriority = Normal | High | Urgent

  datatype TicketEvent =
    | Created(ticketId: string, title: string, description: string,
              priority: TicketPriority, clientPeerId: string)
    | StatusChanged(ticketId: string, newState: TicketState, actorPeerId: string, reason: Option<string>)
    | ChatMessageAdded(ticketId: string, messageId: string, senderPeerId: string, body: string, at: U64)
    | AttachmentAdded(ticketId: string, attachmentId: string, senderPeerId: string, filename: string,
                      sizeBytes: U64, sha256: string, localPath: string, at: U64)
    | ShellSessionStarted(ticketId: string, sessionId: string, operatorPeerId: string,
                          transport: string, at: U64)
    | ShellSessionEnded(ticketId: string, sessionId: string, at: U64, result: Option<string>)
    | CustomAudit(ticketId: string, eventId: string, kind: string, actorPeerId: string,
                  metadata: Option<string>, at: U64)

  datatype Payload =
    | Ticket(event: TicketEvent)
    | Custom(name: string, data: seq<bv8>)

  /** `author` is the hexadecimal id derived from the author's public key. */
  datatype Event = Event(id: ObjectId, parents: seq<ObjectId>, author: string,
                         timestamp: U64, lamport: U64, payload: Payload)

  /** The deterministic order of the graph: Lamport clock, then timestamp, then id. */
  predicate Before(a: Event, b: Event) {
    a.lamport < b.lamport
    || (a.lamport == b.lamport
        && (a.timestamp < b.timestamp
            || (a.timestamp == b.timestamp && a.id < b.id)))
  }

  /** Ids are content addresses: one id never stands for two different events. */
  ghost predicate DistinctIds(s: set<Event>) {
    forall a, b :: a in s && b in s && a.id == b.id ==> a == b
  }
}
