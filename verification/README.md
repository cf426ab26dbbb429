# Fortiq in Dafny: replicated tickets, guarded sessions, byte formats

This project models the core of Fortiq, a peer-to-peer remote-support tool, and proves what its parts promise over
every input, every interleaving and every reachable state.

**Replicated tickets.** Nodes exchange immutable, content-addressed events. Each node inserts them, in whatever order
they arrive, into a causal graph (`CausalGraph`, `EventGraphs`, `HeadSets`), sorts the graph deterministically and folds
it into ticket state (`Reducer`). The engine keeps that state incrementally on local appends and rebuilds it after remote
ingestion; its two locks are modelled as atomic steps that interleave freely (`Engine`, `EngineRuns`, `TicketEngines`,
`RestartOrder`, `ClockLimit`, `RevisionDrops`); a node that ingests nothing is shown to be a bare store (`LocalNode`).

- `topological_sort`, Kahn's algorithm over a mutable in-degree map, is proved to be the plain sort by
  (lamport, timestamp, id) on every graph that `insert` can build.
- The reduced state is characterised without replaying anything (`ReducerLaws.StateIsDeclared`). From that follow merge
  monotonicity, the agreement of the cache, the convergence of replicas (`Replicas`), and that a closed ticket stays
  closed in every continuation of a run.

**Step protocols.** The durable outbox with its revision-guarded signed mutations (`Outbox`, `OutboxLoop`,
`Overtaken`), the single-shell gate with its watcher on top of the engine (`ShellGate`, `ShellWatch`,
`LateClosing`), the file quota under parallel
transfers (`FileQuota`, `KeptFiles`) and the operator session with its timers and terminal bridges (`OperatorSession`).
Each is a state machine with an invariant over all legal runs, and a class whose methods are proved to be steps, or runs
of steps, of it.

**Byte formats.** The definite-length CBOR scanner against the grammar of section 3 of RFC 8949 (`Cbor`), the BIP-39
bit repacking (`Mnemonic`, `Phrases`), shell frames (`Framing`) and the payloads that sessions sign
(`SigningPayloads`).

Where the source changes state step by step, so does the model: classes with `modifies` clauses and loops with
invariants, each tied by its `ensures` to a function on values about which the theorems are proved.

## What is taken for granted

- Ids are content hashes: one id stands for one event, and no event lists its own id as a parent. `insert` itself does
  not check this; `CausalGraph.InsertKeepsCausal` shows that the second half is exactly what it needs. In runs,
  `book` is the function from ids to the events they stand for.
- Signatures, certificates and the transport identity enter as the booleans `genuine`, `bound` and `trusted`; SHA-256
  enters as an arbitrary function `sha`; clocks and fresh identifiers are parameters of the steps.
- The BIP-39 list is any list of 2048 strictly sorted words without whitespace.

## What turned out not to hold, and when it does

- *Restarting keeps every live event.* A remote object is written to disk before the graph may reject it
  (`crates/fortiq-core/src/engine.rs:470-476`, `crates/fortiq-core/src/engine.rs:499-506`), so a reload in directory
  order can accept it first and reject the event that was live. `RestartOrder.UncleanRestartReopens` gives a family of
  runs in which a ticket shown as closed is open again after a restart. `Engine.RestartKeepsLiveIff` is the exact
  condition: a restart keeps every live event, in whatever order the directory is read, if and only if no object on disk
  has an edge with a live event along which the clock fails to grow. `CleanRun` asks this at each restart, and nothing of
  objects that are not live. Independence of all orders, and the return of every object, hold if and only if the clocks of
  all objects are consistent (`Convergence.OrderIndependentIffConsistent`, `Convergence.ReloadIsCompleteIff`).
- *An authored event is always newer.* The clock is a 64-bit number and its successor wraps, as in a release build.
  `CausalGraph.NextLamportTops` and `Engine.AppendAcceptedIff` give the exact conditions. One accepted remote root with
  the largest clock is enough (`ClockLimit.OneRootSaturates`), and from then on no append is accepted
  (`ClockLimit.NothingIsAuthoredAfterwards`).
- *A signed transition lands on the revision it was signed for.* The revision is compared before the append and not
  during it. `Overtaken.OvertakenRun` is a run from nothing in which a transition signed for revision 1 is applied as
  revision 3; `Outbox.LandsAsSignedIff` says when a transition of a run lands as signed. At most one effect per ticket and
  expected revision holds regardless, also when receivers stop half-way; for receivers that ingest objects it does not
  hold, because merging an early closing event lowers a revision (`RevisionDrops.SameMutationPassesTwice`).
- *A ticket never holds more than its quota.* Admission is check-then-record, and it counts records, not files.
  `FileQuota.QuotaHolds` bounds what the records count, with one file of overrun, and `FileQuota.QuotaBoundIsReached`
  reaches that bound. A completed file whose id is already recorded is kept under its own name and not counted
  (`crates/fortiq-p2p/src/node.rs:2396-2398`, `crates/fortiq-core/src/reducer/ticket.rs:250`), so what is kept has no bound
  (`KeptFiles.KeptForAnyNames`). Records and files agree throughout a run if and only if no file is completed under a
  recorded id, unless it has the size of what its name held before, and none that is deleted again had displaced another
  (`KeptFiles.BooksAgreeIff`); the bound on the files kept
  holds in those runs (`KeptFiles.KeptQuotaHolds`). `KeptFiles.AdmissionKeepsQuotaIff` says when one admission stays
  within the quota.
- *`Heads::apply_event` is the heads update of the graph.* They agree if and only if nothing present names the
  newcomer (`HeadSets.AdvanceAgreesWithInsert`); a parent that arrives after its child is the input on which they differ
  (`HeadSets.ParentAfterChild`).
- *What was read is what was written.* The reader ignores the length of a ping or pong frame
  (`Framing.ReadIsEncodingIff`, `Framing.LongPingIsRead`).
- *A stream that is cut off is noticed.* Exactly the frames before the cut are read (`Framing.CutStreamReads`), and the cut
  goes unnoticed if and only if it falls less than three bytes after the end of a frame (`Framing.CutGoesUnnoticedIff`).
- *The node re-reads the ticket immediately before authorization* (`docs/protocol.md:159`). The code judges the authority,
  reads the ticket once, and then claims the flag and answers (`crates/fortiq-p2p/src/node.rs:2161-2220`).
  `LateClosing.ServedAfterClosing` is a run in which a shell is served on a ticket that was closed after it was read, and
  `ShellWatch.ServedOnClosedIff` says exactly when this happens. Such a session ends with the next round of its watcher
  (`ShellWatch.ClosedEndsSessions`).

## Model

| member | source | states |
|---|---|---|
| `Sorting.SortedUnique` | crates/fortiq-core/src/event/graph.rs:205-213 | any strictly increasing sequence with the events of a set is its sort: (lamport, timestamp, id) leaves no choice |
| `Sorting.SortedAppend` | crates/fortiq-core/src/event/graph.rs:187-190 | an event after all others is appended at the end and moves nothing |
| `Sorting.SortEvents` | crates/fortiq-core/src/event/graph.rs:254-259 | the library sort of the leftover branch gives the unique sorted sequence |
| `CausalGraph.RegisterCounts` | crates/fortiq-core/src/event/graph.rs:129-132 | registering adds the id once per occurrence of a parent, repeated parents included, and touches no other count |
| `CausalGraph.KidIffNamed` | crates/fortiq-core/src/event/graph.rs:113-127 | looking up the child index is asking which present events name the id, also for an id that has not arrived |
| `CausalGraph.InsertKeepsValid` | crates/fortiq-core/src/event/graph.rs:92-154 | after every insertion, accepted or refused, heads are exactly the events nobody present names, and the child index counts exactly the parent occurrences; a refused or repeated event changes nothing |
| `CausalGraph.InsertKeepsCausal` | crates/fortiq-core/src/event/graph.rs:97-127 | every present edge still increases the Lamport clock, if and only if the new event does not name itself |
| `CausalGraph.HeadAbove` | crates/fortiq-core/src/event/graph.rs:134-151 | from every present event a chain of children leads to a head with a clock at least as large |
| `CausalGraph.MaxLamport` | crates/fortiq-core/src/event/graph.rs:176-183 | the result bounds the clocks of all listed present events and is one of them, or 0 |
| `CausalGraph.NextLamportTops` | crates/fortiq-core/src/event/graph.rs:175-185 | the clock computed on all heads exceeds every clock in the graph if and only if none is at 2^64 - 1 |
| `EventGraphs.ChildrenOwe` | crates/fortiq-core/src/event/graph.rs:232-242 | charging the children of an emitted event never underflows and leaves each child's count of parents still to come |
| `EventGraphs.EarliestIsReady` | crates/fortiq-core/src/event/graph.rs:221-229 | in a causal graph the earliest event not yet emitted is in the ready set |
| `EventGraphs.PopLeads` | crates/fortiq-core/src/event/graph.rs:229-230 | popping the first ready event keeps the emitted prefix in order and ahead of everything left |
| `EventGraphs.PopKeepsFrontier` | crates/fortiq-core/src/event/graph.rs:229-244 | one round of the loop keeps the degrees equal to the parents still to come and the ready set equal to the events of degree 0 |
| `EventGraphs.CausalIsComplete` | crates/fortiq-core/src/event/graph.rs:246-261 | when nothing is ready any more a causal graph is emitted completely, so the leftover branch is never needed |
| `EventGraphs.EventGraph.ClocksGrow` | crates/fortiq-core/src/event/graph.rs:97-127 | the two loops decide clock growth towards the known parents and the children that arrived first |
| `EventGraphs.EventGraph.Insert` | crates/fortiq-core/src/event/graph.rs:92-154 | the in-place insertion reports success exactly for known or acceptable events and leaves exactly the specified graph |
| `EventGraphs.EventGraph.NextClock` | crates/fortiq-core/src/event/graph.rs:175-185 | the loop computes the 64-bit successor of the largest clock of the parents |
| `EventGraphs.EventGraph.HeadsToVec` | crates/fortiq-core/src/event/heads.rs:50-52 | exactly the heads, in strictly increasing order |
| `EventGraphs.EventGraph.Release` | crates/fortiq-core/src/event/graph.rs:232-242 | every child is charged once per occurrence, and exactly those down to 0 become ready |
| `EventGraphs.EventGraph.InDegrees` | crates/fortiq-core/src/event/graph.rs:191-200 | for each event the number of its parent positions that are present |
| `EventGraphs.EventGraph.AppendRemaining` | crates/fortiq-core/src/event/graph.rs:246-263 | appends exactly the events not yet emitted, in (lamport, timestamp, id) order |
| `EventGraphs.EveryEventOnce` | crates/fortiq-core/src/event/graph.rs:246-263 | what the loop emitted and the sorted rest have every event once, and nothing is added to a complete list |
| `EventGraphs.EventGraph.TopologicalSort` | crates/fortiq-core/src/event/graph.rs:190-264 | every event exactly once on any graph; on a causal one the result is the plain sort by (lamport, timestamp, id) |
| `HeadSets.Heads.ApplyEvent` | crates/fortiq-core/src/event/heads.rs:27-32 | the loop retires the parents and adds the event |
| `HeadSets.AdvanceAgreesWithInsert` | crates/fortiq-core/src/event/heads.rs:27-32 | agrees with the heads of the graph after `insert` if and only if nothing present, nor the event itself, names the newcomer |
| `HeadSets.ParentAfterChild` | crates/fortiq-core/src/event/graph.rs:141-149 | an input on which the two differ: a parent that arrives after its child is no head of the graph |
| `Convergence.ReachableIsValid` | crates/fortiq-core/src/event/graph.rs:92-154 | exact heads and child counts after any sequence of arrivals, refused ones included |
| `Convergence.ReachableIsCausal` | crates/fortiq-core/src/event/graph.rs:97-127 | clocks grow along every present edge after any sequence of arrivals without self-parents |
| `Convergence.AcceptsIffEdgesGrow` | crates/fortiq-core/src/event/graph.rs:97-127 | the check of `insert` is clock growth along the newcomer's edges in both directions, whatever arrived first |
| `Convergence.AcceptedIffConsistent` | crates/fortiq-core/src/event/graph.rs:92-154 | a sequence of arrivals is accepted completely if and only if its events are Lamport-consistent, in any order and with repetitions |
| `Convergence.EventsDetermineGraph` | crates/fortiq-core/src/event/graph.rs:129-151 | equal events force equal heads and equal child multisets, although child lists may differ in order |
| `Convergence.Converge` | crates/fortiq-core/src/event/graph.rs:92-264 | two replicas with the same consistent events in any orders accept them all and hold equal events, heads and child counts |
| `Convergence.OrderIndependentIffConsistent` | crates/fortiq-core/src/engine.rs:85-97 | the resulting events do not depend on the order of arrival if and only if the clocks are consistent |
| `Convergence.ReloadIsCompleteIff` | crates/fortiq-core/src/engine.rs:85-97 | a reload in directory order brings back every object if and only if their clocks are consistent |
| `Convergence.ParentsFirst` | crates/fortiq-core/src/event/graph.rs:187-190 | every present parent stands before its children in the sort |
| `Reducer.StateAppend` | crates/fortiq-core/src/engine.rs:152-154 | reducing with an event that sorts last is applying it to the reduced state |
| `Reducer.TicketStateStore.ApplyEvent` | crates/fortiq-core/src/reducer/ticket.rs:118-342 | the in-place update of each of the seven event kinds, and an error exactly for duplicates of a creation, unknown tickets and forbidden transitions, with no effect then |
| `Reducer.FindSession` | crates/fortiq-core/src/reducer/ticket.rs:305 | the first session with the id, or none |
| `Reducer.Reduce` | crates/fortiq-core/src/reducer/ticket.rs:109-115 | the fold over the topological order is a function of the set of events alone |
| `ReducerLaws.ApplyStepsView` | crates/fortiq-core/src/reducer/ticket.rs:118-342 | how one event moves what can be observed of any ticket |
| `ReducerLaws.StateIsDeclared` | crates/fortiq-core/src/reducer/ticket.rs:109-342 | a ticket exists, is closed, or holds a message, attachment, session or ended session exactly when the set has the corresponding events in the right order: no replay needed |
| `ReducerLaws.MergeIsMonotone` | crates/fortiq-core/src/reducer/ticket.rs:118-311 | merging any events, wherever they sort, loses no ticket, message, attachment or session, restarts no ended session and reopens no closed ticket |
| `ReducerAccounts.Accounts` | crates/fortiq-core/src/reducer/ticket.rs:118-342 | revision = audit entries + messages + attachments + sessions + effective session ends; `closed_at` is set iff CLOSED; message, attachment and session ids are distinct |
| `ReducerAccounts.IdentityIsFirstCreation` | crates/fortiq-core/src/reducer/ticket.rs:127-169 | title, description, priority, owner and creation time come from the first creation in sort order |
| `ReducerAccounts.MessageListIsTranscript` | crates/fortiq-core/src/reducer/ticket.rs:109-342 | the message list is exactly the first copy of each effective message, with its contents, in sort order |
| `Engine.AuthoredIsNew` | crates/fortiq-core/src/engine.rs:134-144 | an event authored on all heads cannot already be in the graph |
| `Engine.AppendAcceptedIff` | crates/fortiq-core/src/engine.rs:134-150 | the graph accepts an authored event if and only if no clock is at 2^64 - 1 and nothing present names its id; its clock then exceeds all others |
| `Engine.AppendIsIncremental` | crates/fortiq-core/src/engine.rs:149-154 | applying an accepted append to the reduction of any part of the graph is the reduction of that part with it |
| `Engine.StepKeepsInv` | crates/fortiq-core/src/engine.rs:78-523 | every append, ingestion, re-reduction and restart keeps the graph exact, causal and inside the disk |
| `Engine.RestartKeepsLiveIff` | crates/fortiq-core/src/engine.rs:85-97 | a restart keeps every live event, whatever the directory order, if and only if no object on disk has an edge with a live event along which the clock fails to grow |
| `Engine.StepKeepsReflection` | crates/fortiq-core/src/engine.rs:129-523 | every step takes a cache that reflects part of the graph to one that reflects part of it, which only grows unless a restart meets an object in conflict with a live event |
| `EngineRuns.CacheAgrees` | crates/fortiq-core/src/engine.rs:129-157 | after any interleaving, whenever no ingestion is between insert and re-reduce, the cache is the reduction of the graph, refused appends included |
| `EngineRuns.NothingIsTakenBack` | crates/fortiq-core/src/engine.rs:465-523 | once the cache showed that a ticket exists or is closed, or the id of a message, attachment, session or ended session, even while stale, it still shows it after every continuation with clean restarts |
| `EngineRuns.ClosedIsFinal` | crates/fortiq-core/src/ticket/state.rs:32-41 | a ticket once shown closed is shown closed after every continuation with clean restarts |
| `ClockLimit.OneRootSaturates` | crates/fortiq-core/src/event/graph.rs:97-127 | a run that ends with the largest clock in the graph: one remote root |
| `ClockLimit.AppendRefusedAtLimit` | crates/fortiq-core/src/event/graph.rs:184 | in every run, an append on a graph that holds the largest clock changes the disk and nothing else |
| `ClockLimit.NothingIsAuthoredAfterwards` | crates/fortiq-core/src/engine.rs:129-157 | once the largest clock is live, no append of any continuation with clean restarts changes graph or tickets |
| `Replicas.DeliveredIsKept` | crates/fortiq-core/src/engine.rs:465-523 | on a consistent disk everything authored, ingested or reloaded is in the graph at every later point |
| `Replicas.ReplicasConverge` | crates/fortiq-core/src/engine.rs:465-523 | two nodes with the same consistent objects, by whatever appends, batches, orders and restarts, have equal events, heads and tickets |
| `LocalNode.RestartIsNeutral` | crates/fortiq-core/src/engine.rs:78-109 | on a node that ingested nothing and refused nothing, stopping and reloading in any order changes nothing that is shown |
| `LocalNode.WrittenAheadTakesEffect` | crates/fortiq-core/src/engine.rs:146-154 | an event written ahead of a stop takes effect on reload exactly as if its append had been completed |
| `LocalNode.LocalNodeIsAStore` | crates/fortiq-core/src/engine.rs:129-157 | through any authoring, stops and reloads such a node shows its events applied in the order of authoring |
| `RevisionDrops.Merged` | crates/fortiq-core/src/reducer/ticket.rs:172-208 | with an early closing event the later work is refused, and the ticket is at revision 3 where it was at 4 |
| `RevisionDrops.SameMutationPassesTwice` | crates/fortiq-p2p/src/node.rs:1881-1914 | a continuation in which a transition passes its checks and is carried out, an early closing event is merged, and the same transition passes its checks again |
| `RestartOrder.UncleanRestartReopens` | crates/fortiq-core/src/engine.rs:85-100 | a legal run in which a rejected object makes a reload reopen a closed ticket |
| `TicketEngines.TicketEngine.Open` | crates/fortiq-core/src/engine.rs:78-109 | loading the objects in the order given, refusals ignored, and reducing is the restart step |
| `TicketEngines.TicketEngine.AppendTicketEvent` | crates/fortiq-core/src/engine.rs:129-157 | authors on all heads with the next clock and is the append step; an error exactly when the graph or the reducer refuses, with the disk written in each case |
| `TicketEngines.TicketEngine.InsertRemote` | crates/fortiq-core/src/engine.rs:488-514 | the batch loop under the write lock is the ingestion step and counts the successes |
| `TicketEngines.TicketEngine.RereduceAll` | crates/fortiq-core/src/engine.rs:479-482 | the reduction under the read lock is the re-reduction step |
| `TicketEngines.TicketEngine.ApplyRemoteObjects` | crates/fortiq-core/src/engine.rs:488-523 | an uninterrupted ingestion loses no event, and leaves a cache that is the reduction of the graph unless nothing was accepted, and then nothing changed |
| `Outbox.EnqueuedIsKeptOrDecided` | crates/fortiq-p2p/src/node.rs:1221-1250 | over every run of dial failures, request failures, losses, reconnections, double sends and crashes, an enqueued mutation is in the outbox unchanged or was given a terminal answer by its receiver |
| `Outbox.NodeKeepsGuarded` | crates/fortiq-p2p/src/node.rs:1881-1924 | every receiver step, stops before and after the write-ahead included, keeps whatever was applied behind its ticket's revision, once |
| `Outbox.AtMostOnePerRevision` | crates/fortiq-p2p/src/node.rs:1881-1924 | however often signed mutations are delivered, and wherever receivers stop, at most one is carried out per ticket and expected revision, without object ingestion |
| `Outbox.ApplyRevision` | crates/fortiq-core/src/reducer/ticket.rs:172-208 | no event lowers a revision, and an accepted transition raises it by one |
| `Overtaken.OvertakenMutationLands` | crates/fortiq-core/src/engine.rs:187-218 | from every point of a run where an authorized mutation is about to be delivered, one message appended in between takes it to Applied two revisions later |
| `Overtaken.OvertakenRun` | crates/fortiq-p2p/src/node.rs:1881-1914 | a legal run from nothing in which a transition signed for revision 1 is applied as revision 3 |
| `Outbox.RevisionDetectsChange` | crates/fortiq-core/src/reducer/ticket.rs:118-342 | between any two points of a run a ticket's revision is the same if and only if the whole ticket is, and it never falls |
| `Outbox.LandsAsSignedIff` | crates/fortiq-p2p/src/node.rs:1881-1914 | a transition verified at one step of a run and carried out at a later one lands on the revision it was signed for if and only if no step in between touched the ticket |
| `OutboxLoop.SyncLoop.SyncTickets` | crates/fortiq-p2p/src/node.rs:1221-1250 | the command persists mutations first and is one legal step of the machine |
| `OutboxLoop.SyncLoop.FlushDials` | crates/fortiq-p2p/src/node.rs:1394-1399 | a legal run after which no command waits for the peer |
| `OutboxLoop.SyncLoop.ConnectionEstablished` | crates/fortiq-p2p/src/node.rs:1394-1420 | a legal run after which every outbox record of the peer is under way, with the outbox unchanged |
| `OutboxLoop.SyncLoop.TicketResponse` | crates/fortiq-p2p/src/node.rs:1961-1975 | removes the outbox entry exactly on a terminal answer to a request that has one |
| `OutboxLoop.SyncLoop.OutboundFailure` | crates/fortiq-p2p/src/node.rs:1998-2006 | forgets the request and keeps the outbox |
| `OutboxLoop.SyncLoop.OutgoingConnectionError` | crates/fortiq-p2p/src/node.rs:1644-1650 | forgets exactly the commands that waited for the peer and keeps the outbox |
| `ShellGate.RunKeepsFlag` | crates/fortiq-p2p/src/node.rs:2207-2240 | in every run, restarts included, the flag is set iff a connection holds it, and never two do, on all success and failure paths |
| `ShellGate.AdmittedWasInOrder` | crates/fortiq-p2p/src/node.rs:2161-2220 | every admitted session was judged at a point of the run where its authority was valid, and its ticket was read at a later point where it was this node's and OPEN or IN_PROGRESS |
| `ShellGate.StaysClosed` | crates/fortiq-core/src/engine.rs:129-523 | a closed ticket stays closed for the gate through any interleaving of shells and engine steps |
| `ShellWatch.ClosedFailsChecks` | crates/fortiq-p2p/src/node.rs:2186-2206 | after a ticket was shown closed every check for it fails, in every continuation with clean restarts |
| `ShellWatch.ClosedEndsSessions` | crates/fortiq-p2p/src/node.rs:2244-2253 | after a ticket was shown closed no session of it outlives a round of its watcher |
| `ShellWatch.ServedOnClosedTicket` | crates/fortiq-p2p/src/node.rs:2186-2222 | from every point where a connection has passed its check and the flag is free, an engine step that closes its ticket does not keep it from being served |
| `ShellWatch.HistoryAt` | crates/fortiq-p2p/src/node.rs:2186-2222 | the history of a ticket over a run says at each point whether it is shown closed there |
| `ShellWatch.ServedOnClosedIff` | crates/fortiq-p2p/src/node.rs:2186-2222 | a session is served on a closed ticket if and only if an engine step between its check and its answer closed it |
| `LateClosing.ServedAfterClosing` | crates/fortiq-p2p/src/node.rs:2186-2222 | a legal run from nothing that ends with a shell served on a closed ticket |
| `ShellGate.ClosedNeverAdmitted` | crates/fortiq-p2p/src/node.rs:2186-2206 | a connection that arrives after its ticket was shown closed is never admitted |
| `ShellWatch.SurvivorWasValid` | crates/fortiq-p2p/src/node.rs:2244-2253 | in every run, a session not gone at the end had, at each poll of its watcher, an unexpired certificate, and a ticket that permitted work when the watcher last re-read it |
| `ShellGate.HandledIsVerdict` | crates/fortiq-p2p/src/node.rs:2186-2222 | arrival, check, claim and answer without interference end in one verdict and set the flag only for a served session |
| `ShellGate.ShellHost.HandleIncoming` | crates/fortiq-p2p/src/node.rs:2186-2240 | serves exactly when all checks pass, the flag was free and the answer went out; every other path leaves the flag as it was |
| `ShellGate.ShellHost.Watch` | crates/fortiq-p2p/src/node.rs:2244-2253 | one wake-up of the watcher is a look at the ticket followed by a poll of the clock |
| `ShellGate.ShellHost.Drop` | crates/fortiq-p2p/src/node.rs:2233 | the guard gives the flag back when the shell ends |
| `FileQuota.ApplyStores` | crates/fortiq-core/src/reducer/ticket.rs:118-342 | the stored bytes of a ticket grow exactly by the attachments the reducer takes up |
| `FileQuota.QuotaHolds` | crates/fortiq-p2p/src/node.rs:2282-2285 | in every interleaving of transfers and local appends, the received bytes that are recorded plus the admitted bytes in flight stay within the quota plus one file |
| `FileQuota.QuotaBoundIsReached` | crates/fortiq-p2p/src/node.rs:2360-2375 | with any eleven file ids and any filename a legal run reaches that bound, so it is the best possible |
| `KeptFiles.TotalPut` | crates/fortiq-p2p/src/node.rs:2459 | renaming a file into place adds its bytes and takes away those of the file that had its name |
| `KeptFiles.RecordMovesBothIff` | crates/fortiq-p2p/src/node.rs:2459-2486 | a completed file moves the bytes kept and the bytes recorded alike if and only if its id is new to the records or it has the size of what its name held before |
| `KeptFiles.DiscardMovesBothIff` | crates/fortiq-p2p/src/node.rs:2481-2486 | deleting a file whose recording failed leaves the bytes kept alone if and only if it had displaced nothing |
| `KeptFiles.BooksAgreeIff` | crates/fortiq-p2p/src/node.rs:2315-2486 | the bytes kept and the bytes recorded agree throughout a run if and only if every completed file is of that kind |
| `KeptFiles.KeptQuotaHolds` | crates/fortiq-p2p/src/node.rs:2365-2375 | in those runs the files kept plus the bytes in flight stay within the quota plus one file |
| `KeptFiles.KeptForAnyNames` | crates/fortiq-core/src/reducer/ticket.rs:250 | for any file id and any finite set of filenames there is a run after which a ticket keeps a file of the largest size for each name while its records count at most one |
| `KeptFiles.AdmissionKeepsQuotaIff` | crates/fortiq-p2p/src/node.rs:2360-2375 | whatever the check admits fits the quota, with the files kept and in flight, if and only if the records already exceed it or there is room for the largest file the check lets through |
| `FileQuota.FileReceiver.TryAcquire` | crates/fortiq-p2p/src/node.rs:2282-2285 | a permit is given exactly while fewer than two are out |
| `FileQuota.FileReceiver.HandleOffer` | crates/fortiq-p2p/src/node.rs:2315-2375 | accepts exactly the admissible offers; every refusal gives the permit back |
| `FileQuota.FileReceiver.RecordFile` | crates/fortiq-p2p/src/node.rs:2459-2486 | puts the file under its id and name and counts it as received only if the reducer takes it up; when recording fails the file, and with it what it replaced, is gone |
| `OperatorSession.OnlyTheCurrentSessionLives` | apps/fortiq-service/src/ipc_server.rs:1131-1211 | in every run a session ever installed is current iff its token is not cancelled iff its workspace is not wiped, and a bridge with a live token belongs to the current session |
| `OperatorSession.EndsForAReason` | apps/fortiq-service/src/ipc_server.rs:1148-1161 | a session that ceased to be current met an unlock, a lock, its own timer or a check at or after its expiry: never another session's timer |
| `OperatorSession.CancelledStaysCancelled` | apps/fortiq-service/src/ipc_server.rs:1131-1178 | a cancelled session never becomes current again |
| `OperatorSession.AuthorizedIsLive` | apps/fortiq-service/src/ipc_server.rs:36-54 | an authorization is given only in the name of an installed, uncancelled, unwiped, unexpired session with the capability |
| `OperatorSession.IpcState.UnlockOperator` | apps/fortiq-service/src/ipc_server.rs:1131-1161 | retires the previous session, installs the new one and starts its timer |
| `OperatorSession.IpcState.LockOperator` | apps/fortiq-service/src/ipc_server.rs:1170-1178 | retires the session |
| `OperatorSession.IpcState.IsOperatorAuthorizedFor` | apps/fortiq-service/src/ipc_server.rs:36-54 | true exactly for an unexpired session with the capability; an expired one is retired on the way |
| `OperatorSession.IpcState.GetOperatorStatus` | apps/fortiq-service/src/ipc_server.rs:1179-1211 | unlocked exactly before expiry; an expired session is retired on the way |
| `OperatorSession.IpcState.Expire` | apps/fortiq-service/src/ipc_server.rs:1148-1161 | the timer task retires the session only if it is still the one it was started for |
| `OperatorSession.IpcState.OpenTerminal` | apps/fortiq-service/src/ipc_server.rs:1301-1315 | a bridge gets the token of the current session, or is refused |
| `Cbor.ReadHeadSound` | crates/fortiq-core/src/codec.rs:126-174 | a head that is read is well formed and its encoding stands in the input there |
| `Cbor.ReadHeadComplete` | crates/fortiq-core/src/codec.rs:126-174 | wherever the encoding of a head stands, exactly that head is read |
| `Cbor.ScanSound` | crates/fortiq-core/src/codec.rs:116-236 | the item a scan steps over is well formed, not too deep and laid out there, and the cursor is at its end |
| `Cbor.ScanComplete` | crates/fortiq-core/src/codec.rs:116-236 | the depth limit and the guards on the remaining bytes never stop a well-formed item that is not too deep |
| `Cbor.ScanSingleItem` | crates/fortiq-core/src/codec.rs:116-236 | the recursive scan with its cursor terminates, advances within bounds and gives the specified position or error |
| `Cbor.ScanAllIff` | crates/fortiq-core/src/codec.rs:108-114 | scanning to the end succeeds if and only if the input is a concatenation of definite-length items nested at most 32 deep |
| `Cbor.VerifyDefiniteLength` | crates/fortiq-core/src/codec.rs:108-114 | the loop accepts exactly the concatenations of definite-length items nested at most 32 deep |
| `Mnemonic.BitByShift` | crates/fortiq-core/src/authority/mnemonic.rs:106-111 | shift and mask pick the bit that the binary expansion has there |
| `Mnemonic.UnpackFlatten` | crates/fortiq-core/src/authority/mnemonic.rs:106-123 | cutting the concatenated bits gives the values back |
| `Mnemonic.FlattenUnpack` | crates/fortiq-core/src/authority/mnemonic.rs:150-168 | concatenating the cut values gives the bits back |
| `Mnemonic.WriteBits` | crates/fortiq-core/src/authority/mnemonic.rs:106-111 | the nested loops fill the array with the concatenated bits |
| `Mnemonic.ReadValues` | crates/fortiq-core/src/authority/mnemonic.rs:113-123 | the nested loops cut the array into its values |
| `Phrases.WordToIndex` | crates/fortiq-core/src/authority/mnemonic.rs:74-77 | binary search finds the word exactly when the list has it |
| `Phrases.SplitJoin` | crates/fortiq-core/src/authority/mnemonic.rs:93 | splitting joined words at whitespace gives the words back |
| `Phrases.RepackRoundTrips` | crates/fortiq-core/src/authority/mnemonic.rs:106-168 | 24 values of 11 bits and 33 bytes repack into each other without loss, both ways |
| `Phrases.ParseMnemonicPhrase` | crates/fortiq-core/src/authority/mnemonic.rs:92-137 | the loops compute the specified entropy, or the first error among word count, first unknown word and checksum |
| `Phrases.EntropyToMnemonic` | crates/fortiq-core/src/authority/mnemonic.rs:140-171 | the loops compute the specified phrase |
| `Phrases.ParseOfPhrase` | crates/fortiq-core/src/authority/mnemonic.rs:92-171 | parsing the phrase of any 256-bit entropy gives it back |
| `Phrases.PhraseOfParse` | crates/fortiq-core/src/authority/mnemonic.rs:92-171 | any accepted phrase re-encodes to the same 24 words |
| `Framing.Wire.Write` | crates/fortiq-shell/src/lib.rs:253-294 | appends the encoding, or refuses data over 65535 bytes and writes nothing |
| `Framing.Wire.Drain` | crates/fortiq-shell/src/lib.rs:211-251 | repeated reads give the frames of the stream and how it ended |
| `Framing.ReadsBack` | crates/fortiq-shell/src/lib.rs:211-294 | a written frame is read back and nothing after it is touched |
| `Framing.ReadIsEncodingIff` | crates/fortiq-shell/src/lib.rs:211-251 | what was read is its own encoding if and only if a ping or pong carries length 0 |
| `Framing.LongPingIsRead` | crates/fortiq-shell/src/lib.rs:244-245 | an input that is read and is not its own encoding: a ping with a length |
| `Framing.StreamRoundTrip` | crates/fortiq-shell/src/lib.rs:211-294 | any list of frames is read back exactly, followed by the end of the stream |
| `Framing.PartialFrame` | crates/fortiq-shell/src/lib.rs:211-251 | a stream that stops inside a header is taken for its end, and one that stops inside a body is an error |
| `Framing.CutStreamReads` | crates/fortiq-shell/src/lib.rs:211-251 | wherever a stream is cut off, exactly the frames wholly before the cut are read, and the ending is the one the bytes left over tell |
| `Framing.CutGoesUnnoticedIff` | crates/fortiq-shell/src/lib.rs:215-220 | a cut looks like a clean end if and only if it falls less than three bytes after the end of a frame |
| `SigningPayloads.MutationSigningPayload` | crates/fortiq-p2p/src/node.rs:128-140 | the pushes build the mutation payload |
| `SigningPayloads.SessionSigningPayload` | crates/fortiq-p2p/src/node.rs:204-226 | the loop over the five texts and the time build the session payload |
| `SigningPayloads.ShellSigningPayload` | crates/fortiq-shell/src/lib.rs:94-109 | the pushes build the shell payload |
| `SigningPayloads.DomainsDiffer` | crates/fortiq-p2p/src/node.rs:128-140 | equal payloads are of the same kind |
| `SigningPayloads.PayloadUnambiguous` | crates/fortiq-p2p/src/node.rs:204-226 | equal payloads of any two kinds come from equal fields, for texts below 2^32 bytes |
| `SigningPayloads.LongTextsCollide` | crates/fortiq-shell/src/lib.rs:94-109 | that bound is needed: lengths are written with 32 bits |

## Left out

- The libp2p swarm, rendezvous, relays, dialing and HELLO: only connect, fail, deliver and respond remain, as steps that
  may happen at any time.
- Ed25519, BLAKE3, SHA-256, HKDF and the CBOR and JSON serializers: see the assumptions above. An outbox payload is
  taken to be readable; the code drops one that is not.
- The file system: the object store and the outbox are persistent values, and a write that fails is not modelled.
- PTY serving, shell detection, system services, the command line, the desktop client and the terminal grid.
- The record of an accepted shell as a session of its ticket: `crates/fortiq-p2p/src/node.rs:2234-2239` passes session
  and ticket in the opposite order to `crates/fortiq-core/src/engine.rs:347-353`.
- The queries (`ticket_heads`, `missing_parents` and the lists), chat, file sending and `import_canonical_ticket`.
- `validate_cbor_value`: the second pass over the decoded value, with its size limits.
- Integer widths other than the Lamport clock: revisions and byte sums are unbounded here, and `usize` is taken to hold
  any 64-bit length, so the overflow errors of the scanner are the same refusals as its length guards.
- Cbor.VerifyDefiniteLength: the grammar admits two-byte simple values below 32, which RFC 8949 calls not well-formed,
  because the scanner does.
- Outbox.AtMostOnePerRevision: excludes object ingestion at the receiver, because it does not hold with it, as
  `RevisionDrops.SameMutationPassesTwice` shows. Receivers are bare stores here, as `LocalNode.LocalNodeIsAStore` allows
  for nodes whose graph refuses none of their own events, which is until a clock reaches 2^64 - 1.
- FileQuota.QuotaHolds: counts the bytes that incoming transfers recorded, because those are what admission limits;
  `KeptFiles` has the files themselves. Attachments that a node adds itself are checked against nothing in the source.
  Excludes object ingestion.
- FileQuota.FileReceiver.RecordFile: two transfers under one id that write the same temporary file are not modelled.
- ShellGate: a handshake that cannot be read is refused before the model begins.
- Mnemonic.ReadValues: setting a clear bit with `|=` is written as an addition.
- OperatorSession: a terminal bridge does not check the expiry of its session itself; the timer does, and so does every
  request. Zeroing the session key on lock is part of wiping.
- Outbox: commands that wait for a dial may be flushed, and outbox records sent again, whenever the peer is connected,
  which allows every run of the source and more.
- Termination of the exchange (an entry is eventually decided) needs fairness of the network and is not stated.
