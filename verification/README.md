# A model of conrt's callback runtime, buffer pools and daemon

`conrt` is a container runner.  Its daemon is written in callback style on top of `coio`, a single-threaded
completion runtime with two slabs of in-flight operations and cancellations, a backend behind them (a readiness
poller or `io_uring`), pooled buffers shared with the kernel, and a daemon that relays and caches container output.
This project models the parts of that where the difficulty lies and proves what they promise, for every input, every
callback and every order of completions.

## How it is laid out

| files | what they model |
|---|---|
| `Protocol`, `ProtocolProofs`, `ProtocolTheorems` | the runtime's cancel protocol as a state machine, its invariant, and the promises over every run |
| `LateCancel`, `HonestBackend`, `HonestBooks` | cancel completions that arrive late, with any backend and with one that owes exactly one completion per accepted cancel |
| `Runtime` | the same runtime in place: slabs threaded by free stacks, packed slot words, the drive loop, the teardown, proved against the protocol |
| `Mio`, `MioProofs`, `MioTheorems`, `MioReports` | the readiness backend, and the runtime composed with it |
| `Arena`, `ArenaProofs`, `BufferedRuntime` | the size-class arena of erased caller buffers, what completion shims are given, and the runtime composed with it |
| `Buffers`, `Layout`, `Modular` | borrow counts and views, the fixed slab, the provided ring shared with the kernel, size classes, packed ids, slab layout |
| `LogCache`, `Follow` | the line splitter, the ring of log lines, live log followers |
| `Frames`, `Handshake` | the framed stream, the output relay, the session with its exit handshake |
| `Reaper` | containers, their drains and the reaper |

Code that changes things in place is modelled by classes and methods whose contracts give the new state as a function
of the old one; the theorems are about those functions.  What the source leaves to the outside is an argument that the
theorems quantify over:

- a callback is the finite sequence of registrations and cancellations it makes in one run;
- a backend decides whether a request is armed or a cancel is submitted, and which completions arrive in which order
  (the only completions excluded are those the runtime's own assertions reject);
- the poller's events, the results of syscalls, short reads and short writes, the kernel's choice of the moment to
  consume a buffer, and the exit of a child are nondeterministic.

Locals, requests and erased buffers are opaque values.  Integers are unbounded; the widths that matter are written out:
62-bit ids in a 64-bit slot word, 32-bit free-list sentinels, the wrapping 16-bit ring tail, the 16-bit frame length,
the 7-bit class and 24-bit slot of a packed buffer id.

## Where the code does not keep what its comments say

Each of these is modelled as the code is, and delimited by the exact condition.  Where the failing family does not
speak for itself there is a concrete run as well.

- A cancel slot is freed by its op's completion before the cancel's own completion has arrived, so a late failure can
  land on a later cancel in the same slot and suppress its callback (`LateCancel.LateCancelStealsCallback`).  On a
  backend that keeps its contract of one completion per accepted request, a cancel is sure of its callback, should its
  op be cancelled and the cancel itself not fail, if and only if no completion is owed for the slot it takes at the
  moment it is accepted (`HonestBackend.AcceptedCancelIsSureIff`).  On the readiness backend every cancel is
  (`MioTheorems.EveryCancelWins`).
- `dispatch_shim` puts the old arena back over whatever the shim allocated; its comment calls allocating there correct.
  A buffered op registered by a shim later receives another op's bytes, or panics
  (`ArenaTheorems.NestedRegistrationGetsAnothersBuffer`, `ArenaTheorems.NestedRegistrationPanics`).  The dispatch keeps
  the arena sound if and only if the shim arms no buffered op (`ArenaProofs.DispatchSoundIff`).
- `split_line` says the chunks deliver exactly the line; a buffer that is not the last carries one byte too many.  It
  is exact if and only if the line fits one buffer (`FollowPipes.SplitLineExactIff`).
- A frame is read back if and only if its payload is shorter than 65536 bytes (`Frames.ParseInvertsBuildIff`).
- `session_is_exit` takes any frame that completes after the exit frame was armed for the exit frame.  Once armed, the
  exit frame is sure to be delivered if and only if the reply frame is already out (`ExitHandshake.ExitSafeIff`; such a
  session is reachable, `ExitHandshake.ReplyCanOutlastTheChild`).
- The reply and the output drain write to one stream side by side, which can garble it
  (`ExitHandshake.UnorderlyReplyIsGarbled`).  A run keeps the stream in order if and only if no byte of a data or exit
  frame goes out before the reply is out (`ExitHandshake.InOrderIff`); a session in order stays so whatever happens,
  and is read back whole whenever it ends by itself, if and only if its reply is out (`ExitHandshake.StreamSafeIff`,
  `ExitHandshake.EndsWholeIff`).
- `LogCache::push` never finds room for a line longer than the ring; it empties the ring and then scans beyond it.
  This is so exactly for lines of the ring's length or more (`LogCaches.LogCache.PushLine` reports `ok == false`).
- `BytesMut::set_len` checks the end of the slot only.  It keeps exclusive views apart if and only if the new length
  reaches no sibling (`BufferViews.SetLenIff`); growing the front half of a split over the other half breaks this
  (`BufferViews.GrownHalfOverlaps`).
- A container with drains is removed when its drains have ended, whether or not its child has exited
  (`Containers.RemovedExactlyOnce`, and `Containers.RemovedBeforeExit` for a run).

## Model

| member | source | states |
|---|---|---|
| `Protocol.FindCancel` | libs/coio-core/src/runtime.rs:953-965 | the scan returns the first live cancel naming the op by slot and id, and none only if there is none |
| `ProtocolProofs.RegisterKeeps` | libs/coio-core/src/runtime.rs:736-769 | registering, armed or refused, keeps linkage, unique ids and the ledger of locals, also while another op is in transit |
| `ProtocolProofs.CancelKeeps` | libs/coio-core/src/runtime.rs:807-849 | cancelling, submitted, refused or on a dead handle, keeps the invariant |
| `ProtocolProofs.PerformAllKeeps` | libs/coio-core/src/runtime.rs:736-849 | whatever a callback does, the invariant holds and the op in transit keeps its slot and record |
| `ProtocolProofs.CancelFound` | libs/coio-core/src/runtime.rs:953-965 | an op marked pending always has its cancel found by the scan |
| `ProtocolProofs.SettleKeeps` | libs/coio-core/src/runtime.rs:884-898 | settling a completing op consumes exactly its cancel; the op is then the one slot excepted from the linkage |
| `ProtocolProofs.DeliverKeeps` | libs/coio-core/src/runtime.rs:900-914 | freeing the slot and delivering the local restores the invariant with no exception |
| `ProtocolProofs.CompleteOpKeeps` | libs/coio-core/src/runtime.rs:860-944 | an op completion with its callbacks keeps the invariant, and its slot stays claimed while the cancel's callback runs |
| `ProtocolProofs.CompleteCancelKeeps` | libs/coio-core/src/runtime.rs:974-1003 | any in-range cancel completion, late or stray ones included, keeps the invariant |
| `ProtocolProofs.RunKeeps` | libs/coio-core/src/runtime.rs:1033-1089 | every run keeps the invariant |
| `ProtocolTheorems.ReachableInv` | libs/coio-core/src/runtime.rs:555-1089 | the invariant holds in every reachable state |
| `ProtocolTheorems.CancelLinkage` | libs/coio-core/src/runtime.rs:807-1003 | in every reachable state an op is marked pending iff exactly one live cancel names it by slot and id, and every live cancel names a live pending op |
| `ProtocolTheorems.TransitKept` | libs/coio-core/src/runtime.rs:879-900 | while its cancel's callback runs a completing op keeps its slot and record, whatever the callback does |
| `ProtocolTheorems.CancelTakesEffect` | libs/coio-core/src/runtime.rs:807-849 | wherever it is called: a handle with the id of the live, unmarked op in its slot leaves one event with a fresh id and, if submitted, marks the op and adds one live cancel naming it, all else unchanged; any other handle changes nothing |
| `ProtocolTheorems.RegisterTakesEffect` | libs/coio-core/src/runtime.rs:736-769 | wherever it is called: one event with a fresh id and, if armed, exactly one formerly free slot holding the unmarked op, all else unchanged |
| `ProtocolTheorems.CanPerformIff` | libs/coio-core/src/runtime.rs:69-76 | only the id limit and the slab limit stand in the way of a call |
| `ProtocolTheorems.CanTakeIff` | libs/coio-core/src/runtime.rs:1019-1057 | only the runtime's assertions on the slot stand in the way of a completion |
| `ProtocolTheorems.FreedIsNext` | libs/coio-core/src/runtime.rs:652-689 | a freed slot is the next to be taken; with none free the slab grows |
| `ProtocolTheorems.CallsLeaveEvents` | libs/coio-core/src/runtime.rs:736-849 | every call of a callback takes effect: one event each, in order, made in the state the earlier ones left |
| `ProtocolTheorems.LocalsAreLinear` | libs/coio-core/src/runtime.rs:671-944 | every id ever issued has its local in exactly one place: one op slot, one cancel slot, or delivered or dropped once |
| `ProtocolTheorems.HandedInLocalIsPlaced` | libs/coio-core/src/runtime.rs:736-849 | a local handed in anywhere, callbacks included, is refused as the whole story of a fresh id, or owned by one live slot under a fresh id, or its handle is rejected and nothing refers to it |
| `ProtocolTheorems.QuiescenceDeliversAll` | libs/coio-core/src/runtime.rs:1059-1089 | with nothing in flight every armed op ran its callback exactly once and every submitted cancel won or lost exactly once |
| `ProtocolTheorems.TeardownSettlesAll` | libs/coio-core/src/runtime.rs:1119-1145 | after a teardown at any point every local was delivered or dropped exactly once, and is the one handed in |
| `ProtocolTheorems.TeardownOrder` | libs/coio-core/src/runtime.rs:1119-1145 | op slots are torn down before cancel slots, each slab from its first slot on |
| `ProtocolTheorems.StaleHandleIsInert` | libs/coio-core/src/runtime.rs:807-818 | once an op's callback ran, cancelling its handle changes nothing in any continuation of the run |
| `ProtocolTheorems.DispatchShape` | libs/coio-core/src/runtime.rs:860-944 | exactly which callbacks one op completion runs, in which order, on which locals and with which result, and that the calls each makes leave one event each in order |
| `ProtocolTheorems.CancelledIffCancelRan` | libs/coio-core/src/runtime.rs:860-944 | in every run an op reports `Cancelled` iff its cancel's callback ran before it on the same local with no callback between them |
| `LateCancel.LateCancelStealsCallback` | libs/coio-core/src/runtime.rs:884-1003 | a run on which a late cancel completion suppresses another cancel's callback |
| `LateCancel.CancelSurvivesIff` | libs/coio-core/src/runtime.rs:974-1003 | with any backend: when an op is reported cancelled, its accepted cancel is still there and its callback runs iff no failing cancel completion named its slot before |
| `HonestBackend.MoveProjects` | libs/coio-core/src/backend.rs:48-58 | every move of a backend that owes one completion per accepted cancel is a step of the protocol and passes the runtime's assertions |
| `HonestBackend.MoveClear` | libs/coio-core/src/runtime.rs:860-1003 | while a cancel holds its slot no other completion comes to be owed for that slot, whatever callbacks do |
| `HonestBackend.OwedSteals` | libs/coio-core/src/runtime.rs:974-1003 | a completion owed to another cancel for the slot can cost the cancel in it its callback |
| `HonestBackend.CallbackSureIff` | libs/coio-core/src/runtime.rs:860-1003 | in every honest continuation in which the op is cancelled and the cancel itself does not fail its callback runs on its op's local, iff nothing else is owed for its slot |
| `HonestBackend.AcceptedCancelIsSureIff` | libs/coio-core/src/runtime.rs:807-849 | in every honest run a cancel is sure of its callback iff, when it is accepted, no completion is owed for the slot it takes |
| `HonestBackend.AcceptedInCallbackIff` | libs/coio-core/src/runtime.rs:807-944 | the same condition for a cancel accepted inside a callback, seen from that callback's end |
| `HonestBackend.NewSlotIsSure` | libs/coio-core/src/runtime.rs:691-701 | a cancel that grows the slab is always sure of its callback |
| `HonestBackend.CompletionsArePossible` | libs/coio-core/src/backend.rs:48-58 | nothing but the contract bounds the backend: any live op may complete in any way, any owed completion may arrive with any result |
| `HonestBooks.OwedExactly` | libs/coio-core/src/backend.rs:48-58 | in every honest run exactly one completion is owed for exactly the cancels that were submitted and whose completion has not arrived |
| `SlotSlabs.SlotSlab.Claim` | libs/coio-core/src/runtime.rs:652-665 | pops the free stack or grows the slab, and claims that slot |
| `SlotSlabs.SlotSlab.ClaimTop` | libs/coio-core/src/runtime.rs:652-660 | the popped slot was the top of the threaded stack; the rest stays threaded |
| `SlotSlabs.SlotSlab.ClaimNew` | libs/coio-core/src/runtime.rs:691-701 | growth appends one live slot and leaves the stack alone |
| `SlotSlabs.SlotSlab.Free` | libs/coio-core/src/runtime.rs:684-724 | the slot becomes the top of the stack, threaded through its own link, and the counter falls by one |
| `SlotSlabs.SlotSlab.SetWord` | libs/coio-core/src/runtime.rs:818-828 | changing a live slot's word changes nothing else |
| `SlotSlabs.FreeStackWalk` | libs/coio-core/src/runtime.rs:400-509 | following the links visits exactly the slots with word 0, each once, and ends at the sentinel; the counter is the number of live slots |
| `CallbackRuntime.WordRoundTrip` | libs/coio-core/src/runtime.rs:69-126 | ids below 2^62 are recovered exactly from the flagged word, which is the id with bit 62 added |
| `CallbackRuntime.Runtime.RegisterOp` | libs/coio-core/src/runtime.rs:736-769 | takes the protocol's registration step; the handle names the slot and id used |
| `CallbackRuntime.Runtime.CancelOp` | libs/coio-core/src/runtime.rs:807-828 | takes the protocol's cancel step; a rejected handle changes nothing; the local is dropped in the call exactly when no slot took it |
| `CallbackRuntime.Runtime.SubmitCancel` | libs/coio-core/src/runtime.rs:830-849 | a submitted cancel is linked to its op, a refused one leaves no trace but its spent id |
| `CallbackRuntime.Runtime.FindCancelOf` | libs/coio-core/src/runtime.rs:953-965 | the scan over slot words finds what the protocol finds |
| `CallbackRuntime.Runtime.ConsumeCancelOf` | libs/coio-core/src/runtime.rs:921-944 | takes the op's cancel out, for its callback or dropping it |
| `CallbackRuntime.Runtime.FreeOpSlotTaken` | libs/coio-core/src/runtime.rs:684-689 | clears the mark and frees the slot of a completed op |
| `CallbackRuntime.Runtime.CompleteOp` | libs/coio-core/src/runtime.rs:860-914 | takes the protocol's completion step with both callbacks re-entering the runtime |
| `CallbackRuntime.Runtime.CompleteCancel` | libs/coio-core/src/runtime.rs:974-1003 | takes the protocol's cancel-completion step |
| `CallbackRuntime.Runtime.TakeCompletion` | libs/coio-core/src/runtime.rs:1033-1057 | routes a completion to its slab and stays on a run of the protocol |
| `CallbackRuntime.Runtime.DrainCompletions` | libs/coio-core/src/runtime.rs:1059-1070 | performs exactly the run made of the completions the backend reports |
| `CallbackRuntime.Runtime.HasInflight` | libs/coio-core/src/runtime.rs:1072-1074 | the counters are both zero exactly at quiescence |
| `CallbackRuntime.Runtime.Drive` | libs/coio-core/src/runtime.rs:1077-1089 | performs the completions of its passes in order; goes on exactly while something is in flight and the wait succeeds; ends quietly iff at quiescence, with an error iff the last wait failed short of it |
| `CallbackRuntime.PassesAreTheirDeliveries` | libs/coio-core/src/runtime.rs:1059-1070 | a drain takes every completion reported to it, in order |
| `CallbackRuntime.Runtime.Teardown` | libs/coio-core/src/runtime.rs:1119-1145 | drops exactly the locals the live slots own, op slab first |
| `MioBackend.MioPoller.ArmOp` | libs/coio-mio/src/mio.rs:130-149 | grows the table and arms the slot, or on a poller error changes nothing |
| `MioBackend.MioPoller.TakeOp` | libs/coio-mio/src/mio.rs:95-102 | removes and returns an armed entry, tolerating any slot |
| `MioBackend.MioPoller.NextCompletion` | libs/coio-mio/src/mio.rs:167-217 | decided completions first, then one event; issues the armed request and no other; a blocked syscall leaves the entry armed |
| `MioBackend.MioPoller.CancelOp` | libs/coio-mio/src/mio.rs:219-253 | refuses exactly what is not armed, else queues the cancel's completion and then the op's |
| `MioBackend.MioPoller.BeginTeardown` | libs/coio-mio/src/mio.rs:255-270 | leaves nothing armed and nothing queued |
| `MioProofs.AdvanceSysKeeps` | libs/coio-mio/src/mio.rs:95-253 | every step of runtime and backend together, callbacks included, keeps the joint invariant |
| `MioTheorems.QueueOfPairs` | libs/coio-mio/src/mio.rs:219-253 | in every run the queue is adjacent (cancel, op) pairs, possibly minus the first element, each pair of one live cancel and its op |
| `MioTheorems.ArmedOrQueued` | libs/coio-mio/src/mio.rs:95-253 | a slot is live iff it is armed or has a queued completion, never both; queued iff marked pending |
| `MioTheorems.NeverPanics` | libs/coio-core/src/runtime.rs:1019-1057 | whatever poller and syscalls answer, every completion passes the runtime's assertions |
| `MioTheorems.NeverOverwritesNeverRefuses` | libs/coio-mio/src/mio.rs:130-149 | in every run, outside callbacks and between any two calls inside one, no armed entry is overwritten and every cancellation of a live unmarked op finds it armed |
| `MioTheorems.EveryCancelWins` | libs/coio-mio/src/mio.rs:219-253 | at quiescence every accepted cancel ran its callback exactly once on its own victim |
| `MioTheorems.NoCancelIsLost` | libs/coio-mio/src/mio.rs:219-253 | no run refuses or drops a cancel |
| `MioTheorems.MioRefinesProtocol` | libs/coio-core/src/runtime.rs:1033-1089 | every run on this backend is a run of the protocol, so all of its theorems apply |
| `MioReports.RoundIsPossible` | libs/coio-mio/src/mio.rs:167-217 | in every state of every run a round can be made, whatever poller and syscalls answer |
| `MioReports.RoundReportsResult` | libs/coio-mio/src/mio.rs:176-217 | with nothing queued: the callback of the op armed under the event's slot gets its local and the syscall's result, an error negated; no event, nothing armed or a blocked syscall changes nothing |
| `MioReports.RoundTakesQueue` | libs/coio-mio/src/mio.rs:167-173 | with completions queued the first is taken whatever the poller says: a cancel's changes nothing in the runtime, an op's runs its cancel's callback and then its own with `Cancelled` |
| `MioReports.CallRequests` | libs/coio-mio/src/mio.rs:130-149 | a registration arms its own request under its slot, and no call touches another entry's request |
| `MioReports.RequestStays` | libs/coio-mio/src/mio.rs:95-253 | in every run an op that stays armed keeps the request it was registered with |
| `BufferArena.ClassFrom` | libs/coio-core/src/runtime.rs:221-227 | the class found is the smallest that holds the buffers |
| `BufferArena.BufArena.AllocRun` | libs/coio-core/src/runtime.rs:177-211 | pops the class's free list or appends a run |
| `BufferArena.BufArena.ReleaseRun` | libs/coio-core/src/runtime.rs:213-218 | puts the run on top of its class's list, linking through its first block |
| `BufferArena.BufferedOps.Register` | libs/coio-core/src/runtime.rs:592-769 | carves and fills a run, releasing it again where arming fails |
| `BufferArena.BufferedOps.Complete` | libs/coio-core/src/runtime.rs:608-637 | the slice handed to the shim, and the arena after the swap in and out |
| `ArenaProofs.RegisterSound` | libs/coio-core/src/runtime.rs:592-601 | registering keeps the arena partitioned into class-sized runs, each on its own class's list or owned by one op, with every op's buffers intact |
| `ArenaProofs.SoundFits` | libs/coio-core/src/runtime.rs:592-601 | in a sound arena every run handed out lies inside it |
| `ArenaProofs.CanRegisterIff` | libs/coio-core/src/runtime.rs:177-211 | in a sound arena a registration is possible exactly when its id is fresh and the source's own assertions on length and room hold |
| `ArenaProofs.ShimCanRegisterIff` | libs/coio-core/src/runtime.rs:608-637 | the same in the empty arena a shim is left with, whatever it registered before |
| `ArenaProofs.SliceIsGiven` | libs/coio-core/src/runtime.rs:608-637 | in a sound arena a shim gets exactly the buffers its op was registered with, whatever the cancel's callback registers first |
| `ArenaProofs.NoRoom` | libs/coio-core/src/runtime.rs:164-232 | a partitioned arena has no room for one more run |
| `ArenaProofs.DispatchSoundIff` | libs/coio-core/src/runtime.rs:608-637 | dispatch keeps the arena sound iff the shim armed no buffered op |
| `ArenaTheorems.CleanRunSound` | libs/coio-core/src/runtime.rs:592-637 | the arena is sound after every run whose shims arm no buffered op |
| `ArenaTheorems.ShimsGetTheirBuffers` | libs/coio-core/src/runtime.rs:608-637 | in every such run each shim gets exactly its op's buffers |
| `ArenaTheorems.AllocTakes` | libs/coio-core/src/runtime.rs:177-227 | a run comes from the smallest class that holds it: the top of its list if there is one, else exactly one more run of that class at the end |
| `ArenaTheorems.ReleasedIsReused` | libs/coio-core/src/runtime.rs:177-218 | a released run is the next its class hands out, and the list is then as it was |
| `ArenaTheorems.NestedRegistrationGetsAnothersBuffer` | libs/coio-core/src/runtime.rs:608-637 | a run on which a shim is handed the remains of another op's buffer |
| `ArenaTheorems.NestedRegistrationPanics` | libs/coio-core/src/runtime.rs:608-637 | a run on which the shim's slice is out of range |
| `BufferedRuntime.OpDoneKeeps` | libs/coio-core/src/runtime.rs:860-914 | an op completion with its callbacks, in runtime and arena together, keeps runs and live ops matched |
| `BufferedRuntime.CompletionsArePossible` | libs/coio-core/src/runtime.rs:1019-1057 | only the runtime's assertions bound the completions |
| `BufferedRuntime.RunsBelongToLiveOps` | libs/coio-core/src/runtime.rs:400-425 | in every run whose shims arm no buffered op, each run of the arena belongs to exactly one live op, and a live op has one iff it was registered with buffers |
| `BufferedRuntime.CallbackGetsItsBuffers` | libs/coio-core/src/runtime.rs:860-914 | in every such run an op's callback is handed exactly the buffers the op was registered with |
| `BufferViews.BorrowTracker.Take` | libs/coio-uring/src/buf/tracker.rs:34-53 | the first view of a free slot; counts stay the signed number of views |
| `BufferViews.BorrowTracker.Share` | libs/coio-uring/src/buf/tracker.rs:57-61 | one more shared view of a slot that is provably shared |
| `BufferViews.BorrowTracker.SplitAt` | libs/coio-uring/src/buf/tracker.rs:65-72 | two disjoint exclusive views inside the slot, counted |
| `BufferViews.BorrowTracker.SetLen` | libs/coio-uring/src/buf.rs:493-507 | changes the view only; the views stay sound exactly when the new length reaches no exclusive sibling |
| `BufferViews.SetLenIff` | libs/coio-uring/src/buf.rs:493-507 | exclusive views stay disjoint and inside the slot iff the new length reaches no sibling |
| `BufferViews.GrownHalfOverlaps` | libs/coio-uring/src/buf.rs:493-546 | growing the front half of a split makes the halves overlap |
| `BufferViews.BorrowTracker.Flip` | libs/coio-uring/src/buf/tracker.rs:76-94 | the sole view changes kind and the count its sign |
| `BufferViews.BorrowTracker.Drop` | libs/coio-uring/src/buf/tracker.rs:100-117 | reports the last release exactly when no view is left; a live view never trips the assertions |
| `BufferViews.TracksFlip` | libs/coio-uring/src/buf/tracker.rs:76-94 | at count one or minus one the view is the only one, so flipping its kind is sound |
| `FixedSlabs.FixedSlab.constructor` | libs/coio-uring/src/buf/fixed.rs:47-71 | every slot free, stacked so that slots go out in ascending order |
| `FixedSlabs.FixedSlab.Acquire` | libs/coio-uring/src/buf/fixed.rs:94-107 | pops the top of the stack, a slot no view holds, and none exactly when every slot is viewed |
| `FixedSlabs.FixedSlab.ShareView` | libs/coio-uring/src/buf.rs:349-368 | a narrower shared view, or none exactly when out of range |
| `FixedSlabs.FixedSlab.SplitView` | libs/coio-uring/src/buf.rs:518-546 | two disjoint halves; out of range yields none and releases the consumed view |
| `FixedSlabs.FixedSlab.FlipView` | libs/coio-uring/src/buf.rs:380-389 | changing the kind of the sole view leaves the free stack exact |
| `FixedSlabs.FixedSlab.DropView` | libs/coio-uring/src/buf/pool.rs:58-62 | the slot returns to the stack with its last view and not before |
| `ProvidedSlabs.MaskedPlace` | libs/coio-uring/src/buf/provided.rs:160-162 | masking the wrapped 16-bit counter gives the place of the unwrapped one |
| `ProvidedSlabs.TailIsFree` | libs/coio-uring/src/buf/provided.rs:160-185 | the descriptor recycling writes is never one the kernel has still to read, and those are as published |
| `ProvidedSlabs.ProvidedSlab.constructor` | libs/coio-uring/src/buf/provided.rs:92-130 | every buffer is in the ring window, in ascending order, none consumed or viewed |
| `ProvidedSlabs.ProvidedSlab.KernelConsume` | libs/coio-uring/src/buf/provided.rs:160-208 | the kernel, with its own wrapping head, reads the oldest published buffer, which nobody holds |
| `ProvidedSlabs.ProvidedSlab.Select` | libs/coio-uring/src/buf/provided.rs:195-240 | adopting a consumed buffer never finds it viewed; window, consumed and viewed stay a partition |
| `ProvidedSlabs.ProvidedSlab.ShareView` | libs/coio-uring/src/buf.rs:349-368 | narrowing keeps the partition; none exactly when out of range |
| `ProvidedSlabs.ProvidedSlab.SplitView` | libs/coio-uring/src/buf.rs:518-546 | splitting keeps the partition; out of range releases the view |
| `ProvidedSlabs.ProvidedSlab.FlipView` | libs/coio-uring/src/buf.rs:380-389 | changing the kind of the sole view keeps the partition |
| `ProvidedSlabs.ProvidedSlab.DropView` | libs/coio-uring/src/buf/pool.rs:58-62 | the buffer re-enters the ring with its last view and not before |
| `ProvidedSlabs.ProvidedSlab.Recycle` | libs/coio-uring/src/buf/provided.rs:160-185 | writes one descriptor behind the window and leaves every unconsumed one as it was, across any number of wraps |
| `SlabLayout.BidRoundTrip` | libs/coio-uring/src/classes.rs:80-98 | packed ids unpack exactly and fit 32 bits |
| `SlabLayout.BidFields` | libs/coio-uring/src/classes.rs:80-98 | for any arguments: slot modulo 2^24 in the low bits, class modulo 128 above it, the flag in bit 31, and all three come back |
| `SlabLayout.PowerOfTwoIff` | libs/coio-uring/src/classes.rs:168-171 | the test accepts exactly the powers of two |
| `SlabLayout.LayoutClasses` | libs/coio-uring/src/classes.rs:138-204 | accepts a table, as given, exactly under the source's assertions written out, and lays out its sorted form |
| `SlabLayout.ClassPlacement` | libs/coio-uring/src/classes.rs:185-203 | a class starts at the first offset behind the one before that its size, capped at 4096, divides, and takes exactly its slots' bytes |
| `SlabLayout.SortBySize` | libs/coio-uring/src/classes.rs:151-152 | a sorted permutation |
| `SlabLayout.ClassOrder` | libs/coio-uring/src/classes.rs:161-203 | classes follow one another without overlap |
| `SlabLayout.SlotInSlab` | libs/coio-uring/src/pools.rs:178-256 | every slot of an accepted configuration lies inside the combined slab, on its direction's side |
| `SlabLayout.SlotIsAligned` | libs/coio-uring/src/pools.rs:178-256 | every slot's offset is divisible by its size capped at 4096 |
| `SlabLayout.SlotPlacement` | libs/coio-uring/src/pools.rs:178-256 | the slots of a class follow one another from its base; the fixed region starts at the first offset behind the provided one that the widest alignment divides |
| `SlabLayout.SlotsAreDisjoint` | libs/coio-uring/src/pools.rs:178-256 | different slots, of either direction, share no byte |
| `SlabLayout.BidNamesSlot` | libs/coio-uring/src/pools.rs:155-164 | a packed id leads back to its slot, and different slots have different ids |
| `Lines.SplitRebuilds` | libs/core/src/daemon.rs:1801-1816 | lines, newlines and leftover rebuild the stream, and no line or leftover holds a newline |
| `Lines.SplitConcat` | libs/core/src/daemon.rs:1801-1816 | splitting may stop anywhere and go on with the leftover |
| `Lines.DrainLines` | libs/core/src/daemon.rs:1801-1816 | the loop yields the split of leftover plus new bytes |
| `Lines.ChunkingIsIrrelevant` | libs/core/src/daemon.rs:2010-2037 | any cut of a stream into reads yields the same lines and leftover |
| `LogCaches.EvictIsLongest` | libs/core/src/daemon.rs:307-328 | what eviction keeps is the longest suffix of lines that fits |
| `LogCaches.LogCache.PushLine` | libs/core/src/daemon.rs:307-333 | for any line: the longest suffix that leaves room, then the line (as several if it holds newlines); fails exactly when the line exceeds the ring |
| `LogCaches.LogCache.FindNewline` | libs/core/src/daemon.rs:314-327 | the modular scan terminates at the end of the first line |
| `LogCaches.LogCache.DropFirst` | libs/core/src/daemon.rs:314-326 | one eviction round drops exactly the oldest line, at every wrap position |
| `LogCaches.LogCache.Append` | libs/core/src/daemon.rs:329-333 | bytes go in behind the last one, going round, and disturb no cached byte |
| `LogCaches.LogCache.Snapshot` | libs/core/src/daemon.rs:337-349 | the cached lines each with its newline, also for a full ring |
| `LogCaches.LogCache.CollectLines` | libs/core/src/daemon.rs:352-386 | exactly the cached lines |
| `LogCaches.CacheIsSuffix` | libs/core/src/daemon.rs:307-348 | after any pushes the cache is a suffix of them within its capacity, the newest included |
| `LogCaches.SnapshotIsStreamSuffix` | libs/core/src/daemon.rs:1847-1866 | fed by the splitter in any chunks, a snapshot is a line-aligned suffix of the stream's complete lines |
| `FollowPipes.SplitLineExactIff` | libs/core/src/daemon.rs:1818-1842 | the write buffers carry the line and its newline iff the line has at most 65535 bytes |
| `FollowPipes.FollowerSees` | libs/core/src/daemon.rs:396-483 | what a faithful follower got: the snapshot, whole later lines in order, then at most a prefix of the line under way |
| `FollowPipes.FaithfulTakes` | libs/core/src/daemon.rs:1847-1875 | giving an idle follower the next line keeps it faithful |
| `FollowPipes.FaithfulWrites` | libs/core/src/daemon.rs:1903-1952 | a partial, whole or empty write keeps the follower faithful |
| `FollowPipes.SwapRemove` | libs/core/src/daemon.rs:454-461 | removes exactly one pipe |
| `FollowPipes.LogGateway.Attach` | libs/core/src/daemon.rs:1432-1510 | with or without a backlog: a new pipe starts with what its pipe took of the snapshot, all of it unless a write took nothing, idle, under an id of its own; a failing write attaches nothing |
| `FollowPipes.LogGateway.PushLine` | libs/core/src/daemon.rs:1847-1875 | every idle pipe takes the line, every busy one skips it; each pipe has at most one write, exactly while marked; all stay faithful; a line longer than the cache fails there and reaches no pipe |
| `FollowPipes.LogGateway.WriteDone` | libs/core/src/daemon.rs:1903-1939 | the written bytes join what the follower got, the rest is armed again or the pipe is idle; all stay faithful |
| `FollowPipes.LogGateway.WriteFailed` | libs/core/src/daemon.rs:1940-1952 | removes that pipe only; the others keep their writes and stay faithful |
| `Frames.FrameBytes` | libs/core/src/lib.rs:21-27 | a frame is its type, its length modulo 65536 low byte first, its payload |
| `Frames.ParseInvertsBuildIff` | libs/core/src/lib.rs:21-27 | a frame is read back iff its payload is shorter than 65536 bytes, whatever follows it |
| `Frames.DecodeInvertsBuild` | libs/core/src/lib.rs:21-72 | reading inverts any concatenation of such frames, whatever incomplete bytes follow |
| `Frames.Stream.Fill` | libs/core/src/lib.rs:44-54 | fills the buffer from the stream however the reads are cut, failing exactly when the stream is too short |
| `Frames.ReadFrame` | libs/core/src/lib.rs:41-72 | under any short-read schedule, the frame at the front of the stream, and the stream left right behind it |
| `Frames.ReadFrames` | libs/core/src/lib.rs:41-72 | until the end of the stream, exactly its frames |
| `OutputRelay.StepKeeps` | libs/core/src/daemon.rs:3006-3151 | every step keeps the wire at whole frames plus the written part of the current one |
| `OutputRelay.RelayWire` | libs/core/src/daemon.rs:3006-3151 | told by the events alone: of the frames of all chunks read, as many bytes are out as the writes took; the drain ends with the first empty read and has then written them all |
| `OutputRelay.RelayIsTransparent` | libs/core/src/daemon.rs:3006-3151 | under any short-write schedule the wire decodes to exactly the chunks that were read, in order, up to the frame under way |
| `ExitHandshake.StepsTell` | libs/core/src/daemon.rs:742-759 | the session's fields say what happened: its drain saw the outputs, the reaper came with that payload, the client left |
| `ExitHandshake.WhatCanHappen` | libs/core/src/daemon.rs:2977-3164 | what can happen to an open session, told by what has happened: nothing else is excluded |
| `ExitHandshake.ExitArmedOnce` | libs/core/src/daemon.rs:2208-2223 | in every interleaving the exit frame is armed at most once, exactly when the empty read and the reaper's visit have both happened, with the frames of all chunks read already out |
| `ExitHandshake.ExitSafeIff` | libs/core/src/daemon.rs:2266-2312 | once armed, no continuation closes the session before the exit frame is out iff the reply frame is out |
| `ExitHandshake.ReplyCanOutlastTheChild` | libs/core/src/daemon.rs:2861-2862 | a session in which the exit frame is armed while the reply is still going out |
| `ExitHandshake.StepOrderlyIff` | libs/core/src/daemon.rs:2861-2862 | a step keeps the stream in order iff it writes no data or exit byte before the reply is out |
| `ExitHandshake.InOrderIff` | libs/core/src/daemon.rs:2861-2862 | the stream is in order in every state of a run iff every step of it is orderly |
| `ExitHandshake.StreamSafeIff` | libs/core/src/daemon.rs:2977-3164 | a session in order stays in order in every continuation iff its reply is out |
| `ExitHandshake.SessionDelivers` | libs/core/src/daemon.rs:2977-3164 | an orderly session that ended with its exit frame out decodes to the reply, one data frame per chunk read in order, then the exit frame with the reaper's payload |
| `ExitHandshake.ReplyOutIff` | libs/core/src/daemon.rs:2256-2298 | the reply is out exactly when its writes took the whole frame |
| `ExitHandshake.ReplyCanBeWritten` | libs/core/src/daemon.rs:2256-2298 | its writes may take any part of what is left |
| `ExitHandshake.EndsWholeIff` | libs/core/src/daemon.rs:2256-2312 | after any orderly run that left the session open, every continuation that ends it is read back whole iff the reply's frame has been written |
| `ExitHandshake.UnorderlyReplyIsGarbled` | libs/core/src/daemon.rs:2861-2862 | a run on which a data header lands inside the reply and nothing decodes |
| `ExitHandshake.AttachSession.MaybeFinish` | libs/core/src/daemon.rs:2208-2223 | arms the exit frame exactly in the state that asks for it |
| `ExitHandshake.AttachSession.OnOutput` | libs/core/src/daemon.rs:3006-3051 | a read starts a data frame, an empty one ends the drain and settles the handshake |
| `ExitHandshake.AttachSession.OnHeaderWritten` | libs/core/src/daemon.rs:3056-3109 | a partial header is resumed, a whole one is followed by its payload |
| `ExitHandshake.AttachSession.OnPayloadWritten` | libs/core/src/daemon.rs:3113-3151 | a partial payload is resumed, a whole one is followed by the next read |
| `ExitHandshake.AttachSession.OnReaped` | libs/core/src/daemon.rs:742-759 | records the exit and settles the handshake |
| `ExitHandshake.AttachSession.OnFrameWritten` | libs/core/src/daemon.rs:2256-2298 | a partial frame is resumed; a whole one closes the session once the exit frame is armed |
| `Containers.StepKeeps` | libs/core/src/daemon.rs:767-791 | every step of reaper, drains and log writes keeps a container in the table or its log in the graveyard, never both |
| `Containers.StepsTell` | libs/core/src/daemon.rs:1763-1785 | what the tables record of a pid is what the events say, and its removals are counted as it leaves the table |
| `Containers.WhatCanHappen` | libs/core/src/daemon.rs:767-791 | what can happen, told by what has happened: nothing else is excluded |
| `Containers.RemovedExactlyOnce` | libs/core/src/daemon.rs:1954-1987 | in every interleaving a started container leaves the table once, exactly when its drains have ended (or, without drains, its child was reaped), and never while a drain is running |
| `Containers.RemovedBeforeExit` | libs/core/src/daemon.rs:1954-1987 | a run on which a container is removed while its child still runs |
| `Containers.LogsSurviveRemoval` | libs/core/src/daemon.rs:1382-1400 | its log answers the same before and after the removal: the cache of every line written since its start; a pid never started has none |
| `Containers.Tables.OnStarted` | libs/core/src/daemon.rs:1745-1785 | enters the container and counts its drains in |
| `Containers.Tables.OnReaped` | libs/core/src/daemon.rs:761-791 | removes the container unless drains are pending |
| `Containers.Tables.OnDrained` | libs/core/src/daemon.rs:1958-1987 | counts the drain down and removes the container with the last one |
| `Containers.Tables.WriteLine` | libs/core/src/daemon.rs:1847-1866 | the line goes to the container's cache or to the one it left behind |
| `Containers.Tables.Request` | libs/core/src/daemon.rs:1382-1400 | a log is found exactly for containers ever started, with what the cache kept of all lines written |

## Left out

- The class byte passed from registration to shim, completion flags' meaning, and the typed shims themselves.
- Panics unwinding out of callbacks, re-entrant calls to `run`, and several runtimes on one thread (ids continue from an arbitrary start).
- Exhaustion of the 62-bit id counter and slabs of 2^32 - 1 slots: a step that needs one more is not taken.
- ProtocolTheorems.LocalsAreLinear: speaks of locals that got an id; a local whose handle was rejected got none, and is the subject of `HandedInLocalIsPlaced` and `Runtime.CancelOp`.
- HonestBackend.CallbackSureIff: the contract counts completions; it does not tie a cancel's reported result to what became of its op.
- The order in which Rust drops fields after the teardown, and the memory the kernel may still write.
- Termination of the drive loop and any liveness: they depend on callbacks and on the backend.  In particular the readiness backend looks at the first event only and does not register again after a blocked syscall.
- BufferedRuntime.RunsBelongToLiveOps: an op's run is kept under its id, not in a field of its slot.
- A registration whose run would not fit an arena that is already unsound; the source panics there.
- `io_uring` itself, its submission queue, ring registration and the descriptor fields other than the buffer id.
- Views of an earlier runtime generation, typed views and casts, `Msg` and control messages, `class_for`.
- BufferViews.BorrowTracker.Flip: asks for a sole view, where the source panics otherwise.
- LogCaches.LogCache.CollectLines: lossy UTF-8 decoding of the lines is not modelled.
- FollowPipes.LogGateway.PushLine: asks for a newline-free line, which is what the splitter hands it; what the source does after a line longer than the cache is not modelled.
- FollowPipes.LogGateway.Attach: the container is taken to be there; the source also answers for one that is not.
- FollowPipes.LogGateway.WriteDone: a write that could not be armed again is a write that never completes.
- OutputRelay.RelayIsTransparent: write errors, which end the drain, are not modelled.
- ExitHandshake.ExitArmedOnce: one session per container and one run or attach frame per session; the reaper tells one session only.
- The server's own frame header accumulator, which asks for three bytes again after a short read; the client's `read_frame` is the decoder here.
- File descriptors, overlays, the JSON of replies, follow requests over datagrams, the exit status word.
- Containers.RemovedExactlyOnce: process ids are not reused and a child is waited for once.
- `libs/sys`, `pty.rs`, `interprocess.rs`, `libs/cstring`, namespaces and mounts, the init loop, the command line.
