# Verified model of the Sovereign runtime's protocols and state machines

This project models the parts of Sovereign in which order, interleaving and state decide correctness, and proves what
they are for. A step function states what one uninterrupted piece of code does; a class with the source's fields is
proved to compute that step; the theorems are about all runs of the steps.

## What is modelled

* **Runtime cutover** (`Drains`, `GatewayTraffic`, `Cutover`, `CutoverGate`, `CutoverRuns`, `CutoverSerial`,
  `CutoverOverlaps`, `CutoverAnswers`, `CutoverRefusals`, `CutoverHolders`, `DrainOutcomes`). The control plane and
  the Gateway's traffic gate are two drain layers - a flag, a generation, a counter, permits and drain waiters -
  composed through the host adapter. Every asynchronous operation is split at its `await`: guards before, writes
  after; the methods of the classes `TrafficGate` and `RuntimeCutoverGate` are proved to compute these steps.
  `CutoverRuns` holds under full interleaving, overlapping cutover requests included. `CutoverSerial` assumes that
  `cutover.*` requests are sent one at a time and that nothing else quiesces or resumes the Gateway; ordinary
  requests, timers and closing still interleave. `CutoverOverlaps` drops that assumption and says exactly which runs
  keep a checkpoint with detached traffic, the route calls alternating and the digest true to the stored intent.
* **Gateway sessions** (`Sessions`, `SessionRuns`, `SessionCapacity`, `SessionReclaim`, `SessionReclaimRuns`,
  `SessionClosing`, `SessionRequests`, `SessionReasons`, `GatewaySessions`). Slots and sessions across awaits, idle
  reclaim, disposal, catalog announcements, sweeping and shutdown, each a step that may interleave with any other and
  that a method of class `GatewayApplication` computes.
* **Coordination messages** (`Causality`, `CoordinationStore`, `DeliveryStates`). The causal validator in its own
  order of checks, and the row machine whose snapshots it accepts. Two flags narrow the machine to what the current
  store does: delivery without a read occurs only in rows migrated from version 1, and the current store stamps a
  reply's missing acknowledgement at the reply itself. The validator is exact for the widest machine and for each
  narrower one with the extra condition stated; it is strictly wider than the current store.
* **Control pipe** (`ControlProtocol`, `PipeFraming`, `PipeLines`, `PipeWitness`, `ShellCalls`, `ShellOutcomes`,
  `HostChannel`, `DesktopFraming`, `DesktopClient`, `DesktopDeliveries`, `PipeEnds`). Lines over arbitrary chunks with
  the byte bounds, message shapes, and the table of pending shell calls. The two ends bound and split alike, but only
  the host stops reading for good at a refused line: the desktop keeps what stands behind it and reads on with the
  next chunk. `PipeEnds` composes writer, chunks and desktop.
* **Canonical JSON** (`Canonical`, `Sorting`). The checkpoint digest's input, with JavaScript's property order:
  rebuilding an object lists array-index keys first, so a canonical object is not in code-unit order.
* **Tool packs** (`ToolPacks`, `ToolPackAnswers`, `ToolPackManager`). One queued reload or configure call is one step.
  The reference manager has neither the digest nor the read-error short-cut.
* **Capability paging** (`CapabilityPaging`, `PagingAnswers`, `PagingWitness`), **ConPTY input** (`ShellInput`,
  `ShellPrompts`, `ShellWords`, `ConPtyShell`) and **notification text** (`NotificationText`).

`Results`, `Sequences`, `CodeUnits` and `Sorting` are shared. Check everything with `dafny verify dfyconfig.toml`.

## What the proofs found

* A checkpoint finishing or a resume reopening while a detachment is suspended parts the traffic from its checkpoint,
  and nothing else does (`CutoverOverlaps.DetachKeepsCheckpoint`); when the last of these is a resume, the traffic is
  stranded: detached, control open, no checkpoint to restore (`CutoverSerial.OverlappingDetachStrands` is an input). A
  checkpoint finishing while traffic is detached already replaces the one that traffic needs
  (`CutoverOverlaps.PinnedExactly`; `CutoverOverlaps.LateCheckpoint` is an input). Two detachments suspended together
  can both take effect (`CutoverOverlaps.SecondDetach`; `CutoverOverlaps.TwoDetachments` is an input).
* A status read, or any other write of the route intent, that overlaps a checkpoint makes the digest vouch for another
  intent than the one stored, unless it wrote the same value (`CutoverOverlaps.IntentExactly`).
* The capacity check counts a session twice while the request that initialises it is still running, so it may refuse
  although there is room (`SessionCapacity.RefusedWithRoom`; `SessionCapacity.CheckExactly` and
  `SessionCapacity.RefusedExactly` say exactly when). It never admits too many.
* Reclaim chooses its candidates once; a session that becomes busy while an earlier eviction is awaited is still
  evicted (`SessionReclaim.BusySessionEvicted`; `SessionReclaim.EvictedIffFull` says exactly when). Whatever
  interleaves, evictions follow the scan's order and happen only while no slot is free.
* After a refused line the desktop goes on with the next chunk, so what it delivers then depends on how the text was
  cut (`DesktopFraming.CutMatters`; `DesktopFraming.ChunkingsAgree` and `DesktopFraming.AsOneChunk` say exactly when).
* The validator accepts snapshots the current store never writes (`CoordinationStore.WiderThanTheStore`).
* After a file watcher error a skipped reload keeps the watcher's message, where a full reload would clear it
  (`ToolPacks.WatcherErrorsConceal` gives the exact condition); nothing else tells the two managers apart.
* A session whose transport closes before it registers, if the transport lets that happen, is registered all the same,
  and disposal, reclaim and the idle sweep never remove it (`SessionClosing.ClosedEarly`,
  `SessionClosing.LeftBehindUntilCleared`); without such a session everything registered is open
  (`SessionClosing.OpenExactly`).

## Assumptions

* SHA-256 does not collide on what is compared: a digest is represented by what it was taken of, or by a function
  parameter that does not collide on the two texts at hand.
* JSON text and base64url are printer and parser pairs: parsing undoes printing, and a printed record holds no raw
  newline (section 7 of RFC 8259) and ends in a brace.
* A cursor that a search writes, for an offset within what it finds, fits the cursor's length limit and reads back as
  written; `PagingWitness` and `PipeWitness` give codecs that meet these assumptions.
* Session, call and checkpoint ids handed out by the runtime are new. Times are integers and timers fire at any
  moment.
* `JSON.parse` yields objects with unique keys; the manifest digest is a function of runtime version and definitions.
* The locale's comparison is a weak order: it may fail to tell two capabilities apart.
* Whether an event's payload is acceptable to the desktop depends on the event alone.

## Model

| member | source | states |
|---|---|---|
| `CutoverRuns.FenceHolds` | apps/runtime-host/src/cutover.ts:281-443 | Under full interleaving: if a drain started at generations (c, g) reports drained and a later moment still shows (c, g), then at every moment between the two both layers were closed and idle at those generations, nothing had been admitted, and every request was refused, of control all but the exempt names, of the Gateway GETs too. |
| `CutoverRuns.AdmissionAnswers` | apps/runtime-host/src/cutover.ts:281-311 | In every state: an exempt name passes uncounted; any other is refused exactly while control is closed, or while the host is not promoted and the name is not a passive one; and what is left is admitted, one more outstanding. Only that changes anything. |
| `CutoverRuns.ExemptNames` | apps/runtime-host/src/cutover.ts:28-48 | The exempt names are the eight cutover requests and shutdown; none of them is a passive one. |
| `CutoverRuns.FenceSafety` | apps/runtime-host/src/cutover.ts:346-443 | So a checkpoint that passes its guards at the generations of a drained report stands at the end of a stretch that was closed, idle and without admissions throughout. |
| `CutoverRuns.FenceToDetach` | apps/runtime-host/src/cutover.ts:346-478 | The same from a drained report to a detachment that passes its guards at the same generations. |
| `CutoverRuns.FenceFromCheckpoint` | apps/runtime-host/src/cutover.ts:385-478 | The same from a passing checkpoint to a passing detachment at the same generations, with no drain between them. |
| `CutoverRuns.LayerFence` | apps/runtime-host/src/cutover.ts:672-733 | One layer's share of the fence: a drained promise obtained at generation n vouches for every moment up to the last one that still shows n. |
| `Drains.Fence` | apps/gateway/src/app.ts:535-586 | A layer that is closed and idle, and shows the same generation later, was closed and idle and admitted nothing at every moment in between. |
| `CutoverRuns.NoLostWakeUp` | apps/runtime-host/src/cutover.ts:672-733 | On every run of either role and at any two moments: a drain is registered exactly if begun and not settled; a registered one belongs to a closed, busy layer at its own generation; a settled one is exactly one of drained, timed out and interrupted, for good. Both layers. |
| `CutoverRuns.DrainReportSound` | apps/runtime-host/src/cutover.ts:346-383 | The combined report has no unknown outcome if and only if it is drained; then both counts are zero, nothing timed out or was interrupted, and the Gateway generation is the one asked for; otherwise something timed out or was interrupted. |
| `CutoverRuns.QuiescedNeverRises` | apps/runtime-host/src/cutover.ts:281-311 | Along any stretch of a run during which control stays quiesced, its request count never rises, its generation stays, nothing is admitted, and every control request but the exempt ones is refused. |
| `CutoverRuns.PermitsConserved` | apps/runtime-host/src/cutover.ts:299-311 | On every run each counter equals the admitted and unreleased requests; in both layers a release takes off exactly one the first time and nothing when repeated, so the clamp at zero never acts. |
| `CutoverRuns.StepKeeps` | apps/runtime-host/src/cutover.ts:281-558 | Every event of the composed system, cutover requests overlapping in any way, keeps conservation, wake-up and the frames of suspended drains, and only advances both layers. |
| `CutoverRuns.Between` | apps/runtime-host/src/cutover.ts:281-558 | For any two moments of any run: the invariant at both, and the later state of each layer evolved from the earlier. |
| `CutoverSerial.AdapterTrace` | apps/runtime-host/src/cutover.ts:445-520 | With cutover requests sent one at a time: successful detachments and restorations strictly alternate, each restoration answering the detachment before it; every restoration attempted names the checkpoint last detached and carries the route intent that checkpoint captured. |
| `CutoverSerial.CheckpointPinned` | apps/runtime-host/src/cutover.ts:385-520 | With cutover requests sent one at a time: detached traffic always has a stored checkpoint and quiesced control, digest and stored intent agree, nothing replaces the checkpoint while traffic stays detached, and resume never takes the branch for a missing checkpoint. |
| `CutoverSerial.FailedResumeRecovers` | apps/runtime-host/src/cutover.ts:480-520 | After route restoration throws, whatever ordinary traffic ran meanwhile: control is quiesced at the same generation, checkpoint and detachment are unchanged, the Gateway is closed again exactly two generations on, and a status read followed by resume at the reported generations starts. |
| `CutoverSerial.StepKeeps` | apps/runtime-host/src/cutover.ts:313-558 | Every step of a run with one cutover request at a time keeps: one suspended operation, the checkpoint tied to its captured intent, the Gateway closed while quiesced, and a lawful adapter trace. |
| `CutoverSerial.TraceAlternates` | apps/runtime-host/src/cutover.ts:473-505 | A trace whose every call is lawful after the calls before it has strictly alternating successes, and what is held is the last unanswered detachment. |
| `CutoverHolders.DetachByHolder` | apps/runtime-host/src/cutover.ts:445-478 | Over every run, overlapping in any way: a detachment goes on past its guards if and only if it comes behind its fence, with both layers idle and traffic attached, and names the id of the checkpoint last stored together with the token that checkpoint was asked for with; under that id any other well-formed token is refused as unauthorised. |
| `CutoverHolders.PromotedByHolder` | apps/runtime-host/src/cutover.ts:522-558 | On no run is a candidate promoted, or its promotion suspended, unless somebody asked for it with the token the candidate was started with. |
| `CutoverHolders.StatusOfRun` | apps/runtime-host/src/cutover.ts:313-333 | On every run the status tells the requests outstanding in each layer, the checkpoint last stored and not dropped, and whether the route calls that succeeded left traffic detached. |
| `CutoverAnswers.GuardAnswers` | apps/runtime-host/src/cutover.ts:582-670 | When the guards of the fenced requests let one pass, and which fault they name when they do not, without their order. |
| `CutoverAnswers.QuiesceAnswers` | apps/runtime-host/src/cutover.ts:335-344 | Quiescing closes both layers together, once; a host without authority is refused and unchanged. |
| `CutoverAnswers.StatusAnswers` | apps/runtime-host/src/cutover.ts:313-333 | A status read changes nothing but the route intent, and that only when neither a checkpoint nor a detachment pins it. |
| `CutoverAnswers.DrainAnswers` | apps/runtime-host/src/cutover.ts:346-362 | A drain is suspended exactly behind its fence, with a timeout in range and the Gateway closed; where only the Gateway is open it is refused after the control layer began to wait. |
| `CutoverAnswers.WaitBegins` | apps/runtime-host/src/cutover.ts:672-723 | A drain begun is settled at once when nothing is outstanding, and waits for its generation if something is. |
| `CutoverAnswers.DrainReports` | apps/runtime-host/src/cutover.ts:362-383 | A drain answers when both its layers have settled; each count in the report is its own layer's, a verdict holds of the whole as it holds of the parts, and the unknown outcomes are at least one and at least the requests still active. |
| `CutoverAnswers.CheckpointAnswers` | apps/runtime-host/src/cutover.ts:385-422 | A checkpoint is suspended exactly behind its fence, with a token, traffic attached and both layers idle. |
| `CutoverAnswers.CheckpointStores` | apps/runtime-host/src/cutover.ts:405-443 | A checkpoint that finishes is stored under the token and digest of its request and the intent of now, and answered as stored; one that cannot be digested says whether it was too large. |
| `CutoverAnswers.DetachAnswers` | apps/runtime-host/src/cutover.ts:445-478 | A detachment is suspended exactly behind its fence, by the holder of the stored checkpoint, with both layers idle and traffic attached, and then touches nothing but its own suspension. |
| `CutoverAnswers.DetachFinishes` | apps/runtime-host/src/cutover.ts:470-478 | Traffic is detached exactly if the adapter call succeeds, and nothing else changes. |
| `CutoverAnswers.ResumeFinishes` | apps/runtime-host/src/cutover.ts:496-520 | A resume whose route is restored opens control under a new generation, drops the checkpoint and attaches traffic; one whose restoration throws closes a Gateway it had reopened and leaves the rest. |
| `CutoverAnswers.PromoteFinishes` | apps/runtime-host/src/cutover.ts:546-558 | A promotion makes the host active under the checkpoint it was asked for exactly if the adapter call succeeds. |
| `CutoverAnswers.ResumeAnswers` | apps/runtime-host/src/cutover.ts:480-503 | Behind its fence a resume reopens the Gateway; with traffic attached it finishes at once, with traffic detached it suspends on the stored checkpoint's route, and without that checkpoint it closes the Gateway again. |
| `CutoverRefusals.DrainRefused` | apps/runtime-host/src/cutover.ts:582-670 | A drain is refused as denied exactly without authority, as stale exactly if a generation named is not the present one, and otherwise as invalid input. |
| `CutoverRefusals.CheckpointRefused` | apps/runtime-host/src/cutover.ts:385-415 | The same for a checkpoint, which fails as a process exactly if only a request in progress or an open Gateway stands in its way. |
| `CutoverRefusals.DetachRefused` | apps/runtime-host/src/cutover.ts:445-478 | The same for a detachment, which is stale also under another id than the stored one, and unauthorised exactly under that id without its token. |
| `CutoverRefusals.ResumeRefused` | apps/runtime-host/src/cutover.ts:480-503 | The same for a resume, which fails as a process exactly if traffic is detached and no checkpoint is left to restore it from. |
| `CutoverRefusals.TokenMeans` | apps/runtime-host/src/cutover.ts:50-51 | A fencing token is 43 characters of the base64url alphabet (section 5 of RFC 4648). |
| `CutoverRefusals.IdentifierMeans` | apps/runtime-host/src/cutover.ts:50-51 | An identifier is a letter or digit and up to 255 more of them, of dots, underscores, colons and dashes. |
| `CutoverAnswers.PromoteAnswers` | apps/runtime-host/src/cutover.ts:522-552 | A promotion is suspended exactly by an unpromoted candidate that is given its own token, and each other case has its own refusal. |
| `CutoverAnswers.LayerEvents` | apps/runtime-host/src/cutover.ts:299-311 | Releases, timers and whatever reaches the traffic gate act on their own layer alone. |
| `CutoverAnswers.RefusalsChangeNothing` | apps/runtime-host/src/cutover.ts:281-558 | Whatever any request is refused with, it changes nothing, but in three cases that are named. |
| `CutoverAnswers.FailuresChangeNothing` | apps/runtime-host/src/cutover.ts:385-558 | An operation whose adapter call threw is over and has changed nothing, but for a resume closing the Gateway again. |
| `CutoverOverlaps.PinnedExactly` | apps/runtime-host/src/cutover.ts:385-520 | Over every run, overlapping in any way: detached traffic has its own checkpoint stored at every moment if and only if no checkpoint finishes while traffic is detached and every detachment finishes while the checkpoint it names is still the stored one. |
| `CutoverOverlaps.DetachKeepsCheckpoint` | apps/runtime-host/src/cutover.ts:445-520 | A detachment of the stored checkpoint is suspended while any run goes on, and then succeeds: that checkpoint is still stored if and only if no checkpoint finished and no resume reached its writes meanwhile; none is stored if and only if the last such event was a resume. |
| `CutoverOverlaps.StrandedForGood` | apps/runtime-host/src/cutover.ts:480-520 | Traffic that is detached with no checkpoint stored, and no checkpoint or restoration suspended, stays so on every run. |
| `CutoverOverlaps.AlternatesExactly` | apps/runtime-host/src/cutover.ts:445-520 | Over every run, overlapping in any way: successful detachments and restorations alternate, each restoration answering the detachment before it, if and only if no detachment finishes while traffic is detached and no restoration finishes for another checkpoint than the one detached. |
| `CutoverOverlaps.SecondDetach` | apps/runtime-host/src/cutover.ts:445-478 | A detachment suspended with traffic attached while any run goes on, and then succeeding, keeps the calls alternating if and only if the last detachment or resume to finish meanwhile was not a detachment. |
| `CutoverOverlaps.TwoDetachments` | apps/runtime-host/src/cutover.ts:445-478 | A run from a fresh active host on which that condition fails: two detachments suspended together both take effect. |
| `CutoverOverlaps.LateCheckpoint` | apps/runtime-host/src/cutover.ts:385-478 | A run from a fresh active host on which the condition of PinnedExactly fails: a checkpoint finishes while traffic is detached, and the one that traffic needs is no longer stored. |
| `CutoverOverlaps.IntentExactly` | apps/runtime-host/src/cutover.ts:385-443 | For every run between a checkpoint's suspension and its answer: the digested route intent is the stored one if and only if the last event meanwhile that wrote the intent, if any, wrote what the checkpoint had read. |
| `CutoverOverlaps.StepExplained` | apps/runtime-host/src/cutover.ts:281-558 | Every event's effect - nothing, a checkpoint stored, a detachment, a reopening - accounts for all it does to checkpoint, detached flag, adapter trace and captured ids. |
| `CutoverOverlaps.OverlapStrandsForGood` | apps/runtime-host/src/cutover.ts:445-520 | After the overlapping run of the next row traffic stays detached without a checkpoint, whatever requests follow. |
| `CutoverSerial.OverlappingDetachStrands` | apps/runtime-host/src/cutover.ts:445-520 | A run of six events from a fresh active host on which the condition of DetachKeepsCheckpoint fails: a resume that overlaps a detach leaves traffic detached with control open and no checkpoint. |
| `CutoverSerial.OverlappingStatusSplitsIntent` | apps/runtime-host/src/cutover.ts:313-443 | A run from a fresh active host on which the condition of IntentExactly fails: a status read that overlaps a checkpoint. |
| `Drains.ApplyKeeps` | apps/gateway/src/app.ts:525-586 | Every atomic move of a drain layer keeps conservation, the waiter invariant and report soundness, and evolves the layer monotonically. |
| `Drains.ReleaseKeeps` | apps/runtime-host/src/cutover.ts:301-311 | Releasing a permit takes the counter down by exactly one the first time, is idempotent, and keeps the waiter invariant. |
| `Drains.CloseKeeps` | apps/gateway/src/app.ts:1060-1072 | Closing the application is a quiesce as far as the layer goes: notifying when already closed settles no drain. |
| `Drains.NotifyOne` | apps/gateway/src/app.ts:525-533 | Waiter checks do not disturb one another: running one more after any set of them is running the larger set, so the order of a notification is immaterial. |
| `DrainOutcomes.ReleaseDrains` | apps/runtime-host/src/cutover.ts:301-311 | The end of the last outstanding request of a closed layer drains everything that waits; an earlier one settles nothing. |
| `DrainOutcomes.ReopenInterrupts` | apps/gateway/src/app.ts:525-551 | Reopening interrupts everything that waits. |
| `DrainOutcomes.TimerTimesOut` | apps/runtime-host/src/cutover.ts:688-723 | A timer times its own drain out, if it still waits, and no other. |
| `DrainOutcomes.ArrivalAnswers` | apps/gateway/src/app.ts:553-586 | A closed traffic gate refuses everything; an open one lets GETs pass uncounted and counts the rest. |
| `DrainOutcomes.ResumeAnswers` | apps/gateway/src/app.ts:979-987 | Resuming takes exactly the present generation, a safe integer, and opens a closed gate. |
| `DrainOutcomes.WaitAnswers` | apps/gateway/src/app.ts:988-1059 | Waiting for idle takes the present generation, a closed gate and a timeout of at most five minutes. |
| `GatewayTraffic.StepMoves` | apps/gateway/src/app.ts:553-1072 | Every step of the traffic gate is one of the drain-layer moves the invariants are proved for. |
| `GatewayTraffic.TrafficGate.ReleaseMcpRequest` | apps/gateway/src/app.ts:560-585 | Finish and close of a response may both fire: the counter and the waiters move once. |
| `GatewayTraffic.TrafficGate.NotifyTrafficWaiters` | apps/gateway/src/app.ts:525-533 | The loop over the waiter set settles exactly the waiters that are due, each with its own verdict. |
| `GatewayTraffic.TrafficGate.BeginWait` | apps/gateway/src/app.ts:988-1059 | Registers or settles a drain at the current generation, or fails on a malformed or stale generation, an open gate or a bad timeout, in that order. |
| `CutoverGate.RuntimeCutoverGate.Create` | apps/runtime-host/src/cutover.ts:237-279 | A gate is built if and only if both identities are well formed, a promotion token given is one, and a candidate brings one; it starts as the state machine's initial state for the role. |
| `CutoverGate.RuntimeCutoverGate.WaitForControlIdle` | apps/runtime-host/src/cutover.ts:672-723 | Starts a control drain at the current generation, settled at once when idle. |
| `CutoverGate.RuntimeCutoverGate.NotifyControlWaiters` | apps/runtime-host/src/cutover.ts:725-733 | The loop over the waiter set settles exactly the waiters that are due, each with its own verdict. |
| `CutoverGate.RuntimeCutoverGate.AssertFence` | apps/runtime-host/src/cutover.ts:582-670 | Authority, argument, control and Gateway fences in the order the operations check them, with the first fault. |
| `SessionRuns.CapacityHolds` | apps/gateway/src/app.ts:663-909 | Under every interleaving of initialise, connect, dispose, reclaim, sweep and shutdown steps, the registered sessions together with the initialisations in flight never exceed the limit, hence neither do the sessions. |
| `SessionRuns.NoticesHold` | apps/gateway/src/app.ts:626-746 | Under every interleaving a session's notices begin with an activity, hold at most one close and nothing behind it, and announce every catalog change while initialised and open, those before initialisation as one. |
| `SessionRuns.StepKeeps` | apps/gateway/src/app.ts:618-938 | Each step keeps the slot accounting and every entry's notice invariant. |
| `SessionRuns.InjectiveSize` | apps/gateway/src/app.ts:618-624 | Entries are registered under one session id each, so the session count is the number of registered entries. |
| `SessionClosing.OpenExactly` | apps/gateway/src/app.ts:618-746 | On every run, whatever interleaves: every registered session is open at every moment if and only if no session registers an entry that was closed before. |
| `SessionClosing.LeftBehindUntilCleared` | apps/gateway/src/app.ts:618-746 | A session registered on a closed entry is deregistered by its transport closing once more or by the end of shutdown, and by nothing else. |
| `SessionClosing.ClosedEarly` | apps/gateway/src/app.ts:618-746 | An input that leaves such a session: its transport closes while its initialise request is being handled, before it registers. |
| `SessionReclaim.ShortestPrefix` | apps/gateway/src/app.ts:804-827 | Without interleaving, evicting the first k candidates leaves the gateway full exactly while k is below the excess, so the loop evicts the shortest prefix that frees a slot or all candidates. |
| `SessionCapacity.CountersExact` | apps/gateway/src/app.ts:866-909 | On every run sessions plus initialisations in flight are the entries occupied plus those counted twice: registered, their initialise request still running. |
| `SessionCapacity.CheckExactly` | apps/gateway/src/app.ts:866-888 | On every run the capacity check is never too late; it finds no capacity too early if and only if there is room, but no more than there are entries counted twice, and then at least half the places are occupied. |
| `SessionCapacity.RefusedExactly` | apps/gateway/src/app.ts:868-888 | On every run an initialise request at its second check is refused if and only if the entries occupied and those counted twice fill the limit. |
| `SessionCapacity.RefusedWithRoom` | apps/gateway/src/app.ts:866-909 | An input of such an early refusal: with a limit of two and one entry occupied, a second initialise request is refused while the first is still running. |
| `SessionReclaim.TwoIdleReached` | apps/gateway/src/app.ts:843-909 | Ten steps from the empty gateway with room for two lead to two idle sessions, where the next interleaving starts. |
| `SessionReclaim.BusySessionEvicted` | apps/gateway/src/app.ts:804-827 | One run on from there, from the empty gateway, that evicts a session with a call in progress: candidates are chosen once, before the first await. |
| `SessionReclaimRuns.EvictsInScanOrder` | apps/gateway/src/app.ts:804-827 | Whatever runs between its turns, an initialise request that found no capacity evicts a prefix of its scan: distinct sessions, all reclaimable at the scan, least recently active first. |
| `SessionReclaimRuns.TurnsCloseEvicted` | apps/gateway/src/app.ts:818-826 | Whatever such a request's turns close, at any point of the run, they close while no slot is free, and it is one of these. |
| `SessionRequests.RequestsCounted` | apps/gateway/src/app.ts:778-791 | On every run, whatever interleaves: each entry's count is the number of requests in progress on it. |
| `SessionRequests.IdleExactly` | apps/gateway/src/app.ts:804-841 | On every run the reclaim scan takes exactly the registered, open sessions without a request in progress whose last activity is a reclaim period old, and the idle sweep those whose last activity is longer ago than the idle timeout. |
| `SessionRequests.ScanExactly` | apps/gateway/src/app.ts:804-817 | So the order of a scan holds exactly those, once each and least recently active first, and never one with a request in progress. |
| `SessionRequests.SweepExactly` | apps/gateway/src/app.ts:829-841 | The sweep closes and deregisters an open session exactly if it is quiet for long enough, and leaves all others as they were. |
| `SessionRequests.IdleAtTurnExactly` | apps/gateway/src/app.ts:804-827 | A candidate still registered and open when its turn comes is reclaimable at the clock of that turn if and only if no request began or ended on it since the scan, or none is in progress and the last that did is a reclaim period old; whatever else ran. |
| `SessionReasons.ToldFirstReason` | apps/gateway/src/app.ts:643-677 | On every run the reason an owner is told when its session closes is the first given for it: that of a delete request from when it began, or of the reclaim, sweep, shutdown, disposal or transport that closed it. |
| `SessionReclaimRuns.IdleIffUntouched` | apps/gateway/src/app.ts:804-827 | By the scan's own clock it is so if and only if no request began or ended on it since. |
| `SessionReclaim.EvictedIffFull` | apps/gateway/src/app.ts:818-826 | At its turn an open candidate is closed if and only if no slot is free, whatever it is doing; so a reclaim turn closes a session with a call in progress exactly when the first candidate left has one and no slot is free. |
| `SessionReclaim.BackOffFromLeast` | apps/gateway/src/app.ts:793-802 | The wait of the soonest idle session, in whole seconds and at least one, is the least after which some currently idle session is reclaimable. |
| `SessionReclaim.WholeSeconds` | apps/gateway/src/app.ts:798-801 | The least whole number of seconds, at least one, that covers the milliseconds. |
| `GatewaySessions.GatewayApplication.RemoveSessionEntry` | apps/gateway/src/app.ts:618-624 | Every session id that leads to the entry is removed, and no other. |
| `GatewaySessions.GatewayApplication.DisposeSession` | apps/gateway/src/app.ts:663-677 | Closing an entry once deregisters and announces it; closing it again only completes a missing announcement. |
| `GatewaySessions.GatewayApplication.OnTransportClose` | apps/gateway/src/app.ts:729-738 | The transport's own close deregisters the entry even when it was closing already. |
| `GatewaySessions.GatewayApplication.DecideCapacity` | apps/gateway/src/app.ts:868-888 | The second check claims a slot or refuses, and a refusal carries the least useful back-off. |
| `GatewaySessions.GatewayApplication.SessionCapacityRetryAfterSeconds` | apps/gateway/src/app.ts:793-802 | The advised back-off is the least whole number of seconds, at least one, after which some currently idle session becomes reclaimable. |
| `GatewaySessions.GatewayApplication.SortCandidates` | apps/gateway/src/app.ts:804-817 | Exactly the reclaimable entries, once each, least recently active first. |
| `GatewaySessions.GatewayApplication.ReclaimIdleSessionsForCapacity` | apps/gateway/src/app.ts:804-827 | Run without interleaving, the loop evicts exactly the first candidates up to the excess, in candidate order. |
| `GatewaySessions.GatewayApplication.SweepIdleSessions` | apps/gateway/src/app.ts:829-841 | Disposes exactly the idle registered sessions past the idle timeout. |
| `GatewaySessions.GatewayApplication.CloseSessions` | apps/gateway/src/app.ts:1060-1072 | Shutdown disposes every registered session. |
| `GatewaySessions.GatewayApplication.PublishCatalogChange` | apps/gateway/src/app.ts:719-728 | Every open entry is told or marks the change pending, by whether it has initialised; closed ones hear nothing. |
| `CoordinationStore.ValidatorExact` | packages/control-plane-contract/src/task-coordination-integrity.ts:53-174 | A snapshot and its generation time are accepted if and only if some run of the create, deliver, read, acknowledge, reply, cancel, reassign and clock machine produces them; also for the narrower machines, with what they add spelled out. |
| `CoordinationStore.SnapshotAccepted` | packages/control-plane/src/task-coordination-store-core.ts:873-922 | Every consistent row, presented at its own time, passes the validator. |
| `CoordinationStore.Replay` | packages/control-plane/src/task-coordination-store.ts:499-611 | Every consistent row a store may hold is the end of a run it may make: the receipts are replayed in order. |
| `CoordinationStore.StepKeeps` | packages/control-plane/src/task-coordination-store.ts:872-1067 | Every operation keeps the receipts ordered, inside the message's lifetime and before its expiry, and cancellation exclusive of acknowledgement and reply. |
| `DeliveryStates.StateMeans` | packages/control-plane-contract/src/task-coordination-integrity.ts:31-51 | What each of the eight delivery states of an accepted message says of its receipts, its expiry and its recipient, both ways. |
| `DeliveryStates.StateTracked` | packages/control-plane/src/task-coordination-store.ts:872-1067 | On every run of the store the state derived from a row's receipts is the one its operations wrote: queued when created, and moved by each operation, and by the clock passing expiry, as a table of states says. |
| `DeliveryStates.ReceiptsStay` | packages/control-plane/src/task-coordination-store.ts:872-1067 | A receipt once written is never changed, nor whom it was delivered to, whatever is done to the message afterwards. |
| `DeliveryStates.ReceiverTracked` | packages/control-plane/src/task-coordination-store.ts:583-593 | On every run a message shows as its receiver whom the first operation that delivered it named, and nobody before that. |
| `CoordinationStore.SnapshotsAdvance` | packages/control-plane-contract/src/task-coordination-integrity.ts:31-46 | Between two accepted snapshots of one message, the later adding only receipts stamped at or after the earlier, replied, cancelled and expired are final, acknowledged can only become replied, and delivered or read never fall back. |
| `CoordinationStore.RunAdvances` | packages/control-plane-contract/src/task-coordination-integrity.ts:31-46 | The same along every run of the machine, at any two of its moments. |
| `CoordinationStore.WiderThanTheStore` | packages/control-plane/src/task-coordination-store.ts:499-611 | A concrete snapshot the validator accepts and the current store never emits: acknowledged before its reply although no acknowledgement was asked for. |
| `CoordinationStore.ReplyAfterExpiry` | packages/control-plane-contract/src/task-coordination-integrity.ts:144-155 | A replied message with an expiry was acknowledged before it, however late the reply. |
| `Causality.AcceptedIff` | packages/control-plane-contract/src/task-coordination-integrity.ts:53-174 | Passing the checks in their order is the conjunction of what they mean: parsed, inside the lifetime, a recipient for every delivery, a chain of receipts, in order, before expiry, with the derived state. |
| `Causality.CheckReceipts` | packages/control-plane-contract/src/task-coordination-integrity.ts:114-136 | Passes exactly when the receipts form the chain delivered, read, acknowledged, replied, or end in a cancellation. |
| `Causality.CheckExpiry` | packages/control-plane-contract/src/task-coordination-integrity.ts:144-174 | Passes exactly when no receipt but a reply follows expiry and the derived fields are the derived ones. |
| `PipeFraming.DeliveredIntact` | apps/runtime-host/src/main.ts:320-353 | Messages written by the serializer and cut into chunks of at most 1 MiB in any way arrive intact and in order, the 2 MiB check never fires and nothing is left over. |
| `PipeFraming.ChunkingImmaterial` | apps/runtime-host/src/main.ts:320-353 | On the host, two ways of cutting the same bytes that avoid the bound deliver the same messages, fail alike and leave the same residual buffer. |
| `DesktopFraming.ChunksAreTurns` | apps/desktop/src/runtime-host-client.ts:451-474 | On the desktop, which has no closed flag, chunks within the bound leave what draining their whole text leaves, repeated once for each chunk before the last that a refused line stopped, and once more. |
| `DesktopFraming.ChunkingsAgree` | apps/desktop/src/runtime-host-client.ts:451-474 | So two ways of cutting the same text leave the desktop alike if and only if refused lines stopped equally many chunks before the last, or the one stopped less often has no complete line left. |
| `DesktopFraming.AsOneChunk` | apps/desktop/src/runtime-host-client.ts:451-474 | Chunks leave what the text in one chunk leaves if and only if no line complete before the last chunk is refused, or no complete line stands behind the first refused one. |
| `DesktopFraming.RefusalSeen` | apps/desktop/src/runtime-host-client.ts:451-474 | Some chunk is stopped by a refused line if and only if the text in one chunk is. |
| `DesktopFraming.CutMatters` | apps/desktop/src/runtime-host-client.ts:451-474 | An input on which the cut matters: a line of another session and then a message, in one chunk, deliver nothing and leave the message in the buffer; in two chunks the message is delivered. |
| `DesktopFraming.DrainAppend` | apps/desktop/src/runtime-host-client.ts:456-473 | A drain stopped by a refused line ignores what stands behind it; any other goes on with more text where it ended, with no complete line left. |
| `DesktopDeliveries.DeliveriesSound` | apps/desktop/src/runtime-host-client.ts:451-520 | Whatever is written to the desktop, in whatever chunks: what it delivers are messages of its own session, every event among them valid and numbered above the one before. |
| `DesktopDeliveries.MessageAnswers` | apps/desktop/src/runtime-host-client.ts:476-520 | A message is taken exactly if it is no event, or a valid one numbered above every event seen before. |
| `DesktopDeliveries.OverBoundUnread` | apps/desktop/src/runtime-host-client.ts:451-456 | A chunk that takes the buffer over 2 MiB is not read, and reported. |
| `DesktopClient.RuntimeHostClient.AcceptChunk` | apps/desktop/src/runtime-host-client.ts:451-474 | The line loop computes the drain: it stops at the first refused line and leaves the rest in the buffer. |
| `DesktopClient.RuntimeHostClient.HandleMessage` | apps/desktop/src/runtime-host-client.ts:476-520 | An event must exceed the last number, and its number counts even when its payload is then refused. |
| `PipeEnds.HostReachesDesktop` | apps/desktop/src/runtime-host-client.ts:451-520 | Everything a host writes, its events numbered without gaps and their payloads valid, cut into chunks of at most 1 MiB in any way, reaches the desktop intact and in order, without a failure and with nothing left over. |
| `PipeEnds.NumberedRises` | apps/runtime-host/src/main.ts:194-207 | Events numbered without gaps rise, and the last number is their count. |
| `PipeFraming.ChunksDrain` | apps/runtime-host/src/main.ts:320-353 | Without an overflow, feeding chunks is draining their concatenation at once. |
| `PipeFraming.NeverOverflows` | apps/runtime-host/src/main.ts:320-335 | No prefix of a written stream, in chunks of at most 1 MiB, reaches the buffer bound. |
| `PipeFraming.ChunkLimitTight` | apps/runtime-host/src/main.ts:320-335 | The chunk limit is exact: one byte more, behind a full line, closes a pipe that only ever carried written messages. |
| `PipeWitness.LimitAttained` | apps/runtime-host/src/main.ts:320-335 | There is such a stream: two responses whose lines take exactly the line limit. |
| `PipeWitness.WitnessLawful` | packages/control-plane-contract/src/protocol.ts:119-193 | A concrete printer and parser meet everything assumed of JSON here: printed records read back, hold no raw newline and end in a brace. |
| `PipeFraming.PrefixDrains` | apps/runtime-host/src/main.ts:320-353 | Any prefix of a written stream delivers an initial run of the messages and leaves at most one line's worth of bytes. |
| `PipeLines.HostReads` | apps/runtime-host/src/main.ts:320-353 | Sent lines it can read, however they are cut and whether they end in LF or CRLF, the host delivers what those that are not blank say, in their order, and keeps the unfinished line. |
| `PipeLines.HostStops` | apps/runtime-host/src/main.ts:320-353 | At the first line it cannot read the host has delivered what stands before it, and has failed. |
| `PipeLines.FailedForGood` | apps/runtime-host/src/main.ts:320-330 | A pipe that failed takes nothing any more. |
| `PipeLines.BoundAnswers` | apps/runtime-host/src/main.ts:320-335 | A chunk that takes the buffer over 2 MiB ends the pipe unread; one that only lengthens a line does not. |
| `PipeLines.ParseAnswers` | packages/control-plane-contract/src/protocol.ts:119-179 | A line is taken for a message exactly if it has at most 1 MiB and is JSON of a record of version 1 and of this session that says that message, with ids and names of 1 to 128 UTF-16 units and events numbered from 1. |
| `PipeLines.ShortestForm` | packages/control-plane-contract/src/protocol.ts:119-129 | The byte limits count each character at its shortest UTF-8 form (section 3 of RFC 3629). |
| `ControlProtocol.RoundTrip` | packages/control-plane-contract/src/protocol.ts:119-193 | A message comes back from its line if and only if the serializer takes it and its shape is one the parser demands. |
| `ControlProtocol.OtherSessionRefused` | packages/control-plane-contract/src/protocol.ts:119-140 | A line written for another session is refused whatever it holds. |
| `ShellCalls.CallsSettleOnce` | apps/runtime-host/src/main.ts:231-318 | In every run each call is waiting, or settled by exactly the first of response, timeout, abort and close behind it, and no call waits once the channel closed. |
| `ShellOutcomes.FirstEndDecides` | apps/runtime-host/src/main.ts:231-318 | In every run the first event behind a call's dispatch that ends it decides it for good: an answer that is ok resolves it with its payload, one that is not rejects it, and a timeout, an abort and the channel closing each leave their own mark. |
| `ShellOutcomes.NeverDispatched` | apps/runtime-host/src/main.ts:231-250 | A call on a closed channel, or with its signal raised, is settled at once as just that, for good. |
| `ShellOutcomes.WaitsUntilEnded` | apps/runtime-host/src/main.ts:231-308 | A dispatched call waits as long as nothing ends it. |
| `ShellOutcomes.FirstResponseDecides` | apps/runtime-host/src/main.ts:336-367 | Among the messages of a buffer the first response to a waiting call decides it, by its ok flag and payload; without one it goes on waiting. |
| `HostChannel.HostProtocolChannel.CallShell` | apps/runtime-host/src/main.ts:231-308 | A call on an open channel is written and pending; a closed channel or a raised signal settles it unwritten. |
| `HostChannel.HostProtocolChannel.FinishCall` | apps/runtime-host/src/main.ts:252-267 | Only the first settlement of a pending call counts. |
| `HostChannel.HostProtocolChannel.OnAbort` | apps/runtime-host/src/main.ts:273-288 | An abort writes one cancel message and settles its call, if it is still pending. |
| `HostChannel.HostProtocolChannel.CloseChannel` | apps/runtime-host/src/main.ts:310-318 | Closing settles every pending call once and empties the table. |
| `HostChannel.HostProtocolChannel.EmitEvent` | apps/runtime-host/src/main.ts:194-207 | Counts the event and writes it under that number, so that events stay numbered without gaps; on a closed channel it counts, writes nothing and fails. |
| `HostChannel.HostProtocolChannel.TakeLine` | apps/runtime-host/src/main.ts:336-345 | One turn of the line loop takes exactly the first complete line, without its carriage return, and handles it. |
| `HostChannel.HostProtocolChannel.DrainBuffer` | apps/runtime-host/src/main.ts:336-353 | The line loop delivers what the framing specification drains, settles the calls those messages answer and keeps the rest. |
| `HostChannel.HostProtocolChannel.AcceptChunk` | apps/runtime-host/src/main.ts:320-353 | A chunk is appended, bounded and drained; a refused line or an over-full buffer closes the channel after earlier lines have settled their calls. |
| `HostChannel.NumberedAccepted` | apps/desktop/src/runtime-host-client.ts:489-493 | Events numbered from 1 without gaps pass the desktop's check on event numbers. |
| `Canonical.CanonicalForm` | apps/runtime-host/src/cutover.ts:155-165 | Two JSON values are equal up to the order of object keys at every depth if and only if their canonical forms are equal. |
| `Canonical.Idempotent` | apps/runtime-host/src/cutover.ts:155-165 | Canonicalising again changes nothing. |
| `Canonical.CanonicalSame` | apps/runtime-host/src/cutover.ts:155-165 | A canonical form is a well-formed value equal to the original up to key order. |
| `Canonical.CanonicalMembers` | apps/runtime-host/src/cutover.ts:158-162 | A canonical object holds exactly the canonicalised members, in property order: array indices by number, then the other keys by code unit. |
| `Canonical.FromEntriesOrders` | apps/runtime-host/src/cutover.ts:158-162 | Rebuilding an object from entries in code-unit order keeps exactly them, but not their order: array indices move to the front. |
| `Canonical.OrderMeans` | apps/runtime-host/src/cutover.ts:158-162 | The order an object lists its keys in: written numbers below 2^32 - 1 first, by value, then the other keys by the first code unit in which they differ, a prefix before what it begins. |
| `Canonical.IndexMeans` | apps/runtime-host/src/cutover.ts:158-162 | An array index is a number below 2^32 - 1 as it is written, without leading zeros, and stands for that number. |
| `Canonical.NumeralInjective` | apps/runtime-host/src/cutover.ts:158-162 | Array-index keys that denote the same number are the same key. |
| `Canonical.KeyOrderIrrelevant` | apps/runtime-host/src/cutover.ts:167-195 | Key order never decides whether a checkpoint state can be digested, or what its digest is. |
| `Canonical.DigestAnswers` | apps/runtime-host/src/cutover.ts:167-195 | A state is digested by the text of the one value that is equal to it up to key order and canonical already, unless that text has more than 4 MiB. |
| `Canonical.DigestDecides` | apps/runtime-host/src/cutover.ts:167-195 | Two digestible states that collide neither in the printer nor in the hash share a digest if and only if they are equal up to key order. |
| `Sorting.SortSorts` | apps/runtime-host/src/cutover.ts:159-160 | Sorting distinct items by a strict total order yields them strictly sorted. |
| `Sorting.SortOrders` | apps/gateway/src/capability-directory.ts:306-312 | For a comparison that may tie, sorting puts nothing behind what it precedes, and leaves tied items in their given order. |
| `Sorting.SortedUnique` | apps/runtime-host/src/cutover.ts:159-160 | A strictly sorted list is determined by what it contains. |
| `ToolPacks.SkippingRefinesReloading` | apps/gateway/src/tool-pack-manager.ts:353-441 | Over every sequence of reloads and configure calls, whatever the file holds or however reading it fails, the manager that skips unchanged digests gives the answers, and ends with the enabled packs, catalogs, generation and last error, of one that always reloads. |
| `ToolPacks.WatcherErrorsConceal` | apps/gateway/src/tool-pack-manager.ts:353-475 | Over every sequence of inputs, watcher errors anywhere: the skipping and the always-reloading manager have the same enabled packs, catalogs and generation at every moment, and the same last error if and only if no short-cut was taken since the last watcher error, or the file was attempted since that error. |
| `ToolPacks.AnswersConcealed` | apps/gateway/src/tool-pack-manager.ts:353-475 | And every call that reads the file is answered alike under the same condition. |
| `ToolPacks.WatcherErrorSticks` | apps/gateway/src/tool-pack-manager.ts:451-475 | One step of it, from any settled manager: after a watcher error the next reload agrees with a full reload if and only if it takes neither short-cut. |
| `ToolPacks.CatalogsFollowEnabled` | apps/gateway/src/tool-pack-manager.ts:364-383 | Once a reload or configure call has answered without error, all catalogs hold exactly the base and the enabled packs, no name twice, whatever calls, failures and watcher errors follow. |
| `ToolPacks.ReloadCannotDuplicate` | apps/gateway/src/tool-pack-manager.ts:364-371 | Behind the constructor's checks the duplicate check of a reload cannot fail, for any accepted configuration. |
| `ToolPacks.ApplyOutcome` | apps/gateway/src/tool-pack-manager.ts:364-386 | Behind the constructor's checks a readable configuration fails only where parsing does and then changes nothing but the error; otherwise all catalogs change together and the generation moves exactly with the manifest digest. |
| `ToolPacks.StepKeeps` | apps/gateway/src/tool-pack-manager.ts:256-298 | Every call keeps the catalogs aligned, and moves the generation exactly when their common digest moves. |
| `ToolPacks.ApplyTwice` | apps/gateway/src/tool-pack-manager.ts:364-398 | Applying the same text twice is applying it once, failures included. |
| `ToolPacks.ChosenSeparate` | apps/gateway/src/tool-pack-manager.ts:366-371 | Packs chosen by distinct ids stay as separate in their tool names as the whole list. |
| `ToolPacks.ConfigRoundTrip` | apps/gateway/src/tool-pack-manager.ts:23-37 | The schema takes the value configure builds for a list of ids exactly when the list is allowed, and reads the list back. |
| `ToolPacks.ConfigureThenReload` | apps/gateway/src/tool-pack-manager.ts:272-290 | What configure writes for the ids it accepts, a reload enables: those ids, sorted. |
| `ToolPackAnswers.ConfigMeans` | apps/gateway/src/tool-pack-manager.ts:23-37 | The schema takes exactly the object configure writes for at most 32 distinct, well-formed ids, its two members in either order. |
| `ToolPackAnswers.ParseAnswers` | apps/gateway/src/tool-pack-manager.ts:317-330 | A configuration text is taken exactly if it is JSON that the schema takes and every id in it is a pack's; it enables those ids, sorted, and otherwise the problem says which of the three it was and which ids are unknown. |
| `ToolPackAnswers.DefinitionsMean` | apps/gateway/src/tool-pack-manager.ts:364-371 | What a configuration puts into the catalogs: the base definitions first, and those of the packs it names. |
| `ToolPackAnswers.ApplyMeans` | apps/gateway/src/tool-pack-manager.ts:364-386 | A text that is not taken, or would repeat a tool name, leaves the catalogs; any other gives each of them the definitions named and the digest of its own manifest. |
| `ToolPackAnswers.CallAnswers` | apps/gateway/src/tool-pack-manager.ts:256-298 | What every call answers: the status it leaves, or why it could not begin or the file could not be applied. |
| `ToolPackAnswers.CallChanges` | apps/gateway/src/tool-pack-manager.ts:256-441 | What every call changes: nothing if it does not read the file, not the status if it skips, and otherwise what applying the text leaves, or the failure. |
| `ToolPacks.FlatUnique` | apps/gateway/src/tool-pack-manager.ts:197-211 | A base and a list of packs have unique names if and only if each has and no two share one. |
| `ToolPackManager.ValidateDefinitionNames` | apps/gateway/src/tool-pack-manager.ts:128-138 | Finds the first repeated name; passes exactly when there is none. |
| `ToolPackManager.CollectPacks` | apps/gateway/src/tool-pack-manager.ts:197-205 | Succeeds exactly when pack ids are valid and unique and no pack repeats a name of its own. |
| `ToolPackManager.ToolPackManager.Create` | apps/gateway/src/tool-pack-manager.ts:163-211 | Builds a manager exactly when the options pass every check of the constructor, and otherwise reports the check that fails first. |
| `ToolPackManager.CheckPack` | apps/gateway/src/tool-pack-manager.ts:197-204 | Given that no earlier pack is refused, decides whether this one is, and with which refusal. |
| `ToolPackManager.ToolPackManager.ReplaceDefinitions` | apps/gateway/src/tool-pack-manager.ts:373-384 | Every catalog gets the definitions, and a change is reported exactly when some manifest digest differs. |
| `ToolPackManager.ToolPackManager.ReloadNow` | apps/gateway/src/tool-pack-manager.ts:353-441 | Field updates and status of one reload with its two short-cuts. |
| `ToolPackManager.ToolPackManager.ApplyText` | apps/gateway/src/tool-pack-manager.ts:364-386 | Field updates of one attempted configuration text, its failure cases included. |
| `ToolPackManager.ToolPackManager.Configure` | apps/gateway/src/tool-pack-manager.ts:272-298 | Validates before writing, forgets the last digest only after the write, and fails if the reload recorded an error. |
| `ShellInput.SplitImmaterial` | apps/desktop/native/SovereignNativeAgent.cs:518-566 | However typed text is cut into payloads, the commands queued are the non-blank segments of the whole text cut at every CR or LF, before the first that trims to "exit"; the shell goes on exactly if there is none and then keeps what follows the last terminator. |
| `ShellWords.LineMeans` | apps/desktop/native/SovereignNativeAgent.cs:552-565 | Among the lines of a text one is queued exactly if it is neither white space only nor trims to "exit", in any case of its letters, and prompts exactly if it is white space only. |
| `ShellWords.TrimMeans` | apps/desktop/native/SovereignNativeAgent.cs:552-558 | Trimming takes the white space off both ends and nothing else. |
| `ShellPrompts.PromptsExactly` | apps/desktop/native/SovereignNativeAgent.cs:518-566 | However text is cut into payloads, and whether or not it ends the shell, it prompts once more for each CR-LF pair a payload boundary cuts before the exit than for the same text in one payload, and otherwise just as often. |
| `ShellPrompts.FeedToExit` | apps/desktop/native/SovereignNativeAgent.cs:518-566 | Payloads that end the shell are handled as what is typed before the exit, followed by the line that exits. |
| `ShellInput.DrainSegments` | apps/desktop/native/SovereignNativeAgent.cs:525-566 | One drain handles, empty lines apart, the segments of its buffer up to the first exit. |
| `ShellInput.DrainCounts` | apps/desktop/native/SovereignNativeAgent.cs:543-551 | A buffer drained to its end completes one line for each segment, less one for each CR-LF pair. |
| `ConPtyShell.ConPtyShell.TakeLine` | apps/desktop/native/SovereignNativeAgent.cs:543-565 | Removes the first line with its terminator, echoes it, and prompts, queues it or finds that it exits. |
| `ConPtyShell.ConPtyShell.DrainConPtyShellInput` | apps/desktop/native/SovereignNativeAgent.cs:518-566 | The loop over the pending buffer terminates and handles what the specification drains. |
| `ConPtyShell.ConPtyShell.RunConPtyShell` | apps/desktop/native/SovereignNativeAgent.cs:667-687 | Over any raw lines: other lines are skipped, the closing line ends it, and the commands queued are those of the whole text typed before it. |
| `ConPtyShell.ConPtyShell.ReadRecord` | apps/desktop/native/SovereignNativeAgent.cs:669-681 | A line closes the shell exactly if it is the closing line, and is typed text exactly if it begins with the tag and a tab; the text is then what the rest decodes to. |
| `NotificationText.NormalizeNotificationText` | apps/desktop/native/SovereignNativeAgent.cs:1250-1287 | Yields the visible words with single spaces between them, and fails exactly on a missing, too long or invisible text. |
| `NotificationText.NormalizedAnswers` | apps/desktop/native/SovereignNativeAgent.cs:1250-1287 | A text is refused as too long exactly if its visible characters, with one space between words, are more than allowed, and as invisible exactly if it holds nothing but control characters and white space. |
| `NotificationText.NormalizedWords` | apps/desktop/native/SovereignNativeAgent.cs:1250-1287 | An accepted text keeps its visible characters and the places where words begin; its gaps are single spaces, none of them at an end. |
| `NotificationText.NormalizedStable` | apps/desktop/native/SovereignNativeAgent.cs:1250-1287 | An accepted text is its own normal form and keeps exactly the visible characters, in order. |
| `CapabilityPaging.PagingGathersAll` | apps/gateway/src/capability-directory.ts:263-337 | Following nextCursor from the start with any limit from 1 to 100 chosen afresh for each page serves every page, ends within as many pages as there are entries, and gathers exactly the sorted, filtered list. |
| `PagingAnswers.SearchAnswers` | apps/gateway/src/capability-directory.ts:228-337 | A search is served exactly if its query has at most 500 UTF-16 units, its limit is one from 1 to 100, 25 by default, and its cursor opens it at an offset within what is found; the page runs from there for as long as limit and list allow. |
| `PagingAnswers.SearchRefused` | apps/gateway/src/capability-directory.ts:228-320 | Everything else is refused as invalid input, a limit that is no whole number from 1 to 100 among it. |
| `PagingAnswers.CursorAnswers` | apps/gateway/src/capability-directory.ts:129-179 | A cursor opens a search at an offset exactly if it is well formed, of at most 2048 characters, and carries the version, that search's fingerprint and that offset. |
| `PagingAnswers.MatchMeans` | apps/gateway/src/capability-directory.ts:274-305 | A filter leaves out exactly what some part of it that is set does not apply to; a query applies to what holds it anywhere in its text. |
| `PagingAnswers.ContainsMeans` | apps/gateway/src/capability-directory.ts:292-304 | A query is found exactly where it stands, unbroken, somewhere in the text. |
| `CapabilityPaging.FoundExactly` | apps/gateway/src/capability-directory.ts:274-312 | The list paged through holds exactly the matching capabilities, each as often as listed, none behind one the locale puts after it, and those it does not tell apart in the order of the directory. |
| `CapabilityPaging.CursorRoundTrip` | apps/gateway/src/capability-directory.ts:125-179 | A cursor reads back under its own fingerprint and is refused under any other. |
| `PagingWitness.BindingLawful` | apps/gateway/src/capability-directory.ts:125-179 | A concrete codec meets everything the paging results assume of a cursor's text, for every search that finds fewer than 2^2048 capabilities. |
| `CapabilityPaging.StaleCursorRefused` | apps/gateway/src/capability-directory.ts:125-179 | A page's cursor is refused by every search under another manifest or another filter. |
| `CapabilityPaging.PageAt` | apps/gateway/src/capability-directory.ts:313-337 | A valid offset and limit are served with the entries from there on and a cursor to the rest unless there is none. |

## Left out

- CutoverSerial.AdapterTrace: assumes cutover requests are sent one at a time; the supervisor that sends them is not part of this model. Without it, `CutoverOverlaps.AlternatesExactly` applies.
- CutoverSerial.FailedResumeRecovers: the retry clause needs the advanced Gateway generation to stay a safe integer; the other clauses do not.
- ConPtyShell.ConPtyShell.RunConPtyShell: a payload that is not base64 text ends the shell by an exception, which is not modelled; `decode` is any function.
- NotificationText.NormalizeNotificationText: the label in the error text.
- ShellInput.SplitImmaterial: "exit" is compared in ASCII letters; PowerShell exiting early, which throws while queuing, is not modelled.
- Generations and counters are unbounded integers; only the checks that arguments are safe integers are modelled.
- Cutover's canary, the labels, clocks, host identities and waited times in reports, and argument type checks a typed caller cannot fail.
- The presence of a Gateway is fixed for a run; the source starts and stops it under other operations.
- Session entries are values in a table of the application class, so aliasing of one entry object by several closures is by identity.
- A session initialises at most once and only while its own POST handler awaits, as the MCP transport does it.
- Session reclaim candidates with equal activity times come in any order; the source's stable sort keeps map order.
- A client's DELETE disposes in a step of its own that may interleave anywhere.
- Failure paths of the pending-call tables for messages over the line limit, and the desktop client's own call table and child process, of which only reading from the pipe is modelled.
- Tool-pack audit receipts, reload times, status listeners, file watching and the default configuration file.
- Locale lower-casing and trimming of search terms happen before the model; so does the derivation of what the facade may execute.
- Express routing, authentication, MCP transports, policy engine, approval broker, the Rust supervisor, Serena and browser bridges, all user interface.
- The rest of the native agent, which is sequences of Win32 calls.
