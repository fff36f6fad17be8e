# nightcrow: verified model of the session daemon's core

nightcrow keeps terminal panes alive in a daemon and shows them to attached clients. This
project models the parts of it where threads and processes hand work to each other, and
proves what they promise over every run: no bytes lost, repeated or reordered, nobody
forgotten, nothing unbounded, no stale command acted on, one daemon per socket.

Check everything with `dafny verify dfyconfig.toml`.

## How it is built

State that the program changes in place is a class whose methods are proved against
functions on plain values (`ensures State() == Delivered(limits, old(State()), repo, m)`),
and its loops are loops with invariants. Whole runs are then sequences of labels folded over
those functions: a label that cannot happen in a state leaves it unchanged, so a lemma over
every label sequence speaks of every interleaving. Threads that drop a lock, park, write or
read a few bytes at a time are split at exactly those points, and their local variables are
part of the state. Transports are objects that follow a script of partial, interrupted and
failing calls, so a contract over every script covers every way bytes can be cut up.

- **Attach pipeline.** `FrameCodec` (framing over any transport), `TerminalOutput` (tagged
  pane bytes), `AttachedClients` and `ClientCuts` (bounded queues that cut off rather than skip),
  `Session` (what the session shows and how it is read), `SessionWatch` and `WatchRounds` (the
  watcher and its owed sets), `SetMoments` (when a set is a state the session was in), `TerminalRouter`
  (per-repository inboxes), `RouterLosses` (what closing them can cost), `AttachLink` (all of
  it end to end), `StaleSet` (a run that loses output).
- **PTY side.** `PtyDrain` (one drain pass), `PaneTrace` (a pane over a run, receive by
  receive), `OwnerWake` (the parked owner, all its panes and their producers), `InputQueue`
  (bounded input and its writer).
- **Plugins.** `RateBudget` and `PluginGuard` (rules and sliding windows), `ResumeLine`
  (relaunch command lines), `PaneSpawn` (ids, tokens, generations).
- **Others.** `CivilDate`, `LineReader`, `CloneJobs`, `InstanceSocket`. `Bytes`,
  `Splitting` and `Transport` hold what they share.

## What was found

- A stale set can cut a hole into a pane's output. The client closes every inbox that is not
  in the set it was last told (src/application/session_link.rs:287-290), while its reader may
  already have filed output of a repository opened since. `StaleSet.StaleSetSkips` is such a
  run from the sending of the set on. `AttachLink.DrainedIsPrefix` gives the exact condition,
  by where each byte stood and whatever the bytes are: the bytes drained are the first ones
  tagged, in order, exactly unless bytes of the pane are drained after a close dropped some
  that were queued. What is drained after a close is still without a gap
  (`AttachLink.DrainedInPlace`, for every run).
- A failed relaunch loses the slot. `relaunch_pane` removes pane and slot before the new
  process is attempted, while the hub's comment and log say the pane keeps its hold
  (src/session/terminal/hub_relaunch.rs:190-201). `PaneSpawn.RelaunchKeepsSlotExactly` says
  exactly when the slot survives, `PaneSpawn.LostSlotExample` is a run where it does not, and
  `PaneSpawn.FailedRelaunchLosesSlot` shows that it never comes back.
- A set can show a state the session never was in. The watcher reads the list, the stored
  focus, the catalog again to look it up, perhaps once more for the first repository, and the
  accent, each under a lock of its own. One close between two reads is enough
  (`SetMoments.TornSetIsSent`), and the focus alone can be one the session never had
  (`SetMoments.FocusNeverHadIsSent`). `SetMoments.SentSetIsMomentExactly` gives the exact
  condition for the reads to have seen one moment: no variable changes after it was read with
  a variable still to be read, the same or another, changing then or later. Then the set says
  what that moment showed. The converse is about the reads, not about what is shown: a set
  from several moments can still look like one. Sets of one moment arrive in the order of the
  moments, and all sets are in order read by read.
- A clone runner that panics leaves its job running for good, and every later start is refused
  (`CloneJobs.StuckAfterPanic`); without a panic the slot can always be free again
  (`CloneJobs.FreeWithoutPanic`).
- A generation tells two spawns of a slot apart exactly until it saturates; from then on all
  share it (`PaneSpawn.GenerationsTellApart` gives both directions).
- The `unix-ms:` fallback of a start time cannot be reached by any 64-bit number of
  milliseconds (`CivilDate.EveryTimeHasStamp`).
- The end-to-end results need no condition on the length of repository ids or frames. Of a
  repository whose id is over 255 bytes nothing is ever tagged, only error messages are sent;
  a frame over the limit ends the connection.

## Model

| member | source | states |
|---|---|---|
| `FrameCodec.ReadExactOrEof` | src/daemon/frame.rs:175-190 | Whatever short reads and interruptions happen, the buffer is the next bytes of the stream, a clean end only before the first byte, otherwise an error |
| `FrameCodec.ReadFrame` | src/daemon/frame.rs:152-170 | One frame off the stream under any chunking: unknown kinds, announced sizes over the limit and truncation are told apart, and what is left of the stream is exact |
| `FrameCodec.AdvanceSlices` | src/daemon/frame.rs:131-147 | Advancing the slices by n drops exactly the first n bytes and every slice they used up |
| `FrameCodec.WriteAllVectored` | src/daemon/frame.rs:131-147 | Success means the slices went out whole, failure that a proper prefix of them did |
| `FrameCodec.WriteFrame` | src/daemon/frame.rs:99-129 | An over-long payload writes nothing; otherwise the encoding goes out whole or cut short, joined or as two slices |
| `FrameCodec.ParseEncoded` | src/daemon/frame.rs:99-170 | An encoded in-limit frame in front of anything parses back to itself and leaves the rest |
| `FrameCodec.ParsedIsEncoded` | src/daemon/frame.rs:152-170 | A frame is only ever read where its own encoding stands |
| `FrameCodec.ParseCut` | src/daemon/frame.rs:152-190 | A proper non-empty part of a frame is an error, never a clean end or a shorter frame |
| `FrameCodec.CutStream` | src/daemon/frame.rs:152-190 | A stream cut anywhere reads back as exactly the frames whole before the cut, and ends cleanly if and only if the cut is a frame boundary |
| `FrameCodec.RoundTrip` | src/daemon/frame.rs:99-190 | Any list of in-limit frames reads back as that list and then a clean end |
| `FrameCodec.WriteQueued` | src/daemon/serve/connection.rs:119-128 | For any frames: what is on the wire is the frames sent and at most a proper part of the next; only a frame over the limit or a transport that stalls or breaks ends it early |
| `FrameCodec.CutReads` | src/daemon/frame.rs:152-190 | Such bytes read back as exactly the frames sent, ending cleanly exactly if no part follows |
| `FrameCodec.ReadQueued` | src/daemon/wire.rs:45-74 | Reading gives every frame of the stream and how it ended for every way reads are split, and the first of them when a read fails |
| `FrameCodec.Transfer` | src/daemon/frame.rs:99-190 | Writer and reader joined, for any frames and any two transports: the reader gets the frames written, in order from the first; all of them unless a read failed; every one offered and a clean end if all are within the limit and neither transport gives up |
| `TerminalOutput.DecodeEncoded` | src/daemon/protocol.rs:173-209 | Encoding succeeds exactly for ids of at most 255 bytes, and decoding gives the message back exactly when the id is text |
| `TerminalOutput.EncodeDecoded` | src/daemon/protocol.rs:196-209 | Whatever decodes is the encoding of what it decodes to |
| `TerminalRouter.TerminalRouter.Deliver` | src/daemon/terminal_link.rs:119-163 | Both counters stay the true sums over all inboxes; accepted exactly when not poisoned and bytes and messages fit; coalescing is the filed inbox of the specification |
| `TerminalRouter.TerminalRouter.Drain` | src/daemon/terminal_link.rs:172-193 | Takes the prefix the two drain bounds allow, no more and no less; counters stay the true sums and cannot underflow |
| `TerminalRouter.TerminalRouter.Retain` | src/daemon/terminal_link.rs:197-214 | Exactly the inboxes of open repositories remain, counters follow |
| `TerminalRouter.TakePrefix` | src/daemon/terminal_link.rs:172-193 | The drain loop takes the one count the bounds determine, and measures it right |
| `TerminalRouter.Sweep` | src/daemon/terminal_link.rs:197-214 | What is removed and what is kept add up to what was there |
| `TerminalRouter.IsDrainUnique` | src/daemon/terminal_link.rs:172-193 | The two bounds and "no less than they allow" leave exactly one drain |
| `TerminalRouter.FiledAtoms` | src/daemon/terminal_link/coalescing.rs:4-41 | Appending to a fitting tail adds exactly the new message's own stream |
| `TerminalRouter.Conservation` | src/daemon/terminal_link.rs:119-214 | For every run of deliver, drain and retain: drained then queued is the accepted stream of each retained repository, so coalescing cannot be observed |
| `TerminalRouter.PaneConservation` | src/daemon/terminal_link.rs:119-214 | The same per pane, byte for byte |
| `TerminalRouter.WithinLimits` | src/daemon/terminal_link.rs:119-163 | The true totals never pass the limits in any run |
| `TerminalRouter.Poisoned` | src/daemon/terminal_link.rs:119-163 | After one refusal every later delivery is refused, so a hole is never followed by bytes |
| `TerminalRouter.BytesAreOutput` | src/daemon/terminal_link.rs:45-50 | The bytes the limits count are the bytes of output in the stream and nothing else; an event weighs nothing |
| `TerminalRouter.EventAccepted` | src/daemon/terminal_link.rs:138-146 | Within its limits a router accepts an event exactly if nothing was refused and a message more fits, whatever bytes are queued |
| `TerminalRouter.OutputAccepted` | src/daemon/terminal_link.rs:119-163 | Output is accepted exactly if nothing was refused, its bytes fit, and it continues the last message within one drain or one more message fits |
| `TerminalRouter.EventsDrain` | src/daemon/terminal_link.rs:172-193 | A drain of an inbox of events takes the first 64 or all of them |
| `TerminalRouter.DrainedFits` | src/daemon/terminal_link.rs:172-193 | A drain takes one message at least, and as many as 64 messages and 256 KiB of output allow, told by the streams they carry |
| `AttachedClients.AttachedClients.TryConnect` | src/daemon/clients.rs:87-108 | Admission under the capacity gives the next id, an empty queue and a set owed; at capacity nothing changes |
| `AttachedClients.AttachedClients.Disconnect` | src/daemon/clients.rs:111-116 | Exactly that client leaves |
| `AttachedClients.AttachedClients.Broadcast` | src/daemon/clients.rs:145-151 | Every client's own queue alone decides whether it is kept; those kept are owed nothing any more |
| `AttachedClients.AttachedClients.NoteOwed` | src/daemon/clients.rs:156-161 | Exactly the named client, if attached, becomes owed |
| `AttachedClients.AttachedClients.TakeOwedSets` | src/daemon/clients.rs:167-173 | Returns every owed id in order and clears every flag |
| `AttachedClients.AttachedClients.SendTo` | src/daemon/clients.rs:176-184 | Only the named client's queue changes, and it alone is removed if the frame does not fit |
| `AttachedClients.QueueToAll` | src/daemon/clients.rs:51-67 | The broadcast loop gives each attached channel one attempt and no other channel any |
| `AttachedClients.Isolation` | src/daemon/clients.rs:51-184 | From its admission on, a client's membership, flag and queue are what they would be if it were alone: no other client's overflow, writer or departure reaches it |
| `AttachedClients.NothingSkipped` | src/daemon/clients.rs:51-67 | While attached, what the writer took and what is queued is exactly every frame addressed or broadcast to the client; afterwards a prefix of it; the queue never passes its bound |
| `AttachedClients.DetachedStays` | src/daemon/clients.rs:51-67 | Once cut off or gone, nothing more ever reaches the client's channel |
| `ClientCuts.OfferExactly` | src/daemon/clients.rs:51-67 | A frame offered to an attached client is queued last while its writer is there and fewer than 256 are queued; otherwise the client is cut, and its socket shut if it overflowed |
| `ClientCuts.CutExactly` | src/daemon/clients.rs:51-67 | Over every run, a client that did not leave and whose writer did not end is cut exactly if it was offered a frame while 256 were queued |
| `ClientCuts.WriterTakesFirst` | src/daemon/clients.rs:87-108 | The writer takes what was queued first, and nothing that is not offered touches the queue |
| `AttachedClients.StepKeepsWellFormed` | src/daemon/clients.rs:87-184 | Every operation keeps ids ascending, below the next one, each with its channel |
| `AttachedClients.WithinCapacity` | src/daemon/clients.rs:87-108 | The number of attached clients never exceeds the capacity in any run |
| `AttachedClients.IdsNeverReused` | src/daemon/clients.rs:87-108 | A later admission always hands out a larger id |
| `SessionWatch.EveryoneServed` | src/daemon/watch.rs:63-111 | In every reachable state each attached client is owed a set, is among the taken but unsent, or last got the common set; what it got is in order read by read; and if it is owed one, a wake-up or a serving pass is coming |
| `SessionWatch.ServedBySends` | src/daemon/watch.rs:96-109 | Broadcasting, taking the owed ids and sending to them, with anything in between, leaves nobody unserved |
| `SessionWatch.ServedByOthers` | src/daemon/clients.rs:87-116 | Attaching, detaching, asking, replies, writers and session changes leave nobody unserved |
| `SessionWatch.NotForgottenStep` | src/daemon/watch.rs:31-50 | No step loses the wake-up a client owed a set depends on |
| `SessionWatch.AdmittedInv` | src/daemon/serve/connection.rs:45-71 | A client admitted at any moment of the watcher's loop is owed a set and about to wake the watcher |
| `SessionWatch.InOrderStep` | src/daemon/watch.rs:77-111 | Sets reach each client in order: none of the reads behind a set is older than the same read of a set before it |
| `Session.OneMomentShows` | src/session/operations.rs:108-134 | A set whose reads all saw one moment says what the session showed then, the focus worked out from catalog and stored path included |
| `Session.FocusIsReadInSteps` | src/session/operations.rs:123-134 | A stored path is looked up once among what is served then; if there is none or it was not found, the first of what is served a moment later is taken |
| `SetMoments.SentSetIsMomentExactly` | src/session/operations.rs:114-134 | In every run the reads behind a set sent to a client saw one moment if and only if the pass was not torn: no variable changed after it was read with a variable still to be read, the same or another, changing then or later; and then the set says what that moment showed |
| `SetMoments.MomentsArriveInOrder` | src/daemon/watch.rs:56-58 | Sets of one moment each reach every client in the order the session went through the moments |
| `SetMoments.TornSetIsSent` | src/session/operations.rs:164-203 | A run in which the repository in front is closed between two reads and a client is sent the old list with the new focus, a state the session never was in |
| `SetMoments.FocusNeverHadIsSent` | src/session/operations.rs:123-134 | A run in which a client is sent a focus the session never had, because the lookup falls back on a later catalog |
| `SetMoments.RunTear` | src/daemon/watch.rs:77-84 | At every read of a pass, what it has read and would read can be of one moment exactly if it is not torn so far |
| `SessionWatch.LatestAfterPass` | src/daemon/watch.rs:77-111 | Once the session rests, one full pass leaves every client attached before it with the session as it stands |
| `WatchRounds.PassCompletes` | src/daemon/watch.rs:77-110 | From its wait the watcher always gets through a whole pass by its own moves |
| `WatchRounds.NoNewsNoBroadcast` | src/daemon/watch.rs:69-76 | As long as the session does not change, no arrival, question or departure makes the watcher broadcast; sets go to whoever is owed one and nobody else |
| `WatchRounds.FlagExactly` | src/daemon/watch.rs:31-50 | A poke raises the flag, the end of a wait takes it down, a refused attach changes nothing |
| `AttachLink.ReadRouted` | src/daemon/wire.rs:87-117 | One frame is filed with the router, handed over or refused, as its bytes say; without one, at the end or on a failed read, nothing is filed |
| `AttachLink.Pump` | src/daemon/wire.rs:45-74 | The client's read loop routes the frames of the stream in order until one cannot be made sense of, filed or handed over; only a failing read leaves frames unread |
| `AttachLink.NextIsNext` | src/daemon/wire.rs:87-117 | The next frame the reader makes out of partial reads is the next frame written |
| `AttachLink.TagFrameCarries` | src/daemon/terminals.rs:146-165 | A tagged frame carries exactly its own bytes to its own repository, and an untaggable piece goes out as the error message |
| `AttachLink.ControlCarries` | src/daemon/wire.rs:87-117 | A control frame carries its pane event to the repository it names, a plain message to the client, and nothing otherwise |
| `AttachLink.EventIsFiled` | src/daemon/wire.rs:107-114 | A pane event with room for it ends up last in its repository's inbox and reading goes on |
| `AttachLink.ReaderStopsExactly` | src/daemon/wire.rs:45-117 | The reader stops if and only if its connection fails or it has a whole frame that is none, does not decode, does not parse, or is refused by the router |
| `AttachLink.LinkInvariants` | src/daemon/wire.rs:45-117 | Queue, bytes in flight, everything ever filed or handed over and everything sent agree after every interleaving, for every repository |
| `AttachLink.ClientIsView` | src/daemon/clients.rs:51-184 | The client at the near end of the link is the one a registry of any number of clients holds, whatever happens to the others |
| `RouterLosses.LostThenAccepted` | src/daemon/terminal_link.rs:197-214 | Everything ever filed is what the last close cut off and what was accepted since |
| `RouterLosses.NothingMissing` | src/daemon/terminal_link.rs:119-214 | As long as no close dropped bytes of a pane, drained and queued are everything filed for it |
| `RouterLosses.PlacesAreRight` | src/daemon/terminal_link.rs:119-214 | In every run, across closes, each drained and queued byte of a pane is one that was filed, each standing further on than the one before |
| `RouterLosses.NoHoleExactly` | src/daemon/terminal_link.rs:197-214 | The i-th byte drained is the i-th filed, for all of them, if and only if none was drained after a close dropped queued ones |
| `AttachLink.DrainedInPlace` | src/daemon/terminal_link.rs:119-214 | End to end, for every interleaving and every repository whenever it was opened: what had been filed before the last close, then what was drained since, bytes and notices in their order, are a prefix of what was sent for it; and the client was handed a prefix of the messages for itself |
| `AttachLink.DrainedIsPrefix` | src/daemon/terminal_link.rs:119-214 | Everything ever drained for a pane stood, in rising order, among what was tagged; it is the beginning of it, by place, if and only if no bytes were drained after a close dropped queued ones |
| `StaleSet.StaleSetSkips` | src/application/session_link.rs:287-290 | A run, closing by the sets handed over and nothing else, in which a set from before a repository was opened closes its inbox and the hole appears |
| `AttachLink.QuietLinkHasEverything` | src/daemon/terminal_link.rs:119-214 | Once nothing is in flight and the client was never cut off, lost, drained and queued are all that was sent for a repository, bytes and notices, and every message for the client was handed over |
| `AttachLink.QuietPaneHasEverything` | src/daemon/terminal_link.rs:119-214 | If moreover no close dropped queued bytes of a pane, everything ever drained and what is queued are every byte tagged for it |
| `PtyDrain.PaneDrain.DrainQueued` | src/backend/pty_drain.rs:23-98 | A pass reports created panes, then each pane in id order; of every pane, the data of the output that left its channel, in order, and its exit once exactly if that became reported; slots that spoke are marked |
| `PtyDrain.PollFacts` | src/backend/pty_drain.rs:52-92 | What a poll takes off the front of a channel is what it reports |
| `PtyDrain.TakeEvents` | src/backend/pty_drain.rs:52-92 | The channel loop equals the recursive poll: events, phase and budget left |
| `PtyDrain.DrainPane` | src/backend/pty_drain.rs:35-96 | Window, budget and loop together equal one pass; the budget subtraction cannot underflow |
| `PtyDrain.PassWithinBudget` | src/backend/pty_drain.rs:35-96 | No window is ever used beyond the budget |
| `PtyDrain.ReportsAreSeparate` | src/backend/pty_drain.rs:23-98 | What is reported of a pane does not depend on any other pane |
| `PaneTrace.ReceiveFacts` | src/backend/pty_drain.rs:52-92 | One receive reports exactly the output it takes, and the exit exactly where the phase moves to reported, at the end of the master or dry after the grace |
| `PaneTrace.SendExactly` | src/backend/pty_spawn.rs:138-164 | Reader and waiter queue anything while the channel has room, each its end only once and nothing after it |
| `PaneTrace.TurnIsPass` | src/backend/pty_drain.rs:35-96 | A turn of single receives, left alone, leaves and reports exactly what one pass of the loop does |
| `PaneTrace.ReportedOnceInOrder` | src/backend/pty_drain.rs:52-92 | Over every run, with sends landing between any two receives, the exit is reported at most once and the output reported is a prefix of the output queued |
| `PaneTrace.ExitReport` | src/backend/pty.rs:56-82 | A receive reports an exit only after all output the reader queued, or with the channel dry and the whole grace elapsed since the child's death was drained |
| `PaneTrace.DryTurnReports` | src/backend/pty_drain.rs:76-92 | A turn that finds the channel of a draining pane dry reports the exit if and only if 50 ms have passed since the child's death was drained |
| `PaneTrace.TurnTakesNext` | src/backend/pty_drain.rs:52-75 | A turn with anything left takes the next event and goes on, unless it was the end of the master |
| `PaneTrace.TurnAllowance` | src/backend/pty_drain.rs:35-50 | A paced turn may take what is left of 64 in the 8 ms of its window, a new window 64, a polling owner's turn 64 |
| `PaneTrace.NextWindow` | src/backend/pty.rs:33-54 | Windows of a pane start at least one window length apart |
| `PaneTrace.PacingBound` | src/backend/pty_drain.rs:35-96 | In any interval of length T a pane of a woken owner reports at most 64 * (ceil(T / 8 ms) + 1) outputs, with sends landing anywhere |
| `OwnerWake.NextDeadline` | src/backend/pty_wakeup.rs:25-40 | The earliest end of a begun grace or a spent window over all panes, and none if there is none |
| `OwnerWake.InvStep` | src/platform/threading.rs:35-67 | Every send, wake, receive, park and return keeps each queued event on its way to being looked at |
| `OwnerWake.NoStrandedEvents` | src/backend/pty_io.rs:168-196 | Whenever the owner is parked with the flag down, a non-empty channel with unreported exit has a producer yet to wake, or a spent window the owner will be awake for; a draining pane is seen by the end of its grace |
| `OwnerWake.PassGetsRound` | src/backend/pty_drain.rs:23-98 | An owner that is awake can always make a whole pass by its own steps, after which no pane has anything waiting that is neither moot nor held back by a spent window |
| `OwnerWake.WakeExactly` | src/platform/threading.rs:35-67 | Waking raises the flag; a wait returns at once on a raised flag or a deadline not in the future, parks until the earlier of deadline and cap otherwise, and takes the flag down |
| `OwnerWake.SendOwes` | src/backend/pty_io.rs:168-196 | An event that may be queued is, and its thread then owes a wake-up |
| `OwnerWake.EveryPaneReportsRight` | src/backend/pty_drain.rs:23-98 | The exit, prefix and pacing results for every pane in every run of the owner and all producers |
| `OwnerWake.EveryExitIsDue` | src/backend/pty_drain.rs:52-92 | Any step of such a run that makes an exit known has one of the two reasons it needs |
| `InputQueue.InputQueue.Enqueue` | src/backend/pty_io.rs:47-69 | Accepted exactly when open, healthy and within both limits; the counters are queue plus in flight |
| `InputQueue.InputQueue.Close` | src/backend/pty_io.rs:82-90 | The queue is dropped, a write in flight stays counted, nothing underflows |
| `InputQueue.InputQueue.TakeNext` | src/backend/pty_io.rs:99-115 | The worker takes the oldest message, or stops once closed or failed |
| `InputQueue.InputQueue.FinishWrite` | src/backend/pty_io.rs:115-130 | The counters give back exactly what was in flight; a failure drops the queue, also after a close during the write |
| `InputQueue.WrittenInOrder` | src/backend/pty_io.rs:47-130 | Under every interleaving, pending bytes and messages stay within limits and what was written is a prefix of what was accepted, all of it once an open queue is empty |
| `InputQueue.NothingAcceptedAfterEnd` | src/backend/pty_io.rs:47-69 | Nothing is ever accepted after failure or close |
| `InputQueue.AcceptedExactly` | src/backend/pty_io.rs:47-69 | Input is taken in if and only if the queue is open and healthy and it is empty or within 256 messages and 4 MiB, counting what is being written; and then it stands last |
| `InputQueue.WorkerTakesOldest` | src/backend/pty_io.rs:99-130 | The worker of an open queue takes the oldest message, and a write that succeeds is all of it |
| `RateBudget.Budgets.TrySpend` | src/plugin/guard_budget.rs:80-98 | Prunes, then grants exactly when the fresh stamps leave room, recording only a grant; the account is opened and pruned on refusal too |
| `RateBudget.FreshAgain` | src/plugin/guard_budget.rs:92-92 | Pruning early never changes what a later look finds |
| `RateBudget.ChargeTracks` | src/plugin/guard_budget.rs:80-98 | One look keeps the pruned stamps equivalent to the full record and the record within the limit in every window; narrowing the length to 32 bits is harmless |
| `RateBudget.GrantedExactly` | src/plugin/guard_budget.rs:87-95 | A send is granted if and only if fewer than the allowed sends are younger than the window, a relaunch likewise by its own limit |
| `ResumeLine.BuildResumeLine` | src/backend/slot.rs:111-159 | The checked loop gives the command and arguments joined by spaces, or the first fault in the source's order of checks |
| `ResumeLine.LineHoldsArguments` | src/backend/slot.rs:106-159 | A line is built exactly for an existing command and allowed arguments; it extends the command and splitting the rest at spaces gives the arguments back whole |
| `ResumeLine.LineDeterminesArguments` | src/backend/slot.rs:111-159 | Two argument lists never give one line |
| `ResumeLine.ArgAllowedExactly` | src/backend/slot.rs:98-151 | An argument is allowed if and only if it encodes to 1 to 256 bytes, holds letters, digits and eight signs only, and is on the list where it comes first or begins with a dash or slash |
| `ResumeLine.LengthIsEncoded` | src/backend/slot.rs:136-136 | Lengths are those of the UTF-8 encoding of section 3 of RFC 3629 |
| `PluginGuard.Guard.Judge` | src/plugin/guard.rs:119-184 | Verdict and budget change for every command, the rules checked in the source's order |
| `PluginGuard.CancelStartsAfresh` | src/plugin/guard.rs:103-112 | After a cancel, commands for the slot are judged as if nothing had ever been approved, and all others as before |
| `PluginGuard.InputApprovedExactly` | src/plugin/guard.rs:186-225 | Input is approved, and typed as it is, if and only if the pane is the plugin's, of that generation, alive, idle long enough, and the text is at most 8192 bytes, producible on a keyboard and within budget |
| `PluginGuard.RelaunchApprovedExactly` | src/plugin/guard.rs:227-265 | A relaunch is approved, with the command and arguments as its line, if and only if the pane is the plugin's, of that generation, exited, has a command, and arguments and budget allow |
| `PluginGuard.OthersApprovedExactly` | src/plugin/guard_watch.rs:24-58 | Reports need consent and generation; asking for a pane needs the operator's switch, a live pane and no other watcher |
| `PluginGuard.NamingRefusals` | src/plugin/guard.rs:268-293 | An unknown pane, one that did not opt in and a stale generation are told apart, before any other reason |
| `PluginGuard.Guard.JudgeSendInput` | src/plugin/guard.rs:186-225 | The budget is charged only after every other rule passed |
| `PluginGuard.Guard.JudgeRelaunch` | src/plugin/guard.rs:227-265 | The same for relaunches, with the line the backend will build |
| `PluginGuard.Truncated` | src/plugin/guard_text.rs:22-32 | A log message keeps its longest beginning within the cap, on a character boundary |
| `PaneSpawn.NoInputAfterRelaunch` | src/plugin/guard.rs:236-240 | From the moment a relaunch naming a spawn is approved, no input naming it is ever approved again in any continuation |
| `PluginGuard.RunTracks` | src/plugin/guard_budget.rs:80-127 | In every run the pruned stamps answer as the whole record of approvals since the last cancel would |
| `PluginGuard.SlidingWindow` | src/plugin/guard_budget.rs:80-127 | Over every run with a non-decreasing clock, any interval one window long holds at most the configured approvals of a kind for a slot since its last cancel, whatever ids and generations it went through |
| `PluginGuard.RefusalsAreInvisible` | src/plugin/guard.rs:119-184 | Leaving any refused commands out of a run changes no other verdict, although refusals prune and open accounts |
| `PaneSpawn.PaneTable.Open` | src/backend/pty_spawn.rs:20-26 | A new pane gets the next id, its token, the first generation and its command; a failed start spends no id |
| `PaneSpawn.PaneTable.Relaunch` | src/backend/pty_spawn.rs:33-61 | Refused arguments change nothing; otherwise old process and slot go and, if the start succeeds, a new id carries the token with the next generation and the original command |
| `PaneSpawn.PaneTable.StartProcess` | src/backend/pty_spawn.rs:132-184 | The id counter stops short of overflow and moves only on success |
| `PaneSpawn.PaneTable.PaneForToken` | src/backend/slot.rs:82-87 | Finds the pane a token names, if any |
| `PaneSpawn.RunInv` | src/backend/pty_spawn.rs:33-61 | In every run each slot and each live process is the latest spawn of its token, and every spawn carries on from those before it |
| `PaneSpawn.IdsNeverReused` | src/backend/pty_spawn.rs:132-136 | Pane ids strictly increase over every run |
| `PaneSpawn.TokensAreUnique` | src/backend/pty_spawn.rs:49-60 | No two slots share a token and no two live processes carry one |
| `PaneSpawn.SilenceIsTrue` | src/backend/slot.rs:25-76 | In every run a slot's last output is when its pane was last heard, or started if it was not |
| `PaneSpawn.LetGo` | src/backend/pty.rs:176-211 | Releasing keeps the slot, retiring keeps the process, destroying keeps neither, and no other pane is touched |
| `PaneSpawn.GenerationsTellApart` | src/backend/identity.rs:100-117 | Two spawns of a slot share a generation if and only if it is saturated |
| `PaneSpawn.RunLine` | src/backend/pty_spawn.rs:57-60 | After any number of relaunches the line run is the original command plus only that relaunch's arguments |
| `PaneSpawn.ApprovedActsOnNamedSpawn` | src/plugin/guard.rs:268-293 | In every reachable state an approved command acts on a pane its plugin owns and only on the spawn its token and generation name; input only on a live process carrying the token, silent long enough, and only short text a keyboard produces; relaunches only on an exited one |
| `PaneSpawn.HubApproves` | src/session/terminal/hub_events.rs:205-240 | And nothing more is asked: under those conditions and with budget left the command is approved for that pane |
| `PaneSpawn.HubWatchExactly` | src/session/terminal/hub_events.rs:205-240 | A plugin is given a pane if and only if the operator lets it ask and the token names a live pane nobody else has |
| `PaneSpawn.ApprovedLineRuns` | src/session/terminal/hub_relaunch.rs:168-180 | Carrying out an approved relaunch starts exactly the line that was approved, under a new id, the next generation and the same token |
| `PaneSpawn.GoneForGood` | src/backend/pty.rs:183-187 | A retired token never names a pane again |
| `PaneSpawn.RelaunchKeepsSlotExactly` | src/backend/pty_spawn.rs:41-60 | In every reachable state a relaunch leaves the slot in existence if and only if its arguments are refused or the new process starts and gets an id |
| `PaneSpawn.FailedRelaunchLosesSlot` | src/backend/pty_spawn.rs:49-60 | Where it does not, for want of a process or of an id, every later command for the slot is refused as unknown |
| `PaneSpawn.LostSlotExample` | src/backend/pty_spawn.rs:49-60 | A run that opens a pane and loses its slot to a relaunch that cannot start |
| `CivilDate.EraIsFloor` | src/cli/status_render.rs:129-135 | The adjusted truncating division is a floor, so the day of the era is in range, before year zero too |
| `CivilDate.YearIsLocated` | src/cli/status_render.rs:136-139 | The closed formula finds the March-based year that holds the day, leap years included |
| `CivilDate.NextDayIsNext` | src/cli/status_render.rs:128-144 | For every integer the next day number is the next calendar day under the rules of RFC 3339, Appendix C and section 5.7 |
| `CivilDate.CountsFromEpoch` | src/cli/status_render.rs:128-144 | Day n is the n-th calendar successor of 1970-01-01 |
| `CivilDate.AlwaysADate` | src/cli/status_render.rs:128-144 | Every result is a date that exists |
| `CivilDate.LaterIsLater` | src/cli/status_render.rs:128-144 | Strictly increasing, hence injective |
| `CivilDate.NothingOverflows` | src/cli/status_render.rs:113-140 | Under the guard no intermediate leaves 64 bits, and the guard is exact for the first addition |
| `CivilDate.EveryTimeHasStamp` | src/cli/status_render.rs:110-126 | Every 64-bit time gets a real date and a time of day that recombines to its milliseconds |
| `CivilDate.StampsTellTimesApart` | src/cli/status_render.rs:110-126 | Different times never show alike |
| `LineReader.ReadCapped` | src/plugin/host_pump.rs:146-170 | For every chunking: consumes exactly one line, keeps at most the cap of it, counts it exactly |
| `LineReader.PullLine` | src/plugin/host_pump.rs:117-136 | Whole line within the cap with one trailing return removed, exact length beyond it, end only on an empty stream |
| `LineReader.PullAll` | src/plugin/host_pump.rs:92-114 | Pulling to the end equals splitting the stream at its newlines; an error stops early with nothing wrong reported |
| `LineReader.WrittenLinesAreReported` | src/plugin/host_pump.rs:117-170 | Lines written one per line come back one by one, and an over-long one leaks nothing into the next |
| `LineReader.LinesAreWhole` | src/plugin/host_pump.rs:117-170 | Every line of at most 64 KiB that is text comes back byte for byte without the one carriage return it may end in, a longer one by its length, and what follows the last newline is a line unless it is empty |
| `CloneJobs.CloneJobs.TryStart` | src/session/clone.rs:64-89 | Refused exactly while a job runs; otherwise the next id, with the oldest finished jobs evicted from a full table |
| `CloneJobs.CloneJobs.Look` | src/session/clone.rs:97-114 | Asked for none in particular, idle if and only if nothing runs |
| `CloneJobs.Evict` | src/session/clone.rs:73-86 | Sorting and taking the oldest finished ids equals the specified eviction |
| `CloneJobs.EvictionKeepsNewest` | src/session/clone.rs:73-86 | A full table without gaps keeps exactly its newer half |
| `CloneJobs.TableInvariant` | src/session/clone.rs:63-113 | In every reachable state at most one job runs, exactly while its thread is under way or after it panicked; ids are contiguous up to the last issued, at most 32, and each survives the next 16 starts |
| `CloneJobs.StuckAfterPanic` | src/session/clone.rs:228-240 | After a panic of the runner the table never changes again and every start is refused |
| `CloneJobs.PanicExample` | src/session/clone.rs:228-240 | The run that gets there, and the start it refuses |
| `CloneJobs.FreeWithoutPanic` | src/session/clone.rs:183-240 | Without one, some continuation always frees the slot |
| `CloneJobs.ResultsAreFinal` | src/session/clone.rs:183-240 | A recorded result never changes and is forgotten only after more than 16 later starts |
| `CloneJobs.ResultIsTheThreads` | src/session/clone.rs:183-240 | What is remembered of a job is what its thread ended with: a failed directory, a failed start, or the runner's outcome |
| `InstanceSocket.Place.Acquire` | src/daemon/lock.rs:28-53 | Retries through signals, and ends with the lock, with another's claim or with a failure |
| `InstanceSocket.Place.BindSocket` | src/daemon/socket.rs:42-75 | A call to bind is one schedule of the step machine, failures and what they leave behind included |
| `InstanceSocket.Place.DropSocket` | src/daemon/socket.rs:111-118 | File first, listener second, lock last |
| `InstanceSocket.SingleInstance` | src/daemon/socket.rs:28-75 | For any processes and any crashes at most one is bound, the path leads to the serving daemon until it leaves, it unlinks only its own file, and what is cleared has no listener |
| `InstanceSocket.OthersCannotInterfere` | src/daemon/lock.rs:28-53 | While one process holds the lock no other step touches lock, path or that process |
| `InstanceSocket.DebrisNeverBlocks` | src/daemon/socket.rs:50-65 | Whatever was left behind, a process that finds the lock free and meets no system fault ends up serving |
| `InstanceSocket.FirstServes` | src/daemon/socket.rs:42-75 | The first process that comes ends up serving |
| `InstanceSocket.CrashExactly` | src/daemon/lock.rs:1-8 | A crash ends the process and frees its lock, leaves its socket file, and touches nobody else |
| `InstanceSocket.NextServesAfterCrash` | src/daemon/socket.rs:37-65 | After a crash of the serving process the next one that asks ends up serving |
| `InstanceSocket.AttemptExactly` | src/daemon/lock.rs:40-85 | A signal is no answer, a fault or another's claim ends the attempt, a free lock is taken |
| `InstanceSocket.BindFindsPathFree` | src/daemon/socket.rs:50-65 | Bind never finds the address in use |
| `InstanceSocket.LockIsHeldByTheLiving` | src/daemon/lock.rs:87-94 | The lock is free or held by a process that has not ended |

## Left out

- JSON messages and UTF-8 decoding: control payloads are parsed by an arbitrary function, and text validity is an arbitrary predicate.
- Read timeouts that fire inside a frame: the client's loop resumes with a fresh header after one, so the codec and link claims assume none does (src/daemon/wire.rs:60-74).
- Condition variables: a wait is a step that may be left at any time, so the claims do not rest on wake-ups being prompt; how long anything takes is not modelled.
- The watcher's endless loop and the lock, socket and owner threads are step machines over values rather than loops, because their point is what happens between steps.
- How opening, closing and reordering repositories choose the next catalog and stored focus: any change to one of the session's variables is a step.
- SessionWatch.InOrderStep: states order read by read, because the source makes the reads separately; order of whole sets holds of those of one moment, `SetMoments.MomentsArriveInOrder`.
- Wrap-around of 64-bit client ids, job ids and byte totals on the daemon side, which no run can reach.
- PaneSpawn.PaneTable.Open: takes the random token as a parameter; that tokens do not repeat is an assumption of the run lemmas.
- Token generation, path hashing and the plugin runtime directory.
- The child process, PTY, process tree and reaper behind a spawn: one flag says whether starting succeeded.
- The text of refusals and of rendered dates, uptime and status.
- Who owns or holds a pane in the hub and how long a hold lasts; the guard's facts take ownership as given.
- The destination directory a clone claims and removes.
- `nightcrow stop`, file permissions and path length limits of the socket.
- The terminal user interface, git reading, file watchers, configuration, the web viewer and release scripts, which are platform code, drawing or one-branch checks.
