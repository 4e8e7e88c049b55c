# Verified models of corcovado, copa and the batching parser

This project models the concurrent core of the event library `corcovado` (readiness queue, timer, channel, poll
lock) and the terminal parser `copa` with its batching wrapper in `rio-backend`, and proves what they keep over
all interleavings and all inputs.

## How the models are built

**Readiness queue.** `ReadinessList.dfy` is the intrusive multi-producer list with its three markers as a
transition system: every atomic access of `enqueue_node`, `dequeue_node`, `prepare_for_sleep` and
`clear_sleep_marker` is one step, any number of producers run against one polling thread, memory is sequentially
consistent.  An auxiliary chain holds the nodes from tail to head; a gap in the links belongs to the producer that
has swapped the head and not yet stored the link.  `ReadinessNodes.dfy` runs `set_readiness`, `update`, handle
clones and drops, `release_node`, the poll loop and the queue's drop on top of it, with state words, reference
counts and token slots; `ReadinessFacts.dfy` says what this means in every reachable state.  `ReadinessSteps.dfy`
takes every step apart into steps of the list, so that what is proved of the list alone holds of the whole queue.
`ReadinessReports.dfy`, `ReadinessRights.dfy` and `ReadinessTold.dfy` are about whole runs: what a report carries, oneshot,
who pushes, and that word, slots and reports say what the node has been told, call by call.  `ReadinessLock.dfy` is about
the update lock.  `ReadinessListAlone.dfy`, `ReadinessAlone.dfy`, `ReadinessTurn.dfy` and `ReadinessDrain.dfy` say what each
operation comes to, and within how many steps, when from any reachable state on nobody disturbs it.
`ReadinessClose.dfy` and `ReadinessGone.dfy` are about the drop of the queue.  `ReadinessPoll.dfy` is one whole call
of `ReadinessQueue::poll` as a method over a list in the heap, while nobody pushes.  The awakener is a sticky flag.

**Timer.** `TimingWheel.dfy` is the timer as a class: the wheel is an array, the slab a map whose fresh keys the
caller supplies, the cursor a field.  A slot is `tick % n`; the source masks with `n - 1`, `n` being a power of
two.  Ticks are below `u64::MAX`.  The class is proved against `TimerModel.dfy`, a plain collection from which a
poll takes the earliest timeout, and against `TimerWalk.dfy`, which follows the cursor and keeps for each slot what
its bound covers, so that the answers of `next_tick` can be told exactly.  `TimerWakeup.dfy` is the protocol with the
wakeup thread.  `TimerSystem.dfy` puts the two together: an operation of the timer is the step of the protocol that
makes the calls the class logs.  The clock is a parameter of each step.  Both say when a wakeup comes: within six steps of
the wakeup thread once the clock shows the deadline, and never before a tick that was asked for.

**Parser.** `Vt.dfy` is a machine that takes one byte at a time and carries only what can still matter. `VtParser.dfy`
is `copa::Parser` as a class with its fixed arrays, refining the machine; `VtGround.dfy`, `VtAdvance.dfy`,
`VtUntil.dfy` and `VtChunks.dfy` relate bulk validation, the carry buffer, early termination and chunking to it.
`Utf8.dfy` states well-formedness after section 4 of RFC 3629 and error lengths after the maximal-subpart rule in
section 3.9 of the Unicode Standard; the validator and the search for ESC enter as functions.  `VtParams.dfy` is the
parameter list; `VtTrace.dfy` is about whole runs; `VtText.dfy`, `VtOsc.dfy`, `VtCsi.dfy` and `VtSequences.dfy` say
which calls text and whole sequences lead to, from their bytes; `VtBatched.dfy` is the wrapper.  The performer is the
list of calls made on it, and decides from that list when to terminate.  The OSC buffer is unbounded, as with the
`std` feature.

**Counters.** `Channel.dfy` and `PollLock.dfy` are transition systems of the channel's counters and of the lock
in `Poll::poll1`, with what each operation comes to when nobody disturbs it.

## What turned out differently from what one might expect

- `poll_to` raises its target to the current tick, and a poll that finds nothing leaves the timer one tick ahead.
  `TimerModel.TargetIsExceeded` says exactly when a poll fires a timeout that is due after the caller's target;
  `TimerModel.SecondPollExceedsTarget` is an input for it.
- A call of `advance` that starts with the lead byte of a two-byte character prints a completed C1 control instead
  of executing it, and may lose an ASCII byte after the completed character.  `VtChunks.AdvanceIsFold` says exactly
  when; `VtChunks.ControlPrinted` and `VtChunks.LetterLost` are inputs for both.
- The documentation of `advance_until_terminated` (copa/src/lib.rs:134) and of `Perform::terminated`
  (copa/src/lib.rs:1000) says that termination is checked after every byte.  It is checked before the first byte and at
  the end of every turn: after a byte read outside the ground state, after an ESC, at the end of an ill-formed subpart,
  and at the end of the input.  `VtUntil.StopsOnTime`: a call stops as soon as the performer has had enough if and only
  if a turn ends there.  `VtUntil.LettersTogether` is an input for which it does not.  The calls that a subpart makes
  when the next byte shows that it is ill-formed count as made at its end, as in the code.
- The drop of the readiness queue empties the list if and only if its last load of a marker's next pointer, which is
  the one that finds null, found no producer between its swap of the head and its link
  (`ReadinessGone.GoneMeans`, `ReadinessGone.DropReleasesAll`).  `ReadinessGone.DropLeavesNode` is a run in which it
  leaves a node behind, which then is never freed (`ReadinessGone.LeftIsNeverFreed`).  It need not be the first load of
  a next pointer, because nodes and an end marker may come before.
- Oneshot is documented (corcovado/src/poll.rs:168-175) to disable a handle once its event was returned.  For
  registrations it does so if and only if the node is also edge-triggered (`ReadinessPoll.OneshotSilences`); then a
  second report takes an `update` in between (`ReadinessReports.OneshotReportsOnce`).  `ReadinessPoll.LevelOneshotTwice`
  is an input reported twice.
- `next_tick` is meant to be the next tick that holds a timeout.  It may lie in the past, with or without a cancel
  (`TimerWalk.InsertedBefore`, `TimerWalk.CancelledAtCursor`), if and only if a slot was left with a bound for the tick
  that was left, which has not been cleared since, and nothing may be due at the cursor (`TimerWalk.NextTickIsPast`,
  and for one poll `TimerWalk.RestIsPast`).  After a poll that found nothing it is the earliest deadline if and only if
  no bound covers an earlier timeout that was cancelled or fired (`TimerWalk.NextTickIsEarliest`).  It then never is
  too late.  Between two polls it may be too late, so that a timer registered right after a poll that returned a timeout
  may not be woken for the rest: `TimerWalk.BetweenTwoPolls` is an input.  `TimerWalk.RegisterIsLate` says exactly when,
  over all runs: some poll that returned a timeout has moved on or found the cursor on the head of its slot (the branch
  at corcovado/src/timer.rs:315, which clears the bound), no poll since has come back empty, the earliest live timeout
  is in the current slot at the cursor or behind it, and no bound covers a timeout that is gone and was due by then.
- `ParamsIter::size_hint` counts values, not groups; the two agree if and only if each group that is left is one value
  (`VtParams.ParamsIter.SizeHint`).  `VtParams.HintTooLarge` is an input.
- `ReceiverCtl::dec` may come before the `SenderCtl::inc` it belongs to, so the counter may wrap below 0 for a while:
  `Channel.WrapIsTransient` says exactly when, `Channel.WrapHappens` is a run.
- A channel that was drained may stay readable, because a sender that found the counter at 0 may announce after the
  receiver has cleared the readiness: `Channel.RaceLeavesReadable` is a run.  At rest with nothing pending it is readable
  if and only if the last write of its readiness was such an announcement (`Channel.DrainedReadable`), and never if
  operations do not overlap (`Channel.SequentialReadable`).
- An APC string that CAN or SUB ends is handed that byte before its end; SOS and PM strings are not (`VtSequences.StringTold`).

## Model

| member | source | states |
|---|---|---|
| ReadinessList.RunsKeepInvariant | corcovado/src/poll.rs:2285-2527 | in every state of every interleaving the chain from tail to head is duplicate-free, agrees with `next` except at owned gaps, holds at most one of the end and sleep markers; what was popped followed by what is in the chain is what was pushed, in the order of the head swaps |
| ReadinessList.PushKeeps | corcovado/src/poll.rs:2391-2435 | every access of a push, by any thread in any state, keeps the whole invariant |
| ReadinessList.PollKeeps | corcovado/src/poll.rs:2437-2527 | every access of the polling thread's consumer operations keeps the whole invariant |
| ReadinessList.GapHasOneOwner | corcovado/src/poll.rs:2404-2432 | a null link inside the list is owed by exactly one thread, the one that pushed the node after it and is about to store that very link |
| ReadinessList.DequeueTakesFirst | corcovado/src/poll.rs:2473-2527 | a dequeue that delivers delivers the first data node, which is then gone from the list, and no thread still has to write its link or is pushing it |
| ReadinessList.SleepIsSafe | corcovado/src/poll.rs:2285-2343 | while the poller sleeps the sleep marker is at the tail, and if anything follows it, the awakener is set or the thread that pushed the node directly behind the marker is at its link or its wakeup |
| ReadinessList.SleepMarkerPlace | corcovado/src/poll.rs:2305-2340 | the sleep marker is only ever at the tail and never together with the end marker |
| ReadinessList.PollerPushNeverWakes | corcovado/src/poll.rs:2260-2270 | no push of the polling thread is behind the sleep marker, so the loop may ignore its result |
| ReadinessList.NobodyPushes | corcovado/src/poll.rs:2391-2416 | a node that nobody owns is in no thread's push |
| ReadinessList.RejectTracks | corcovado/src/poll.rs:2403-2416 | a push is refused only for a data node of a closing queue, and the refused thread held the right to push it |
| ReadinessSteps.ListIsReachable | corcovado/src/poll.rs:1887-2527 | the list of any reachable state of the whole queue is one that the steps of the list lead to, so all of the above holds there |
| ReadinessFacts.RunsKeepInvariant | corcovado/src/poll.rs:1887-2280 | the combined invariant of state words, rights to push, reference counts, token slots and the poll loop holds in every state of every interleaving |
| ReadinessNodes.ApplyKeeps | corcovado/src/poll.rs:1877-2373 | every action of every thread, from creating a registration to dropping the queue, keeps the combined invariant |
| ReadinessFacts.QueuedMeansOneRight | corcovado/src/poll.rs:1887-1925 | QUEUED is set exactly when the node is in the list, or one thread is on its way to push it, or it is retired by its drop or the queue's; these exclude each other and no two threads are on the way |
| ReadinessFacts.NeverPushedWhileLinked | corcovado/src/poll.rs:2391-2435 | a node about to be swapped in at the head is not in the list |
| ReadinessFacts.ReadinessIsNotLost | corcovado/src/poll.rs:1887-2094 | a level-triggered node that has something to report, is not dropped and whose queue lives is in the list or with somebody on the way to push it |
| ReadinessRights.TogglerPushes | corcovado/src/poll.rs:1887-1925 | in every run, whoever sets QUEUED on a node holds the right to push it without a break until that same thread pushes it at the head, or the node is retired because the queue is closing or there is none |
| ReadinessRights.RightStays | corcovado/src/poll.rs:1887-2094 | no step of anybody else takes a thread's right to push a node away |
| ReadinessFacts.ReferenceCount | corcovado/src/poll.rs:2606-2625 | `ref_count` is the number of live handles plus one while the queue holds its implicit handle (less one while `update` has bound the node and not yet counted it); the node is freed once, exactly when all of them are gone, and the queue's handle is released at most once |
| ReadinessFacts.NoUseAfterFree | corcovado/src/poll.rs:2606-2625 | no handle in use, no linked node, no predecessor a producer still has to write and no node poll works on is freed |
| ReadinessFacts.PollNodeAlive | corcovado/src/poll.rs:2218-2280 | the node whose word or token poll reads is not freed, also between its requeue and the read of its token |
| ReadinessNodes.RefusedKeeps | corcovado/src/poll.rs:2403-2416 | a push refused by a closed queue releases the queue's handle, of which at least one other remains, and keeps the invariant |
| ReadinessNodes.RetireStepKeeps | corcovado/src/poll.rs:2222-2226 | the release of a dropped node by poll, and of a left node by the queue's drop, keeps the invariant, hence happens once per node |
| ReadinessNodes.CloseDequeueKeeps | corcovado/src/poll.rs:2346-2373 | every access of the queue's drop to the list keeps the invariant, also when producers push at the same time |
| ReadinessClose.RunsClose | corcovado/src/poll.rs:2346-2373 | in every state of every run, once the drop looks for nodes the closed marker is in the list, nothing is pushed behind it, and a sleep marker being replaced has a node behind it |
| ReadinessGone.GoneMeans | corcovado/src/poll.rs:2346-2373 | in every run, the drop ends with a load of null behind a marker, followed at most by the replacement of the sleep marker, and then no node is in the list if and only if no thread owed that marker's link at this load |
| ReadinessGone.NullEnds | corcovado/src/poll.rs:2437-2490 | once null was found behind a marker the drop takes no further node |
| ReadinessGone.DropReleasesAll | corcovado/src/poll.rs:2346-2373 | every node in the list since the drop began to look has its handle released exactly once, if and only if no link was owed at that load |
| ReadinessGone.GoneReleases | corcovado/src/poll.rs:2346-2373 | node by node: a queue that is gone has released those no longer in its list once, and the others never |
| ReadinessGone.LeftIsNeverFreed | corcovado/src/poll.rs:2606-2625 | a node left in the list of a queue that is gone is not freed in any later state of the run |
| ReadinessGone.DropLeavesNode | corcovado/src/poll.rs:2346-2373 | a reachable state: a producer has swapped its node in and not linked it, the drop finds null behind the end marker and leaves the node |
| ReadinessFacts.WriterAvoidsReader | corcovado/src/poll.rs:2006-2038 | the slot `update` writes is neither the published one nor the one poll may be reading, positions stay in 0..2, and only one thread per node is in the locked part |
| ReadinessNodes.NextTokenPos | corcovado/src/poll.rs:2777-2802 | the next token position differs from the read and the write position |
| ReadinessFacts.UpdatePublishes | corcovado/src/poll.rs:2021-2089 | a successful swap of `update` publishes the requested token, interest and options, keeps the readiness, and queues the node exactly if it was queued or has something to report |
| ReadinessFacts.PollActsOnPublished | corcovado/src/poll.rs:2206-2258 | the word poll acts on determines the readiness it will report and the token published with that word |
| ReadinessReports.ReportIsPublished | corcovado/src/poll.rs:2206-2279 | for every report in every run there is the earlier step at which poll acted on that node's word, not dropped; the report carries the readiness effective in that word and the token published with it, whatever `update` did in between |
| ReadinessReports.OneshotReportsOnce | corcovado/src/poll.rs:168-175 | in every run, between the two words acted on for two reports of one node that was edge-triggered and oneshot at the first, `update` has published an interest |
| ReadinessTold.NodeSaysWhatItWasTold | corcovado/src/poll.rs:1887-2094 | in every state of every run a node's readiness is the argument of the last `set_readiness` that took effect on it, and none before any; its interest, options and token are those last published, except that poll has taken back the interest of a reported edge-triggered oneshot node; nothing else changes them |
| ReadinessTold.ReportIsTold | corcovado/src/poll.rs:2206-2279 | every report in every run carries, flag by flag, just what the node had been told to be ready with and interested in when poll acted on it, never nothing, and the token it had been told |
| ReadinessTold.OpWasCalled | corcovado/src/poll.rs:1866-2094 | what a thread is in the middle of is what it was called to do, with the arguments of that call |
| ReadinessTold.ReadyIsNotLost | corcovado/src/poll.rs:1887-2094 | edge-triggered or not: from the step at which a node is told something ready and of interest, until poll acts on it or it is told otherwise, it is in the list or somebody is on the way to push it, unless it is dropped or the queue closing |
| ReadinessTold.ActRequeues | corcovado/src/poll.rs:2228-2258 | in every run, when poll acts on a node it goes back, still marked queued, exactly if it is level-triggered and there is something to report |
| ReadinessLock.LockedMeansHeld | corcovado/src/poll.rs:1998-2089 | in every reachable state the update lock of a node is taken if and only if a thread is between taking it and giving it back, and that thread is the only one there |
| ReadinessFacts.ReleasedIsDropped | corcovado/src/poll.rs:1736-1745 | when the handle of a registration is given up, its node is marked dropped |
| ReadinessListAlone.PushCompletes | corcovado/src/poll.rs:2391-2435 | from any reachable state, whatever the thread saw before, five undisturbed accesses take it out of `enqueue_node`; the node is the last of the list, linked, and a producer right behind the sleep marker, and nobody else, has set the awakener; behind the closed marker nothing has changed |
| ReadinessListAlone.OperationEnds | corcovado/src/poll.rs:2285-2527 | every operation of the polling thread on the list, undisturbed, is over within nine accesses |
| ReadinessListAlone.DequeueCompletes | corcovado/src/poll.rs:2473-2527 | with no link owed, an undisturbed dequeue ends within nine accesses with the first data node and the others left, or with none if there is none or it is `until`; an empty list is then the end marker |
| ReadinessListAlone.SleepCompletes | corcovado/src/poll.rs:2285-2343 | undisturbed, poll may sleep if and only if no node is in the list, which then is the sleep marker, and is otherwise as it was |
| ReadinessListAlone.ClearCompletes | corcovado/src/poll.rs:2437-2470 | undisturbed, the sleep marker is replaced by the end marker exactly if it is the whole list |
| ReadinessAlone.SetReadinessCall | corcovado/src/poll.rs:1887-1925 | a call of `set_readiness`, undisturbed from any reachable state, makes a node that is not dropped say the readiness given and changes no other node; if there is something to report the node is in the list or somebody else is bringing it there |
| ReadinessAlone.SetCompletes | corcovado/src/poll.rs:1887-1925 | so does one already under way, whatever word it saw before, within eight steps |
| ReadinessAlone.UpdateCall | corcovado/src/poll.rs:1928-2097 | a call of `update`, undisturbed, binds the node and, unless another thread is inside `update` on it, makes it say the interest, options and token given and leaves the lock free; if there is something to report the node is in the list or somebody else is bringing it there |
| ReadinessAlone.UpdateCompletes | corcovado/src/poll.rs:1928-2097 | so does one already under way before its swap, within fifteen steps |
| ReadinessAlone.DropCall | corcovado/src/poll.rs:1736-1745 | giving a handle up, undisturbed, takes just this handle away; if it is the registration's the node is marked dropped, and while the queue keeps its handle the node is in the list or somebody else is bringing it there |
| ReadinessAlone.DropCompletes | corcovado/src/poll.rs:2140-2151 | so does one already under way, within eight steps, and nobody else's node or handle changes |
| ReadinessTurn.TurnCompletes | corcovado/src/poll.rs:2179-2280 | with no link owed, an undisturbed turn of the poll loop ends within seventeen steps: poll is over if the list is empty or starts with `until`, and nothing has changed; else the first node is visited: released if dropped, and else reported with what it has been told, if that is something, put back and marked queued exactly if level-triggered and reported, disarmed exactly if edge-triggered, oneshot and reported; the first node put back is where poll stops |
| ReadinessTurn.TurnEnds | corcovado/src/poll.rs:2192-2279 | from any reachable state in the middle of a turn, also one in which producers owe links, seventeen undisturbed steps end it |
| ReadinessDrain.DropCompletes | corcovado/src/poll.rs:2346-2373 | with no link owed, the undisturbed drop of the queue ends within 20 steps for each node and 20 more, with the list empty, each of its nodes released once and every other one as it was |
| ReadinessFacts.PoppedIsQueued | corcovado/src/poll.rs:2216-2218 | every node poll or the queue's drop has popped is still marked queued, as the code asserts |
| ReadinessFacts.OwnerNotDropped | corcovado/src/poll.rs:2013-2016 | `update` and the drop of a registration never meet a node already marked dropped |
| ReadinessPoll.ReadinessQueue.Poll | corcovado/src/poll.rs:2179-2280 | one call visits the longest prefix of the queued nodes that the room for events allows, reports exactly its live ready nodes in order with their published tokens, and leaves the unvisited nodes followed by those that stay queued; every node's new word, slots and count are as one visit makes them |
| ReadinessPoll.ReadinessQueue.Turn | corcovado/src/poll.rs:2192-2279 | one turn of the loop visits the next node not visited yet, and stops exactly when all have been, thanks to `until` |
| ReadinessPoll.ReadinessQueue.DequeueNode | corcovado/src/poll.rs:2473-2527 | returns the first data node and removes it, or nothing when there is none or it is `until`; markers never hide a node |
| ReadinessPoll.ReadinessQueue.EnqueueNode | corcovado/src/poll.rs:2391-2435 | the node becomes the last of the list; the answer is whether the sleep marker was the last |
| ReadinessPoll.ReadinessQueue.PrepareForSleep | corcovado/src/poll.rs:2285-2343 | answers true exactly when no node is queued, and then the list is just the sleep marker |
| ReadinessPoll.ReadinessQueue.ClearSleepMarker | corcovado/src/poll.rs:2437-2470 | replaces the sleep marker exactly when it is the whole list, and never touches a queued node |
| ReadinessPoll.VisitedMeaning | corcovado/src/poll.rs:2192-2193 | the visited prefix reports no more than there is room for, fills the room if it is not the whole queue, and no shorter prefix does |
| ReadinessPoll.OneshotSilences | corcovado/src/poll.rs:2228-2246 | once a oneshot node was reported, no sequence of `set_readiness` gives it anything to report or queues it, if and only if it is edge-triggered too |
| ReadinessPoll.LevelOneshotTwice | corcovado/src/poll.rs:2228-2246 | an input: a oneshot node without edge is reported by two calls of poll in a row |
| TimingWheel.Timer.PollTo | corcovado/src/timer.rs:282-348 | from any wheel, with a cursor anywhere and any collisions, returns None exactly if nothing is due at max(target, tick) and else takes out the newest of the earliest timeouts; after None every slot bounds its deadlines and the wakeup is scheduled no later than any of them |
| TimingWheel.Timer.SetTimeoutAt | corcovado/src/timer.rs:208-223 | adds one timeout, at least one tick ahead, and schedules its wakeup; bounds that held still hold |
| TimingWheel.Timer.Insert | corcovado/src/timer.rs:225-252 | the new entry heads its slot's doubly linked list; the lists hold exactly the live timeouts |
| TimingWheel.Timer.CancelTimeout | corcovado/src/timer.rs:258-271 | removes and returns exactly the live timeout with this token and tick, and nothing else, also while the cursor stands on it |
| TimingWheel.Timer.Unlink | corcovado/src/timer.rs:350-373 | without the entry, the lists hold exactly the other timeouts, and a cursor on it has moved to the next one of the slot |
| TimingWheel.Timer.NextTick | corcovado/src/timer.rs:407-418 | the answer of `TimerWalk.NextTick`: the current tick if something may be due at the cursor, else the least of what the bounds cover; never 0, and no later than any live deadline when all slots bound theirs |
| TimerWalk.RunsKeepWalkOk | corcovado/src/timer.rs:208-373 | in every state of every run of sets, cancels and polls each bound covers the live timeouts of its slot the cursor has passed, and some that are gone, and the missed slots are those with a bound in the past |
| TimerWalk.NextTickIsPast | corcovado/src/timer.rs:407-418 | `next_tick` lies before the current tick if and only if a slot was missed and nothing may be due at the cursor |
| TimerWalk.PollMisses | corcovado/src/timer.rs:293-335 | after any poll the missed slots are those missed before that it did not clear, and the slot it left with the cursor displaced from the head |
| TimerWalk.RestIsPast | corcovado/src/timer.rs:293-345 | from the state before a poll that finds nothing: exactly when the tick it schedules lies in the past |
| TimerWalk.InsertDisplaces | corcovado/src/timer.rs:225-252 | an insertion displaces the cursor exactly if it puts a new head before a cursor on the old one |
| TimerWalk.RemoveDisplaces | corcovado/src/timer.rs:350-373 | a cancel displaces the cursor exactly if it leaves no timeout at or behind a cursor on the head |
| TimerWalk.NextTickIsEarliest | corcovado/src/timer.rs:407-418 | when all live timeouts are covered, `next_tick` is the earliest deadline if and only if no bound covers an earlier one that is gone; with something that may be due at the cursor, if and only if it is due |
| TimerWalk.AfterRest | corcovado/src/timer.rs:282-348 | both, in every run after every poll that finds nothing |
| TimerWalk.InsertedBefore | corcovado/src/timer.rs:313-317 | an input without a cancel: the timer is at tick 2 with one timeout for 3, and `next_tick` is 1 |
| TimerWalk.CancelledAtCursor | corcovado/src/timer.rs:298-311 | an input with a cancel: the timer is at tick 2 with nothing live, and `next_tick` is 1 |
| TimerWalk.RegisterIsLate | corcovado/src/timer.rs:456-464 | in every run, the tick `register` schedules comes after a live deadline if and only if a poll that returned a timeout has opened the slot at the cursor, none since came back empty, the earliest timeout is in that slot at the cursor or behind it, and no bound covers one that is gone and was due by then; if so, the last poll has returned a timeout |
| TimerWalk.NextTickIsLate | corcovado/src/timer.rs:407-418 | `next_tick` comes after a live deadline if and only if nothing may be due at the cursor, the bound of its slot does not cover the earliest one, and no bound covers an earlier one that is gone |
| TimerWalk.FiringUncovers | corcovado/src/timer.rs:293-333 | from the state before a poll that returns a timeout, with all covered: exactly when the earliest deadline left is uncovered |
| TimerWalk.RunsKeepCoverOk | corcovado/src/timer.rs:208-373 | in every state of every run all timeouts are covered, or the slot at the cursor was opened and its bound covers only what lies before the cursor or is gone |
| TimerWalk.BetweenTwoPolls | corcovado/src/timer.rs:456-464 | an input: a timeout for tick 3 is live and `next_tick`, which a `register` now would schedule, is the maximum |
| TimingWheel.Timer.Register | corcovado/src/timer.rs:432-467 | succeeds once; the first wakeup is no later than any deadline when all slots bound theirs |
| TimingWheel.Timer.Look | corcovado/src/timer.rs:313-319 | clearing a slot's bound at its first entry keeps the wheel in order |
| TimingWheel.Timer.WalkOn | corcovado/src/timer.rs:329-333 | an entry that is not due is taken into its slot's bound, and the cursor moves on, so the loop ends |
| TimingWheel.Timer.Trigger | corcovado/src/timer.rs:321-328 | an entry due at the cursor is the first timeout of all |
| TimingWheel.Timer.EnterNextSlot | corcovado/src/timer.rs:298-311 | entering the next slot leaves every deadline bounded and nothing due behind the cursor |
| TimingWheel.InsertKeeps | corcovado/src/timer.rs:225-252 | a new entry keeps all slot lists, the cursor and the bounds in order |
| TimingWheel.RemoveKeeps | corcovado/src/timer.rs:350-373 | so does the removal of any entry, at the cursor or not |
| TimingWheel.TickKeeps | corcovado/src/timer.rs:298-311 | so does the step to the next tick |
| TimerModel.PollMeaning | corcovado/src/timer.rs:282-348 | None exactly if every deadline is after max(target, tick); else the taken timeout is the earliest, the newest of its tick, and the tick becomes its deadline |
| TimerModel.TargetIsExceeded | corcovado/src/timer.rs:289-291 | a poll fires something due after the caller's target if and only if the timer is already past the target and a timeout is due at its tick |
| TimerModel.SecondPollExceedsTarget | corcovado/src/timer.rs:289-299 | an input: the second of two polls to tick 5 fires a timeout of tick 6 |
| TimerModel.DrainSorts | corcovado/src/timer.rs:273-348 | polling with one target until None brings all that is due, sorted by deadline and newest first within a tick |
| TimerModel.SortedIsOrdered | corcovado/src/timer.rs:273-348 | that order is ascending and loses or doubles nothing |
| TimerModel.SortedIsStable | corcovado/src/timer.rs:273-348 | within one tick it is the collection's own order |
| TimerModel.Conservation | corcovado/src/timer.rs:208-348 | over any run of sets, cancels and polls, every timeout ever set is live, fired or cancelled, exactly one of these and once |
| TimerModel.FiresInOrder | corcovado/src/timer.rs:273-348 | over any run timeouts fire in order of deadline, and no live one is due before one that has fired |
| TimerModel.CancelUndoesSet | corcovado/src/timer.rs:208-271 | cancelling a timeout just set gives its state back and undoes the set exactly if the tick is the one it was set for, and else does nothing |
| TimerWakeup.RunsKeepInvariant | corcovado/src/timer.rs:375-567 | the protocol's invariant holds in every interleaving of owner and wakeup thread, with spurious failures of the weak compare-and-swap |
| TimerWakeup.NeverLate | corcovado/src/timer.rs:510-567 | between two operations of the owner every live deadline has its wakeup scheduled no later, or the timer is readable or about to be made so; and else the thread is not asleep past it |
| TimerWakeup.Delivered | corcovado/src/timer.rs:530-567 | from any state of any run with the owner between two operations and a live deadline, six steps of the wakeup thread in a row, none spurious, with the clock at the deadline or later, lead through one in which the timer is readable |
| TimerWakeup.NotEarly | corcovado/src/timer.rs:530-567 | in every run, when the thread is about to make the timer readable it has taken out a tick that the owner was asked to schedule, and had seen the clock at that tick or later |
| TimerWakeup.ReadableMeaning | corcovado/src/timer.rs:336-345 | in every run the timer is readable if and only if the thread has made it so since a poll last cleared it |
| TimerWakeup.OwnerEnds | corcovado/src/timer.rs:375-404 | an operation of the owner, undisturbed, ends within four steps with its tick, or an earlier one, scheduled, and the readiness cleared exactly if a poll found nothing; the drop leaves the terminate value |
| TimerWakeup.DropEndsThread | corcovado/src/timer.rs:94-101 | once the drop is over, five steps of the thread in a row end it |
| TimerWakeup.TerminatedByDrop | corcovado/src/timer.rs:94-101 | the terminate value is written, and the thread ends, only after the drop has begun |
| TimerSystem.NextTickIsLower | corcovado/src/timer.rs:456-464 | the answer of `next_tick` is one the wakeup protocol can start from if and only if it is not after a live deadline |
| TimerSystem.ApplyKeeps | corcovado/src/timer.rs:208-404 | every set, cancel and poll of the timer is a possible step of the wakeup protocol, leads to where the owner makes just the calls the class logs, and keeps the protocol's deadlines those of the live timeouts |
| TimerSystem.TimeoutNeverLate | corcovado/src/timer.rs:208-567 | in every run of a timer, registered when its next tick is not late, with its wakeup thread, between two operations every live timeout has its wakeup scheduled no later, or the timer is readable or about to be |
| TimerSystem.TimeoutDelivered | corcovado/src/timer.rs:208-567 | in every run of a timer with its wakeup thread, from any state between two operations, six steps of the thread in a row with the clock at the deadline of any live timeout or later lead through one in which the timer is readable |
| TimerSystem.TimerNotEarly | corcovado/src/timer.rs:208-567 | in every run, a tick at which the thread makes the timer readable was the deadline of a timeout being set, or an answer of `next_tick` to `register` or to a poll that found nothing, and the clock had reached it |
| TimerSystem.WakesRun | corcovado/src/timer.rs:375-404 | what a run of the timer is to the wakeup protocol is a run of that protocol |
| Utf8.DecodeEncoded | copa/src/lib.rs:725-788 | the first character of an encoded scalar value and anything after it is that value, with its length |
| Utf8.EncodeDecoded | copa/src/lib.rs:725-788 | a decoded character is a scalar value and its encoding is what was read |
| Utf8.IncompleteMeaning | copa/src/lib.rs:766-783 | a string is reported as cut short if and only if it is a proper prefix of an encoded scalar value, of at most three bytes |
| Utf8.BadMeaning | copa/src/lib.rs:751-765 | an error length is that of a maximal subpart: it begins a character, or is one byte that begins none, and one byte more is too much |
| Utf8.CheckedIsEncoded | copa/src/lib.rs:745-748 | the valid beginning is the encoding of the characters handed out |
| Utf8.CheckEncoded | copa/src/lib.rs:725-738 | every encoded text is accepted whole, with its own characters |
| VtGround.GroundAgrees | copa/src/lib.rs:713-788 | on any bytes, the bulk path reads at least one byte, never overruns, and makes the calls the byte-at-a-time machine makes, as far as the rest of the input can tell |
| VtAdvance.PartialMeaning | copa/src/lib.rs:792-852 | what becomes of carried bytes, from the first character of them and all that follows: four bytes are enough to tell, and exactly when one byte too many is skipped |
| VtAdvance.PartialReads | copa/src/lib.rs:792-852 | the carry path never reads past the input, and reads all of it if it still carries |
| VtChunks.AdvanceIsFold | copa/src/lib.rs:111-130 | one call, from any reachable state, makes the calls and ends in the state of the byte-at-a-time machine if and only if it is not one of the two kinds that go wrong |
| VtChunks.GlitchDiffers | copa/src/lib.rs:807-836 | a call that goes wrong is told apart by its calls or its final state, whatever follows in it |
| VtChunks.ControlPrinted | copa/src/lib.rs:808-809 | an input: a carried C2 and then 80 prints U+0080, which one call executes |
| VtChunks.LetterLost | copa/src/lib.rs:825-836 | an input: the letter between a carried character and a byte above ASCII is lost |
| VtChunks.ChunksAreFold | copa/src/lib.rs:111-130 | any number of calls of which none goes wrong amount to one run of the machine on the concatenation |
| VtChunks.ChunkIndependence | copa/src/lib.rs:111-130 | two ways to cut up one input make the same calls and end in the same state when no call starts with a carried two-byte lead |
| VtChunks.CutOnce | copa/src/lib.rs:111-130 | cutting one call in two is harmless if and only if the second is not one that goes wrong |
| VtChunks.FoldWellFormed | copa/src/lib.rs:766-783 | reachable machines carry one to three bytes of an extendable prefix, and only in the ground state; their collected data stays within 2 intermediates, 32 values of at most 65535 and 16 pieces |
| VtUntil.UntilReadsLeast | copa/src/lib.rs:142-167 | early termination reads up to the first end of a turn, stated in bytes, after which the byte-at-a-time calls satisfy the performer, or all of the input |
| VtUntil.StopsOnTime | copa/src/lib.rs:132-167 | with m the least number of bytes after whose calls the performer has had enough, exactly m bytes are read if and only if a turn ends there; else at least up to the end of that turn, and just that if it still has had enough |
| VtUntil.LettersTogether | copa/src/lib.rs:132-167 | an input: two letters are read although the first is enough |
| VtUntil.GroundIsTurn | copa/src/lib.rs:713-788 | one bulk step goes up to the first end of a turn and makes the calls of the bytes it reads |
| VtUntil.UntilThenAdvance | copa/src/lib.rs:142-167 | stopping and giving the rest to `advance` is one `advance`, also with carried bytes that go wrong |
| VtTrace.FeedTracks | copa/src/lib.rs:320-341 | over any calls on any input, the string the performer has open is the one the state says |
| VtTrace.Bracketed | copa/src/lib.rs:452-540 | every byte and every end of a DCS, SOS, PM or APC string comes after its start with nothing but its bytes in between |
| VtTrace.EndsNext | copa/src/lib.rs:452-540 | after a start, the first call that is not a byte of the string is its end |
| VtTrace.FeedOk | copa/src/lib.rs:557-632 | over any calls on any input, everything dispatched is in range: non-empty groups, at most 32 values of at most 65535, at most 2 intermediates, 1 to 16 OSC pieces, scalar values printed, only C0 and C1 executed |
| VtOsc.OscDispatches | copa/src/lib.rs:421-449 | any OSC payload is dispatched once, as the first 16 of its pieces between semicolons without its ignored bytes, with the way it ended |
| VtOsc.SplitMeaning | copa/src/lib.rs:634-656 | the pieces hold no semicolon, and joined by semicolons they are the payload |
| VtCsi.CsiDispatches | copa/src/lib.rs:557-632 | any list of groups of digit strings is dispatched with the same grouping, cut to the first 32 values, each min(65535, its decimal value), and `ignore` is set if and only if there were more |
| VtCsi.PrintedIsRead | copa/src/params.rs:126-146 | the printed form of any parameters, as the body of a CSI sequence, is dispatched as these parameters |
| VtCsi.DigitsRead | copa/src/lib.rs:622-632 | saturating after every digit comes to saturating the decimal value once |
| VtCsi.DecimalOfDigits | copa/src/params.rs:140-140 | a printed number denotes that number |
| VtText.TextIsShown | copa/src/lib.rs:713-863 | well-formed text without ESC leads to one call a character, in order: execute for C0 and C1 controls, print for all else |
| VtText.LoneIsShown | copa/src/lib.rs:751-765 | a byte that begins no character is executed as a C1 control or replaced by U+FFFD, and the text goes on behind it |
| VtText.BrokenIsShown | copa/src/lib.rs:751-765 | the beginning of a character that breaks off is replaced once, and the byte that breaks it starts afresh |
| VtText.EscIsShown | copa/src/lib.rs:713-722 | so is one that ESC breaks off; ESC itself makes no call |
| VtSequences.CsiDispatched | copa/src/lib.rs:192-258 | ESC [, an optional marker 3C to 3F, any parameter text, any intermediates and a final byte: one dispatch of the groups of the text, cut to 32 values of at most 65535, with the first two of marker and intermediates, `ignore` set if and only if there were more than two of these or more than 32 values; C0 controls in between are executed and change nothing else |
| VtSequences.CsiIgnored | copa/src/lib.rs:221-240 | a CSI sequence with a parameter byte or marker out of place is not dispatched; only its C0 controls are executed |
| VtSequences.CsiAborted | copa/src/lib.rs:543-555 | nor is one that CAN, SUB or ESC ends |
| VtSequences.DcsHooked | copa/src/lib.rs:261-341 | ESC P with a header of the same form, a payload and its end: one hook with what a CSI sequence would dispatch, one put for each byte of the payload that is not ignored, one unhook; C0 controls of the header are dropped |
| VtSequences.DcsIgnored | copa/src/lib.rs:261-319 | with a header of any other form nothing is called until CAN, SUB or ESC |
| VtSequences.DcsAborted | copa/src/lib.rs:543-555 | nor with one that CAN, SUB or ESC cuts off |
| VtSequences.EscDispatched | copa/src/lib.rs:344-418 | ESC, any intermediates and a final byte that is no introducer: one dispatch with the first two intermediates, `ignore` set if and only if there were more |
| VtSequences.EscIntroduces | copa/src/lib.rs:344-404 | without intermediates P, X, [, ], ^ and _ begin a DCS, SOS, CSI, OSC, PM and APC sequence |
| VtSequences.EscAborted | copa/src/lib.rs:543-555 | CAN and SUB end an escape sequence and are executed, ESC begins another one |
| VtSequences.StringTold | copa/src/lib.rs:452-540 | an SOS, PM or APC string up to BEL, CAN, SUB or ESC: its start, one put for each byte that is no C0 control, its end |
| VtSequences.SomeGroups | copa/src/lib.rs:592-632 | every text of digits, colons and semicolons is the text of some groups, so the above leaves no parameter text out |
| VtParams.Params.Push | copa/src/params.rs:62-68 | the item closes the open group; the two arrays hold the same groups and one more |
| VtParams.Params.Extend | copa/src/params.rs:72-78 | the item joins the open group; the two arrays hold it as the last |
| VtParams.Params.Clear | copa/src/params.rs:55-58 | nothing is left, although no array is touched |
| VtParams.Params.Fmt | copa/src/params.rs:126-146 | the debug text is the groups in brackets, in the form that CSI sequences are read in |
| VtParams.ParamsIter.Next | copa/src/params.rs:105-118 | hands out the groups one after the other, the open one last, and then nothing |
| VtParams.ParamsIter.SizeHint | copa/src/params.rs:120-123 | after any number of groups were handed out, the hint is the number of values left; it is the number of groups left if and only if each is a single value, and else greater |
| VtParams.HintTooLarge | copa/src/params.rs:120-123 | an input: one group of two values is left, and the hint is 2 |
| VtParser.Parser.Advance | copa/src/lib.rs:111-130 | from any reachable parser and for any bytes, the calls and the final state are those of one call, carried bytes included; the loop ends and no buffer overruns |
| VtParser.Parser.AdvanceUntilTerminated | copa/src/lib.rs:142-167 | the calls, the final state and the answer are those of a loop that looks at the performer between turns |
| VtParser.Parser.AdvanceGround | copa/src/lib.rs:713-788 | one bulk step, entered with nothing carried |
| VtParser.Parser.AdvancePartialUtf8 | copa/src/lib.rs:792-852 | one step on carried bytes within the four-byte buffer |
| VtParser.Parser.GroundDispatch | copa/src/lib.rs:855-863 | every character is printed or, as C0 or C1, executed, in order |
| VtParser.Parser.ChangeState | copa/src/lib.rs:170-189 | one byte outside the ground state does what the machine does, and keeps the parser consistent although three exits to Escape skip the reset and APC shares the OSC buffer |
| VtParser.Parser.AdvanceCsiParam | copa/src/lib.rs:243-258 | one byte of CSI parameters does what the machine does |
| VtParser.Parser.AdvanceEsc | copa/src/lib.rs:344-404 | one byte after ESC does what the machine does with nothing collected, which holds without a reset |
| VtParser.Parser.AdvanceOscString | copa/src/lib.rs:421-449 | one byte of an OSC string does what the machine does, and an ended string leaves the buffer empty |
| VtParser.Parser.AdvanceApcString | copa/src/lib.rs:452-499 | one byte of an APC string does what the machine does, and an ended string leaves the shared buffer empty |
| VtParser.Parser.AdvanceDcsPassthrough | copa/src/lib.rs:321-341 | one byte of a DCS string does what the machine does |
| VtParser.Parser.AdvanceOpaqueString | copa/src/lib.rs:521-540 | one byte of an SOS or PM string does what the machine does |
| VtParser.Parser.ActionOscPutParam | copa/src/lib.rs:636-656 | the ranges of the pieces stay consecutive and inside the buffer, and stand for the pieces between separators, 16 at most |
| VtParser.Parser.OscSlices | copa/src/lib.rs:690-705 | the slices handed over are exactly the closed pieces |
| VtParser.Parser.ViewWellFormed | copa/src/lib.rs:678-684 | every parser that can be reached stands for a machine in order |
| VtBatched.BatchedParser.Advance | rio-backend/src/batched_parser.rs:40-70 | one call makes the calls one call on the bare parser makes, and leaves nothing in the buffer |
| VtBatched.BatchedParser.AdvanceAll | rio-backend/src/batched_parser.rs:40-70 | any sequence of calls makes the calls of `Feed` |
| VtBatched.BareAdvanceAll | copa/src/lib.rs:111-130 | so does the same sequence on the bare parser |
| VtBatched.BatchedParser.Flush | rio-backend/src/batched_parser.rs:73-77 | a flush passes on what is in the buffer, and nothing if that is empty |
| VtBatched.AdvanceInTwo | copa/src/lib.rs:142-167 | the two methods in a row, on the parser itself, are one `advance` |
| Channel.RunsKeepInvariant | corcovado/src/channel.rs:120-270 | in every interleaving of any number of senders with the receiver, the wrapped counter is accounted for message by message, and something pending means readable or somebody about to make it so |
| Channel.Quiescent | corcovado/src/channel.rs:172-270 | with no operation in progress the counter is the number of undelivered messages, plus one once the last sender is gone, and while it is not 0 the channel is readable |
| Channel.DrainedReadable | corcovado/src/channel.rs:213-270 | in every run, with no operation in progress and nothing pending: readable if and only if the last write of the readiness is the announcement of a send that had found the counter at 0 |
| Channel.SequentialReadable | corcovado/src/channel.rs:213-270 | in every run in which each operation ends before the next begins, with none in progress: readable if and only if something is pending |
| Channel.RaceLeavesReadable | corcovado/src/channel.rs:213-270 | a run that ends at rest, drained and readable: a send announces after the receiver has taken its message and cleared the readiness |
| Channel.OperationsEnd | corcovado/src/channel.rs:213-270 | undisturbed, a send is done within two accesses with one more counted and the channel readable if the counter was 0, and the receiver within four with one less, readable exactly if it was and a message is left |
| Channel.WrapIsTransient | corcovado/src/channel.rs:214-270 | the counter is below 0 if and only if more sends are still to be counted than there are undelivered messages, discounts in progress and a last drop |
| Channel.WrapHappens | corcovado/src/channel.rs:214-270 | a run that wraps: a message is popped and discounted before its send is counted |
| PollLock.RunsKeepInvariant | corcovado/src/poll.rs:1085-1181 | the lock's invariant holds for any number of threads, with or without timeouts, with wakeups for no reason, and with timeouts that are used up by the time a waiter is notified |
| PollLock.LockMeaning | corcovado/src/poll.rs:1085-1181 | the word is twice the outstanding waiter increments plus one while a thread runs `poll2`, of which there is never a second; no subtraction takes what is not there |
| PollLock.NoLostNotification | corcovado/src/poll.rs:1126-1181 | nobody sleeps beside a free lock unless another thread is on the way to wake a sleeper or to look at the lock |
| PollLock.NobodyWaitsInVain | corcovado/src/poll.rs:1115-1133 | in every state of every run nobody waits whose timeout is used up |
| PollLock.LoopEnds | corcovado/src/poll.rs:1110-1169 | a thread in the loop, while nobody else moves, is through within two accesses, whatever it saw before: with its timeout used up it is out, its increment given back, exactly if the lock was taken, and else inside; with time left it waits with one increment counted, or is inside |
| PollLock.CallEnds | corcovado/src/poll.rs:1085-1121 | a call, undisturbed, is within four accesses inside if the lock is free, else out if its timeout is zero, else waiting |
| PollLock.WaitEnds | corcovado/src/poll.rs:1123-1169 | a waiter woken with its timeout used up is out within four accesses, its increment given back, if the lock is taken; with time left it waits again; and it is inside if the lock is free |
| PollLock.UnlockEnds | corcovado/src/poll.rs:1171-1181 | a thread through with `poll2` frees the lock with one access and is out, or next wakes one waiter if there is one |

## Left out

- System selector, awakener internals, sockets, real clocks and thread parking: operating-system calls.
- Weak memory orderings, and the strong count on `ReadinessQueueInner`: every step is sequentially consistent, and only the node's own count is modelled.
- Packing of the state word into bits: the word is a record, and a compare-and-swap compares all of it.
- ReadinessPoll.ReadinessQueue.Poll: has no concurrent producers, because interleavings are the subject of ReadinessNodes.
- ReadinessNodes.CloseDequeueKeeps: does not say that the queue's drop empties the list, which the code does not always do; ReadinessGone.GoneMeans says exactly when.
- The error of `update` for a registration that is bound to another `Poll` instance: there is one queue, and every registration is bound to it or to none.
- Conversion of durations to ticks, and the mask that stands for the remainder of a power of two.
- TimingWheel.Timer.CancelTimeout: a stale handle whose slab key was reused for the same tick cancels the new timeout, as in the code, whose only guard is the tick.
- TimingWheel.Timer.NextTick: does not say that the answer is the earliest deadline, which it is not always; TimerWalk.NextTickIsEarliest and TimerWalk.NextTickIsPast say exactly when.
- TimingWheel.Timer.Register: does not say that the first wakeup is early enough when the last poll returned a timeout, which it is not always; TimerWalk.RegisterIsLate says exactly when.
- Keys of the slab, and the calls behind `inner`: the caller supplies fresh keys, and the calls are logged.
- Registration of a channel's receiver in a race with sends: the channel starts registered.
- Channel.Quiescent: assumes fewer than a quarter of 2^64 messages at a time, because the counter wraps there.
- Errors of `set_readiness` inside the channel and the timer, the bound of the synchronous channel, and the receiver's drop.
- `BatchedParser::advance_until_terminated` on large inputs, which ignores termination by design, and the batch statistics.
- The bounded OSC buffer without the `std` feature: a variant of the same code.
- `copa/src/table.rs` and `copa/src/definitions.rs`: not compiled into the crate.
- `Ready` and `PollOpt` operations, lazy cells and the crates for slab, search, validation and queues, of which the contracts are used.
