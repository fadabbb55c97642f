# A verified model of the deterministic runner

The program runs other programs deterministically: it rewrites their arm64 text so that
every backward branch and call counts down a quantum, serialises all their threads on one
baton in virtual time, and gives them a simulated network and a heap laid out by the run's
seed. This project models the parts of it that are state machines or transformations, in
Dafny 4.11, and proves what their authors rely on. `dafny verify dfyconfig.toml` checks it.

| part | files | main results |
|---|---|---|
| virtual network | `Net*.dfy`, `Wire.dfy`, `Rings.dfy`, `Kq*.dfy` | every operation keeps the table's invariant, conserves every byte and counts every edge, over all runs, and nothing crosses between hosts before the latency has passed; the table of ring buffers refines it method by method |
| baton scheduler | `Sched*.dfy`, `CondVars.dfy` | one baton, the ledger of lives and PCT's bound on starvation over every run of acts; the idle loop ends from exactly the states that are not doomed |
| seeded heap | `Heap*.dfy`, `Rng.dfy` | live blocks never overlap, no block is lost or handed out twice, and a request fails only for want of room |
| rewriter | `Arm*.dfy`, `Trampoline.dfy`, `Sites.dfy`, `CounterReads.dfy`, `Simulation.dfy`, `Rewriter.dfy`, `Selection.dfy`, `RewrittenText.dfy`, `Forms.dfy`, `Loops.dfy` | the rewritten text simulates the original, from one trampoline to the whole program, and no loop of it escapes the hooks |
| image writer | `MachO.dfy`, `Image*.dfy` | the rewritten file reads back as it should, and every offset into `__LINKEDIT` finds its bytes |
| delta debugging | `Ddmin.dfy` | 1-minimal results for tests that need not be monotone |

The network is two layers: `NetSpec` says on values what each operation does, and the laws
are proved of it; `NetTable.Table` does it step by step, with rings of bytes inside the
records of an array, and each of its methods is proved to come to the value `NetSpec` gives.
The scheduler is one class, `Sched.State`, whose methods update it as the program's do;
`Snap` is what a lemma can say of it. In both, what a lemma is about is always the whole
state before and after. `NetRules`, `NetDgrams`, `KqRules`, `SchedRules`, `HeapRules`,
`ImageRules` and `Forms` say case by case, in fields, numbers and encodings, what the
functions come to that those laws and methods are stated with.

## Findings

Where the code does less than it says, with the exact condition:

- The idle loop of `pick` (supervisor/src/shared.rs:1282-1309) does not always end. An
  interval timer goes on ringing after its process was killed, until the launcher has seen
  it die (the timer loops ask for P_EXITED only, 1211-1241), and a thread that nothing can
  wake keeps the loop from giving up. `SchedHang.CrashHangs` is a run from its start that
  hangs, whatever the seed and the settings without a stop time: a process with a repeating
  timer is to be crashed while it and another wait for each other. The predicate
  `SchedEnds.Doomed` says it of a state's tables alone, whatever the draws, and is exact:
  every turn keeps it both ways (`Sched.State.JumpOn`), a doomed run goes on for ever
  (`SchedEnds.DoomedGoesOn`), and from every other state the loop ends (`Sched.State.Pick`).
- `emit` checks that the code signature lies inside `__LINKEDIT` and calls it an error if it
  is not at the end (src/macho.rs:496-509), but does not ask that nothing lies behind it, and
  drops all of that too. `ImageExample.EarlySignatureTakesTheRest` reads and writes such a
  file; `ImageReads.SignatureAlone` is the condition.
- `ddmin` may cut into fewer parts than it asks for (src/suspects.rs:116-118): asked for `n`,
  exactly if `n - 1` parts of the rounded-up size are enough for all the elements
  (`Ddmin.FewerPartsThanAsked`), as for four elements in three parts (`Ddmin.FourInThree`).
  The result is 1-minimal all the same (`Ddmin.Ddmin`).

- The decoder says that it takes the loads and stores of SIMD structures, bits 29 to 24 being
  00110x (src/decode.rs:176-179), but tests for 001100: those of single structures are left
  alone, and cannot be hooked. `Forms.StructuresTaken` is the condition, bit 24;
  `Forms.SingleStructureIsLeft` is one, `ld1r {v0.8b}, [x0]`.

## Model

| member | source | states |
|---|---|---|
| NetRun.StepOk | supervisor/src/netstate.rs:268-1052 | Every operation a caller can make keeps the invariant of the whole table, loses no byte of an open connection, and raises the event counter of every socket but the one being shut down that becomes readable or writable. |
| NetRun.ZeroedOk | supervisor/src/netstate.rs:238-249 | The network a run starts with satisfies the invariant. |
| NetRun.EveryState | supervisor/src/netstate.rs:398-746 | In every state a run reaches, what has landed and what is in flight fit their rings, a connection's far end is live and points back, descriptors are counted right, and the bound on the next arrival is no later than any arrival. |
| NetRun.StreamFifo | supervisor/src/netstate.rs:540-793 | Over any run, what was pending for a reader and what its far end's sends were told was taken is what the reader was given, then what its ring holds, then what is in flight, in order. |
| NetRun.ConnectionFifo | supervisor/src/netstate.rs:398-458 | From the connect on, each end reads exactly the bytes the other end's sends were told were taken, in order. |
| NetRun.EofAfterTheLastByte | supervisor/src/netstate.rs:773-793 | A reader that asks for bytes and is told end of stream, and never shut its side, has been given every byte its far end was told was taken since the connect. |
| NetRun.FinMeansDone | supervisor/src/netstate.rs:555-581 | Once the FIN has landed nothing is in flight behind it, and the far end cannot send any more. |
| NetRun.NoLostEdge | supervisor/src/netstate.rs:475-492 | Over any run a socket that was not readable, or not writable, and is at the end has had its counter raised; counters never go back. |
| NetSteps.WritableIsSendable | supervisor/src/netstate.rs:485-492 | A socket is writable exactly when a non-empty send does not answer WouldBlock. |
| NetSteps.SendOk | supervisor/src/netstate.rs:750-770 | A send appends to what the far end has pending exactly the bytes it says were taken, changes no other connection's, and keeps the invariant. |
| NetSteps.RecvOk | supervisor/src/netstate.rs:773-793 | A receive returns the front of what is pending and removes it unless it peeks; it returns nothing for a non-zero wish only after the FIN; the far end learns of the room. |
| NetTime.AdvanceOk | supervisor/src/netstate.rs:696-746 | Advancing the clock lands exactly the records that are due, per socket and in order: bytes and whole datagrams are appended to the receive ring, a FIN is noted, every landing counts as an event, and the datagrams there is no room for are counted as lost. No head is due afterwards, and the bound on the next arrival is restored. |
| NetTime.StreamsLand | supervisor/src/netstate.rs:696-746 | On a stream nothing that lands is lost: the receive ring grows by exactly the bytes in flight. |
| NetTime.AdvanceBrings | supervisor/src/netstate.rs:696-746 | The count of bytes delivered grows by the payloads that land, and the network says that it looked exactly if the bound on the next arrival was reached. |
| NetOpen.ConnectOk | supervisor/src/netstate.rs:398-458 | A connect that succeeds couples the socket with a fresh one queued at the listener, each the other's far end with nothing pending; one that fails keeps the invariant. |
| NetClose.ShutdownOk | supervisor/src/netstate.rs:932-951 | A shutdown keeps the invariant, by which there is always room for the one FIN of a direction, loses no byte that was sent, and raises the counter of every socket but its own that turns readable or writable. |
| NetRefs.ReleaseOk | supervisor/src/netstate.rs:954-994 | Releasing a socket, or a listener with all that is queued at it, keeps the invariant, so that no far end ever names a free or reused slot; only the sockets concerned are settled, and the socket ends up free, or closed until its far end is too. |
| NetProcs.SetRefsOk | supervisor/src/netstate.rs:1032-1047 | After set_refs a process holds each socket exactly as often as the list says; nobody else's references change, and a socket that stays held is not released in between. |
| NetProcs.ProcessDiedOk | supervisor/src/netstate.rs:1050-1052 | A dead process holds nothing, and the invariant is kept. |
| NetLater.StepOnTime | supervisor/src/netstate.rs:614-658 | No operation but advancing moves the clock, and none launches a record for a time that is not later than now. |
| NetLatency.NothingEarly | supervisor/src/netstate.rs:540-552 | Over any run in which the clock moves by less than the latency, the reader of a connection to another host is given, and has in its ring, nothing but what was pending at the start: all its far end has sent since is still in flight. |
| NetRules.SendRule | supervisor/src/netstate.rs:540-581 | Within a host, with nothing under way, the bytes taken are there at once for the far end to read and its event counted; otherwise it is one record behind what is under way, due now within the host and after the latency to another. How much is taken is what the ring and the flight ring leave room for; where that is none the sender would block, and a shut or closed direction is EPIPE. |
| NetRules.ShutdownRule | supervisor/src/netstate.rs:932-951 | Shutting the read side drops what is there and tells the sender; shutting the write side stops sends and sends one FIN, which travels as bytes do: at once within a host, after the latency to another. Without a connection it is ENOTCONN. |
| NetRules.RecvRule | supervisor/src/netstate.rs:773-793 | A receive from a ring that is not empty gives min(want, what is there) bytes from its front, and unless it peeks takes them and tells the sender; from an empty one it is end of stream after a FIN, or would block. |
| NetRules.ReadableIsReceivable | supervisor/src/netstate.rs:475-483 | A socket is readable exactly when receiving, or accepting, would not block. |
| NetRules.NewSocketRule | supervisor/src/netstate.rs:268-304 | A new socket is in the first free slot, keeps nothing of the slot's earlier life, and what was in flight to that is no longer counted; without a free slot it is ENFILE. |
| NetRules.PortRule | supervisor/src/netstate.rs:331-345 | A port nobody asked for is the first from the host's next one on, round 49152 to 65535, that no socket of the kind on that host has; EADDRINUSE if all tried are taken. |
| NetRules.BindRule | supervisor/src/netstate.rs:347-374 | Only a new socket can be bound, to an address of its own host, of its family, that no socket of the kind there has; which error it is otherwise; and nothing but its name and state changes. |
| NetRules.BindAnyRule | supervisor/src/netstate.rs:347-374 | A bind to port 0 is one to a port of the host's choice. |
| NetRules.ListenRule | supervisor/src/netstate.rs:376-396 | Only a stream socket listens; an inet one is given a port if it has none; its queue is as long as asked, from 1 to 32. |
| NetRules.ConnectRefused | supervisor/src/netstate.rs:398-415 | A connect is refused exactly where no socket on that host listens for its kind, family, name and address, or the first that does has a full queue; EISCONN and EINVAL for sockets that cannot connect. |
| NetRules.ConnectRule | supervisor/src/netstate.rs:398-458 | Otherwise the two ends name each other by the addresses each would reply to, the far one is last in the queue of the first such listener, and nothing else changes; without a slot for it, ENFILE. |
| NetRules.ReleaseRule | supervisor/src/netstate.rs:954-994 | Closing a connection sends the FIN unless a shutdown has, and tells the other end; both slots are free once both ends are closed. Any other socket but a listener is just free. |
| NetRules.ResetRule | supervisor/src/netstate.rs:954-994 | What is still queued when a listener goes is closed as if its own side had closed it. |
| NetDgrams.SendDgramRule | supervisor/src/netstate.rs:837-872 | A datagram of at most 60 KB goes from a socket that has, or is given, a name to the destination named or to the default peer, which is sought on the host that answers at its address; without either it is EDESTADDRREQ. The receiver sees the sender's port at loopback if that is where it went, else at the host's own address. |
| NetDgrams.DispatchRule | supervisor/src/netstate.rs:872-901 | It goes to the first socket bound there that will have it, at once or after the latency; one that nobody takes or that there is no room for is counted as lost on an inet socket, and on a UNIX-domain one the sender is told. |
| NetDgrams.RecvDgramRule | supervisor/src/netstate.rs:905-930 | A receive takes one whole datagram off the ring, however little of it is wanted, and gives its payload cut to that and its source; peeking leaves it. |
| NetDgrams.ConnectDgramRule | supervisor/src/netstate.rs:816-834 | A datagram socket is given a default peer, and a port if it is new and has none. |
| Wire.DgramRoundTrip | supervisor/src/netstate.rs:206-214 | A datagram written into a ring is read back with its source, payload and extent. |
| Wire.EncFlightInjective | supervisor/src/netstate.rs:614-658 | The bytes of a flight ring parse in one way only. |
| Rings.AbsUnique | supervisor/src/netstate.rs:583-612 | Every flight ring stands for one sequence of whole records. |
| NetTable.Table.Deliver | supervisor/src/netstate.rs:540-552 | The method on rings comes to what the network on values says, which is what NetRules.SendRule, NetRules.ShutdownRule and NetDgrams.DispatchRule say in terms of hosts, latency and times: what is there at once or in flight, when it is due, and how much is taken. |
| NetTable.Table.Launch | supervisor/src/netstate.rs:614-658 | A record is cut to the window and appended to the flight ring, counted, and the bound on arrivals adjusted, as on values. |
| NetTable.Table.Advance | supervisor/src/netstate.rs:696-746 | Landing records ring by ring comes to what advancing does on values. |
| NetTable.Table.Connect | supervisor/src/netstate.rs:398-458 | The new state and the answer are those on values, error by error. |
| NetTable.Table.Accept | supervisor/src/netstate.rs:461-473 | The same for accept. |
| NetTable.Table.Bind | supervisor/src/netstate.rs:347-374 | The same for bind, the ephemeral ports included. |
| NetTable.Table.Send | supervisor/src/netstate.rs:750-770 | The same for send. |
| NetTable.Table.Recv | supervisor/src/netstate.rs:773-793 | The same for recv, through the ring's wrap-around. |
| NetTable.Table.SendDgram | supervisor/src/netstate.rs:837-901 | The same for datagrams: routing, filtering and counted losses. |
| NetTable.Table.RecvDgram | supervisor/src/netstate.rs:905-930 | The same for receiving one. |
| NetTable.Table.Shutdown | supervisor/src/netstate.rs:932-951 | The same for shutdown. |
| NetTable.Table.Release | supervisor/src/netstate.rs:954-994 | The same for release, with everything a listener's queue sets off. |
| NetTable.Table.SetRefs | supervisor/src/netstate.rs:1032-1047 | The same for set_refs. |
| Kq.EveryEdgeFires | supervisor/src/kq.rs:322-364 | Over any run an enabled registration whose socket was not ready and is at the end is reported by the next collect. |
| Kq.StaysNotAhead | supervisor/src/kq.rs:322-364 | What a report remembers of a socket's counters is never ahead of them, after any further run. |
| Kq.ChangedMeans | supervisor/src/kq.rs:274-319 | A change touches the registration of its descriptor and filter only, of which there is one at most, and leaves it there, enabled and with its flags exactly as asked. |
| Kq.Queue.Change | supervisor/src/kq.rs:274-319 | The method on the list comes to that change. |
| Kq.Queue.Collect | supervisor/src/kq.rs:322-364 | Collecting reports exactly the registrations that fire, in order and up to the room given, removes the one-shot ones among them and marks the others. |
| KqRules.FiresRule | supervisor/src/kq.rs:246-272 | A registration fires exactly while it is on and its socket ready for its filter, and if edge-triggered only when the socket's counter has moved since it last did. |
| KqRules.ReportRule | supervisor/src/kq.rs:322-364 | An event has its registration's descriptor and the caller's word; it says end of stream once a connection's FIN has landed, and how many bytes, or whether a connection, there is. |
| KqRules.DgramReport | supervisor/src/netstate.rs:795-806 | Of a datagram socket it says the payload size of the first datagram. |
| KqRules.FiredRule | supervisor/src/kq.rs:322-364 | Once reported, a one-shot registration is gone, one that fires once per enabling is off, and any other has seen the counter. |
| KqRules.CollectedAt | supervisor/src/kq.rs:322-364 | Events come in the order of their registrations, as far as there is room. |
| KqRules.CollectLeaves | supervisor/src/kq.rs:322-364 | What is left afterwards is, in their order, what reporting leaves of those reported and the others as they were. |
| KqRules.AppliedRule | supervisor/src/kq.rs:274-319 | What a change leaves of a registration: which fields adding, enabling and disabling set, and which stay. |
| KqRules.ChangedRule | supervisor/src/kq.rs:274-319 | Where the change is made, and that the others keep their places. |
| SchedRun.Run | supervisor/src/shared.rs:1439-1519 | Any acts of guests and launcher, in any order: every moment satisfies the tables' invariant and comes after every earlier one, the choices made while PCT alone decides form a run of its turns, and the run hangs only at a hand-off into a doomed state. |
| SchedRun.Do | supervisor/src/shared.rs:1439-1519 | One act keeps all that; a hand-off hangs exactly if what lies ahead is doomed, and where PCT alone decides the baton changes hands by its choice only. |
| SchedRun.OneBaton | supervisor/src/shared.rs:1439-1478 | At every moment of every run at most one thread runs, it is `current`, and its process is not dead. |
| SchedRun.DeadForGood | supervisor/src/shared.rs:856-886 | A process once dead stays dead at every later moment: no thread of it, old or new, is in the schedule, nothing more is injected into it, and its successor does not change. |
| SchedRun.NoLifeAfterTheStop | supervisor/src/shared.rs:930-938 | Once the run is stopped, no process is ever given another life. |
| SchedRun.LedgerThroughout | supervisor/src/shared.rs:930-985 | The chain of an entry's lives told at one moment is the beginning of it at every later one, all but its last life dead; restarts, crashes and shutdowns made and left always sum to the budget. |
| SchedRun.NobodyStarves | supervisor/src/shared.rs:1372-1408 | In any run of the scheduler, while PCT alone decides, a thread that can run and was passed over for the bound has the baton within one choice more than there are threads ahead of it. |
| SchedPct.StarvationBound | supervisor/src/shared.rs:1372-1408 | The bound for any run of PCT's turns. |
| SchedChoice.DemotedRankBelow | supervisor/src/shared.rs:1356-1368 | A thread a change point has dropped ranks below every thread none has. |
| Sched.State.ChooseCandidate | supervisor/src/shared.rs:1372-1408 | Below the horizon the choice is the longest starved thread, or else the eligible thread of highest priority, lowest id first, and nothing is drawn; otherwise it is the one drawn, which takes one output of the stream. |
| Sched.State.NthCandidate | supervisor/src/shared.rs:1423-1433 | The thread chosen is the one drawn: in front of it there are as many that can run as the stream's next output comes to, scaled to their number. |
| SchedChoice.NthIsDrawn | supervisor/src/shared.rs:1423-1433 | The thread that counting finds is the one the draw is for, among those runnable and, where pauses count, not paused. |
| Sched.State.PickAmong | supervisor/src/shared.rs:1310-1333 | The whole choice: change points first, pauses passed over while anybody else can run, and of two or more unpaused threads the chosen one perhaps held back. |
| Sched.State.PauseOne | supervisor/src/shared.rs:1316-1333 | Whether the chosen thread is held back, and until when, is drawn from the pauses' own stream; if it is, another thread is chosen, otherwise the choice stands. |
| Sched.State.NextQuantum | supervisor/src/shared.rs:1181-1186 | A quantum is drawn between its bounds. |
| Sched.State.AddThread | supervisor/src/shared.rs:1070-1084 | Under PCT a new thread's priority is half an output of its stream, above all change points' numbers. |
| Sched.State.DrawCrash | supervisor/src/shared.rs:836-854 | A life's crash and shutdown times are drawn between the entry's bounds from its start, the crash's first, while there are any to come. |
| Sched.State.PctChangePoints | supervisor/src/shared.rs:1356-1368 | All change points the clock has passed are taken and no other, and if there are any the thread that had the baton sinks to the number of the last, a rank below every drawn one; nothing else changes. |
| Sched.State.SetScheduler | supervisor/src/shared.rs:1337-1351 | The change points are those drawn, one less than the clamped depth, sorted, and below the horizon. |
| Sched.State.Pick | supervisor/src/shared.rs:1265-1333 | From every state that is not doomed it ends, with nothing due at or before the clock; it returns a runnable thread of a living process, unpaused if any is: the change points passed, PCT's choice where that decides and else the one drawn from the run's stream, which starts over where the run says; then perhaps a pause, drawn, and another choice; or nobody, if no thread is left or none can run and nothing is to come. |
| Sched.State.JumpOn | supervisor/src/shared.rs:1282-1309 | One turn of the idle loop: the clock jumps over nothing, everything then due happens, whatever loomed still does or less is left, and the state is doomed afterwards exactly if it was before. |
| Sched.State.CatchUp | supervisor/src/shared.rs:1273-1280 | The stop, arrivals, crashes, shutdowns, deadlines and timers due at the clock all happen: nothing due is left, the invariant is kept and nobody comes back. |
| Sched.State.HandOff | supervisor/src/shared.rs:1439-1474 | The holder steps back and the chosen thread alone runs, the one drawn where a draw decides, with a quantum drawn next; or nobody does and nothing is to come; nothing is due on return; where somebody can run and nothing is due, the baton is all that moves; it hangs exactly if what lay ahead was doomed. |
| Sched.State.ProcessDied | supervisor/src/shared.rs:1480-1518 | A process seen to end is dated and, unless it was killed before, mourned: its parent alone is told, and it may have another life exactly as its policy says. It passes the baton on if it had it. |
| Sched.State.Crash | supervisor/src/shared.rs:856-886 | A killed process loses its threads, sockets and times to come at once, its death is dated, and its parent alone is told; those waiting for it or for a descriptor wake, and its successor is entered exactly if its entry allows one and there is room; no other process or thread changes. |
| Sched.State.RegisterRestart | supervisor/src/shared.rs:956-983 | A successor has the entry, the host, one restart less and what was left of the faults, starts after a delay drawn between the entry's bounds, then has its faults drawn, and is the dead process's only one. |
| Sched.State.InjectDueCrashes | supervisor/src/shared.rs:987-1000 | Exactly the processes whose crash is due die, with all that each death means to the others. |
| Sched.State.InjectDueShutdowns | supervisor/src/shared.rs:1004-1032 | Exactly the shutdowns due send their signal and start their grace period, and exactly the grace periods that are over end in a death. |
| Sched.State.StopRun | supervisor/src/shared.rs:1045-1058 | Every living process is told, through all its threads, which become runnable. |
| Sched.State.FireAlarms | supervisor/src/shared.rs:1211-1233 | Every timer due rings, is set again if it repeats, and wakes the first blocked thread of its process; no other thread changes. |
| Sched.State.NextEvent | supervisor/src/shared.rs:1289-1298 | The time found is that of something still to come and no later than anything that is; none means that nothing is. |
| Sched.State.NetCall | supervisor/src/net.rs:70-107 | A network call by the baton's holder has the network's own result, wakes those who wait for a descriptor if it did something, and keeps the scheduler's invariant. |
| Sched.State.Register | src/coord.rs:171-177 | A process of the run file enters the tables with its main thread and its entry's faults drawn, and the invariant holds. |
| Sched.State.Fork | supervisor/src/process.rs:149-150 | A child of the holder's process enters the tables with its main thread, on the same host. |
| Sched.State.SetTimer | supervisor/src/determinism.rs:231-236 | The process's timer is set or taken away, and the invariant is kept. |
| Sched.State.Kill | supervisor/src/process.rs:691-700 | All that a process's death means happens at the kill. |
| Sched.State.ClockRead | supervisor/src/shared.rs:1195-1199 | A read moves the clock by its cost, and what becomes due arrives. |
| SchedEnds.CrashDooms | supervisor/src/shared.rs:1211-1241 | Tables such as the scheduler keeps them from which the idle loop does not end. |
| SchedHang.CrashHangs | supervisor/src/shared.rs:1265-1309 | A run, from its start, that hangs whatever its seed and settings, without a stop time: two processes wait for each other, one of them with a repeating timer and a crash to come. |
| SchedEnds.JumpDooms | supervisor/src/shared.rs:1289-1299 | A jump of the clock to the next event leads into a doomed state exactly from one. |
| SchedEnds.AcrossDooms | supervisor/src/shared.rs:1300-1308 | Everything that happens at one time leaves a state doomed exactly if it was. |
| SchedEnds.DoomedGoesOn | supervisor/src/shared.rs:1282-1309 | In a doomed state some thread is left, none can run, and something is always still to come. |
| SchedEnds.LoomsUnlessDoomed | supervisor/src/shared.rs:1282-1309 | In any other, while everybody waits, something looms that is more than the ring of a timer nobody can hear. |
| SchedTurn.TurnLower | supervisor/src/shared.rs:1282-1309 | A turn of the idle loop makes somebody runnable, or lowers the measure of what is left to happen, or comes nearer to what looms. |
| SchedFaults.StruckLower | supervisor/src/shared.rs:987-1033 | Every death and every signal lowers the measure, restarts included. |
| SchedSpec.Ledger | supervisor/src/shared.rs:930-985 | The lives of an entry rise in index; restarts made and left sum to its budget, and so do the crashes and shutdowns injected, unless there is no limit. |
| SchedSpec.OnlyTheLastLives | supervisor/src/shared.rs:956-983 | Of the lives of an entry at most the last is alive. |
| SchedRules.DueRule | supervisor/src/shared.rs:384-404 | Until when a process can be crashed, shut down and killed, and its timer rings; and which of them is due. |
| SchedRules.ExpireRule | supervisor/src/shared.rs:1243-1252 | A wait that is over ends as timed out, with no deadline; any other thread is left alone. |
| SchedRules.WakeRules | supervisor/src/shared.rs:1108-1144 | Who looks again after traffic, a wake and a signal, and that nobody else does. |
| SchedRules.EndRules | supervisor/src/shared.rs:856-886 | What a process's end does to its own threads, to those who wait for a descriptor, and to its parent's that wait for a child. |
| SchedRules.CeasedRule | supervisor/src/shared.rs:1480-1500 | What the launcher's seeing an end leaves of a process, killed before or not. |
| SchedRules.GraceRule | supervisor/src/shared.rs:1004-1033 | A shutdown takes one from what is left and sets the kill behind it. |
| SchedRules.RungRule | supervisor/src/shared.rs:1211-1233 | A timer that rings sends SIGALRM and is set again exactly if it repeats. |
| SchedRules.RestartRule | supervisor/src/shared.rs:930-938 | When an entry allows another life. |
| SchedRules.ChoiceRule | supervisor/src/shared.rs:1372-1408 | PCT's choice, in terms of how long a thread has been passed over, its priority and its id. |
| CondVars.EveryWakeIsTakenOnce | supervisor/src/interpose.rs:333-417 | Over every interleaving of waits, timed waits, signals and broadcasts, wakes given are as many as waits that returned signalled, wakes still to be taken, and those lost with a thread that died. |
| CondVars.ToldOnceTakenOnce | supervisor/src/interpose.rs:333-417 | Thread by thread over every interleaving: whoever is told returns signalled exactly once for it, deadline or not, or is still to, or died; it is told again only after that. |
| CondVars.SignalTakesTheEarliest | supervisor/src/shared.rs:1162-1179 | A signal selects the waiter that joined first, and no other. |
| CondVars.Wake | supervisor/src/shared.rs:1162-1179 | A signal is for the one queued waiter that joined first, if there is one, a broadcast for all: those alone change, as CondVars.WakeRule says, and after a broadcast the queue is empty. |
| CondVars.WakeRule | supervisor/src/shared.rs:1146-1179 | Each waiter a signal or broadcast is for is off the queue, told, and runnable if it was blocked; it keeps its process, what it waits for and until when; nobody else changes. |
| CondVars.JoinRule | supervisor/src/shared.rs:1152-1159 | Whoever joins a queue is last in it and not told. |
| CondVars.ToldCanTake | supervisor/src/interpose.rs:333-417 | In every reachable state a live thread that has been told can run, and whatever it does next in its wait returns signalled. |
| CondVars.ToldUntilTaken | supervisor/src/interpose.rs:333-417 | Over every interleaving it stays so until it takes its wake or dies. |
| Heap.Heap.Alloc | supervisor/src/alloc.rs:667-685 | An allocation fails exactly when the request is absurd or its class and zone are full, and then loses nothing; otherwise exactly one block is new, as big as asked and aligned, the others untouched; it is where the seed's draws lead, and what the caller gets starts no further behind the header than its alignment takes. |
| Heap.Heap.Free | supervisor/src/alloc.rs:696-699 | Exactly the freed block is live no more, and the heap stays sound; its storage is its class's newest candidate, or first on the list if there are 32, or its slab or its row of slabs is free again. |
| Heap.Heap.Store | supervisor/src/alloc.rs:667-700 | A caller's write into its own block disturbs nothing the heap relies on. |
| Heap.Heap.AllocRaw | supervisor/src/alloc.rs:598-619 | A raw block is found whenever there is room for its class or its run, and is the one the seed's draws lead to; a run takes its own slabs and no other. |
| Heap.Heap.TakeRun | supervisor/src/alloc.rs:396-425 | A run of slabs is found exactly when the zone holds one, was wholly free, is the one the draws lead to, and only its bits change. |
| Heap.Heap.GiveRun | supervisor/src/alloc.rs:641-645 | A freed run's slabs, and no others, are free again. |
| Heap.Heap.Draw | supervisor/src/alloc.rs:441-456 | A block is drawn from the class's candidates whenever the class has one or a slab can be cut for it, and is nobody else's: the one the seed's next output stands for, the newest for half of all outputs. Where there are no candidates they are first refilled from the head of the class's list, or with the slots, as dealt, of the slab the draws lead to. |
| Heap.Heap.Refill | supervisor/src/alloc.rs:460-487 | The candidates an empty class gets: the head of its list, or the slots of a new slab in the order dealt, the rest being listed. |
| Heap.Heap.Shuffle | supervisor/src/alloc.rs:466-476 | The slots of a new slab are dealt by the draws, each of them once. |
| Heap.DealsDiffer | supervisor/src/alloc.rs:466-476 | No two lists of draws deal alike, so every order of the slots comes from exactly one. |
| Heap.Heap.OvUnlink | supervisor/src/alloc.rs:518-528 | The words of the list threaded through free blocks spell the same list without the block, wherever it was. |
| Heap.Heap.Release | supervisor/src/alloc.rs:534-556 | A slab goes back exactly if its class then has at least as much left free as it gives away; it takes exactly its own blocks off pool and list, and no other slab changes. |
| Heap.Heap.constructor | supervisor/src/alloc.rs:237-307 | A fresh region is sound and has nothing live in it; its window is a quarter of it, 64 GB at most, at the end the seed draws. |
| Heap.ExactlyOne | supervisor/src/alloc.rs:441-556 | Every block of a slab in use is live, in its class's pool, or on its class's list: exactly one of them, and once. |
| Heap.ReachableIsTaken | supervisor/src/alloc.rs:534-556 | Whatever pool and list hold lies in a slab that is taken: no slab given back is reachable. |
| Heap.LiveIsTaken | supervisor/src/alloc.rs:381-394 | Every slab a live block reaches into is marked as taken. |
| Heap.WidthsSuffice | supervisor/src/alloc.rs:489-491 | Slab counts fit 16 bits and pool entries 32. |
| HeapSlabs.LiveBlocksApart | supervisor/src/alloc.rs:598-685 | Any two live blocks are disjoint, and so is what their owners were given. |
| HeapSlabs.LiveIsInside | supervisor/src/alloc.rs:667-685 | A live block lies inside the region and holds its header and what was asked. |
| HeapSearch.FindRun | supervisor/src/alloc.rs:396-425 | Whatever the draws, a run of free slabs is found exactly when there is one: the first of sixteen drawn places with room, else the next from a seventeenth on, else the lowest. |
| HeapSearch.FirstFit | supervisor/src/alloc.rs:428-438 | The first free run is found: skipping past the last taken slab misses none. |
| HeapSizes.FreeFindsTheClass | supervisor/src/alloc.rs:315-328 | The class found for a block's size is the class it was allocated from. |
| HeapSizes.ClassIsTight | supervisor/src/alloc.rs:315-328 | No smaller class would hold the request. |
| HeapRules.ClassSizes | supervisor/src/alloc.rs:315-328 | The sizes: multiples of 16 up to 1 KB, then 2 KB doubled up to nine times; those of up to 64 KB share slabs. |
| HeapRules.BeyondClasses | supervisor/src/alloc.rs:315-328 | Beyond 1 MB it is the least number of pages of 16 KB, or none if no address space is that large. |
| HeapRules.WantedRule | supervisor/src/alloc.rs:672-675 | An allocation asks for a byte at least, the header of 16, and the alignment on top if that is above 16. |
| HeapRules.ServesRule | supervisor/src/alloc.rs:598-619 | There is room for a request exactly if its class has a free block or the window a free slab, or if slabs enough are free in a row outside the window. |
| Rng.Stream.LogUniform | src/rng.rs:55-61 | For bounds below 2^63 the octave is drawn among those between them, then the value among those of the octave. |
| Rng.Stream.RangeInclusive | src/rng.rs:47-49 | The value drawn, which lies between its bounds. |
| Rng.ScaledMeans | src/rng.rs:42-44 | The value below n for an output x is the v with v * 2^64 <= x * n < (v + 1) * 2^64. |
| Rng.ReferenceValues | src/rng.rs:13-39 | Reference values: the first word of the state for seed 0, and xoshiro256**'s outputs and next state from the state 1, 2, 3, 4. |
| Arm.BExact | src/stub.rs:14-27 | The answer for a branch is a word exactly when that is a branch aimed at the target. |
| Arm.BCondExact | src/stub.rs:29-32 | The same for a conditional branch, its condition included. |
| Arm.CbzExact | src/stub.rs:34-43 | The same for compare and branch, with its operands. |
| Arm.TbzExact | src/stub.rs:45-55 | The same for test and branch, with its operands. |
| Arm.ReachExact | src/stub.rs:14-55 | The encoders answer exactly for offsets that are multiples of four within 128 MB, 1 MB and 32 KB either way. |
| Arm.DecodeInvertsEncode | src/decode.rs:72-149 | Whatever an encoder returns is decoded, where it stands, to the operands and target it was made for. |
| Arm.EncodeInvertsDecode | src/decode.rs:72-149 | Every branch the decoder knows is what the encoder gives for what was decoded, but for the forms the encoder never makes. |
| Arm.EncodesWhatCanBeNamed | src/stub.rs:20-27 | A branch or call that some word encodes, the encoder encodes. |
| Forms.Exclusives | src/decode.rs:157-170 | By its encoding: the words that open an exclusive span are ldxr and ldxp and their acquiring forms, those that close one stxr and stxp and theirs. |
| Forms.Accesses | src/decode.rs:151-215 | By their encodings, which loads and stores are taken, and their base register; literal loads, prefetches and unprivileged ones are not. |
| Forms.StructuresTaken | src/decode.rs:176-179 | Of the loads and stores of SIMD structures the decoder takes those of multiple structures and leaves those of single ones. |
| Forms.SingleStructureIsLeft | src/decode.rs:176-179 | ld1r is one that is left. |
| Forms.StackAddrs | src/decode.rs:136-147 | By their encodings, which words put an address of the frame in a register. |
| Forms.CounterReadIs | src/decode.rs:73-77 | By their encodings, the reads of the counter and where they go. |
| ArmSteps.AdrpAddReaches | src/stub.rs:62-75 | adrp and the add after it compute exactly the target. |
| Sites.InvertCondFlips | src/decode.rs:219-221 | The inverted condition holds exactly when the condition does not, for every condition but the two that always hold; inverting twice gives it back. |
| Simulation.HookIsFaithful | src/rewrite.rs:690-781 | The hook chosen for a word does what the machine does with the word. |
| Sites.SiteRuns | src/rewrite.rs:460-545 | From a patched site the trampoline reaches the state the hooked instruction leads to: guard, counter, scheduler call, replay, tail and island. |
| Simulation.SiteSimulates | src/rewrite.rs:460-545 | A hooked site reaches the state of one original step, but for the counter, the words below sp and, after an island, x16. |
| CounterReads.CounterRuns | src/rewrite.rs:410-458 | A hooked counter read puts the supervisor's count into its register, goes on after the site, and leaves every other register, sp and the flags. |
| Simulation.ReaderSimulates | src/rewrite.rs:410-458 | A hooked counter read reaches the state of the original one. |
| Simulation.RunSimulates | src/rewrite.rs:340-545 | Over any run the rewritten text reaches a state that agrees with the original's, through any number of hooks and counter reads: while the quantum lasts, or across any number of calls of the scheduler that give the program back as it was. |
| Rewriter.Builder.Stub | src/rewrite.rs:377-404 | A site is hooked in the first area where everything reaches and fits, and exactly if there is one; otherwise code, patches and sites are as they were. |
| Rewriter.Builder.StubOrFar | src/rewrite.rs:460-545 | In one area, the attempt writes exactly the trampoline of the hook, its patch and its site, or says that a branch does not reach. |
| Rewriter.Builder.CounterStub | src/rewrite.rs:410-458 | The same as Stub for a counter read. |
| Rewriter.Builder.EmitCommon | src/rewrite.rs:340-368 | The body every trampoline of an area calls is the one the simulation assumes. |
| Rewriter.ShortBranches | src/rewrite.rs:340-404 | Branches over a few words always encode, so a guard over its trampoline and the branches within the shared body cannot fail to. |
| Selection.ExclusiveWords | src/rewrite.rs:660-688 | The one pass marks exactly the words of exclusive spans, their stores, and the branches that retry them. |
| Forms.WhatIsHooked | src/rewrite.rs:707-781 | By their encodings: a word may be hooked exactly if it is a branch that does not go forward, a call, an indirect branch, or a load or store; a call through x30 and a return are not. |
| Loops.LoopsAreHooked | src/rewrite.rs:690-781 | Any run of the program outside data, exclusive spans and what is out of reach that comes back to where it was, or further back, passes a site with a hook, unless it goes through a return or a call through x30. |
| Loops.WantsRule | src/rewrite.rs:755-781 | A load or store is hooked if drawn, in the function's own frame only if an address in it is taken; a counter read if it goes below x29; and any other word as its form says. |
| Loops.SpanIs | src/rewrite.rs:660-688 | A span goes from an exclusive load to the next exclusive store, both included, and on over the branch that retries it. |
| Selection.RewriteFunction | src/rewrite.rs:690-781 | Of a function's words exactly those wanted, which Forms.WhatIsHooked and Loops.WantsRule give by their encodings, are hooked, each with one record made for it, or counted as out of reach. |
| Selection.Rewrite | src/rewrite.rs:625-784 | The same for the whole program: every word wanted has a record or is one of those counted as out of reach; no site is patched twice. |
| Selection.RecordIsPatched | src/rewrite.rs:340-545 | What the builder recorded is what the simulation asks of a site, in any text that holds the areas and patches. |
| RewrittenText.WriteOut | src/rewrite.rs:794-807 | The rewritten text holds every area's code and every patch, and the original's words everywhere else. |
| RewrittenText.AllRewritten | src/rewrite.rs:625-812 | Outside the areas every word of it is the original's or leads to a trampoline made for the original's. |
| RewrittenText.RewritePreserves | src/rewrite.rs:625-812 | Any run of the original outside the areas is matched by the rewritten program, inside a quantum or across calls of the scheduler. |
| MachO.Parse | src/macho.rs:234-275 | Reading comes to the header, the commands one after the other and the segments they describe, or to the first thing missing. |
| MachO.WalkReads | src/macho.rs:256-268 | Commands written one after the other are read back as they were. |
| ImageRules.HeaderLayout | src/macho.rs:234-253 | Which file is read: its magic number, processor and type, and where the header counts the commands and their size; the first command is behind it. |
| ImageRules.NextHere | src/macho.rs:254-268 | Each command is where the one before it ends, and says what it is and how long. |
| ImageRules.SegmentLayout | src/macho.rs:181-216 | The fields of a segment command and of its sections, byte by byte, and when it is too short for them. |
| ImageRules.OffsetIs | src/macho.rs:293-304 | An address is looked for in the first segment that has it in memory and anything in the file. |
| ImageWriter.Emit | src/macho.rs:491-601 | It succeeds exactly when the layout is supported, the commands fit once everything droppable is gone, and every patch is of a word in front of `__LINKEDIT`; no more is dropped than it takes. |
| ImageReads.ReadsBack | src/macho.rs:491-601 | The rewritten file is read as the kept commands and nothing else. |
| ImageReads.OffsetsReadTheSame | src/macho.rs:634-655 | Every offset into `__LINKEDIT` that a command holds finds, in its new version, the same bytes: the symbol table's two, the dynamic one's six, the dyld info's five, and one for each kind of data in `__LINKEDIT`, at the bytes where they are. |
| ImageReads.OnlyOffsetsMove | src/macho.rs:634-655 | Each such offset moves by what was inserted, unless it is zero, and no other byte of the command changes. |
| ImageRules.PlanRule | src/macho.rs:441-509 | When the layout is supported, and which error it is otherwise; room is made in whole pages, and `__LINKEDIT` ends where the signature began. |
| ImageRules.WhatBecomes | src/macho.rs:516-548 | A signature's command goes, the new segment's is put in front of `__LINKEDIT`'s unless it would be empty, and any other stays one command. |
| ImageRules.StubCommand | src/macho.rs:616-632 | The bytes of the new segment's command. |
| ImageRules.RoomRule | src/macho.rs:425-436 | The commands may grow up to the first section in the file behind them, else not at all. |
| ImageRules.WhatGoes | src/macho.rs:473-489 | A command given up is an empty table of data in code, a source version or function starts, and with everything given up all of those are; a table of data in code with entries always stays. |
| ImageRules.GoesBefore | src/macho.rs:473-489 | They go in that order. |
| ImageReads.LinkeditMoved | src/macho.rs:596-600 | What is left of `__LINKEDIT` is found unchanged, as far on as was inserted. |
| ImageReads.OnlyPatchesDiffer | src/macho.rs:584-594 | Behind the room for commands a byte differs only where a patch is made, and a patch no later one touches stands. |
| ImageReads.SignatureFits | src/macho.rs:550-569 | Room for a signature's command stays free in front of every section. |
| ImageReads.OnlySparesGo | src/macho.rs:554-565 | Only commands nothing needs are dropped, and each only after every one of a lower rank. |
| ImageReads.StubTakesThePlace | src/macho.rs:518-538 | The new segment is where `__LINKEDIT` was in memory and in the file, and `__LINKEDIT` right behind it. |
| ImageReads.SignatureAlone | src/macho.rs:496-509 | Of `__LINKEDIT` the signature alone is dropped exactly if nothing lies behind it. |
| ImageExample.EarlySignatureTakesTheRest | src/macho.rs:496-509 | A file that can be read, with a page of ones behind its signature, of which nothing is left in what is written. |
| ImageCommands.ShiftedWord | src/macho.rs:634-655 | Every offset a command holds moves by what was inserted, unless it is zero. |
| Ddmin.Ddmin | src/suspects.rs:113-151 | For any test that fails on the input and passes on nothing, monotone or not, it ends with a part, in the same order, that still fails, and passes without any one of its elements. |
| Ddmin.FewerPartsThanAsked | src/suspects.rs:116-118 | Asked for n parts, fewer are cut exactly if n - 1 of the parts' size are enough for all. |
| Ddmin.FourInThree | src/suspects.rs:116-118 | An input where fewer parts are cut than asked for. |
| Ddmin.Chunks | src/suspects.rs:116-118 | The parts are the whole in order, all but the last as long as asked, and as many as the length divided by that and rounded up. |

## Left out

Weaker or assumed in the model:

- NetRun.StepOk: operations go through descriptors the caller holds, and the table of references is not full; on a full table the program panics.
- NetRun.EveryState: clocks are natural numbers; that a due time fits the 64 bits of a flight header is a precondition of the ring methods.
- NetTable.Table.Launch: records are values of an array's elements with their rings inside them, so nothing is said of aliasing between rings.
- SchedRun.Run: an act that is not its doer's to make is passed over; a guest's signal to its own process, threads outside the schedule, and the launcher's waiting are not among the acts.
- SchedRun.LedgerThroughout: the bill of crashes and shutdowns injected is kept by the model; the program keeps only what is left.
- SchedRun.NobodyStarves: pauses are off, as they are for PCT in practice; with them a paused thread may wait longer.
- Sched.State.Pick: the run's settings are constants of the state, and trace hashes and report counters are not kept.
- Sched.State.HandOff: a call that would not return is answered by `Hangs`, a test of the tables the program does not make.
- Sched.State.ProcessDied: real process ids, wait statuses read by parents, and settling deaths with the kernel are left out.
- CondVars.EveryWakeIsTakenOnce: it counts wakes; which wait takes which is CondVars.ToldOnceTakenOnce. The mutex a wait gives up and takes back, and cancellation, are left out.
- Heap.Heap.Store: memory is doublewords at their addresses, whatever their alignment.
- Heap.Heap.TakeRun: the bitmap is a sequence of booleans instead of words of 64 bits.
- Heap.Heap.Release: the contents of pages given back to the system are not modelled.
- Heap.Heap.constructor: the unseeded layout and the fallback to the system's allocator are left out.
- Simulation.RunSimulates: what other threads write while the scheduler has the processor is not modelled; a call of it keeps registers and writes nothing the program may look at.
- Simulation.ReaderSimulates: the supervisor's count is the count the original read would have got, by the entry's contract.
- RewrittenText.RewritePreserves: the words below sp are dead, x16 is dead after a call through an island, and code is not data.
- RewrittenText.WriteOut: areas and functions do not overlap, which the linker's layout sees to.
- Loops.LoopsAreHooked: what the machine of the model does not know goes on to the next word, so branches with pointer authentication are not seen; and no word is the last of the address space.
- Selection.Rewrite: the draw for each load and store is given instead of drawn; the function table's sorting out (unnamed entries, rooms) and statistics are left out.
- ImageWriter.Emit: the file was read before, commands are no shorter than their own prefix, and what the segments name is there.
- ImageReads.OffsetsReadTheSame: the moved offset fits its 32 bits.
- MachO.Parse: protections, section flags and alignments are not kept, and names are bytes.
- Rng.Stream.LogUniform: the upper bound is below 2^63; the run file allows a year at most.

Not modelled:

- Socket options, idents, timeouts of blocking calls, SIGPIPE, and text of UNIX paths beyond their bytes.
- Losses of zero-length datagrams, which the program does not count.
- Registrations of kernel queues for anything but the simulated sockets.
- The spinlock and its take-over, parking, deferred wakes and thread keys: each method is one step.
- The scheduler's and the counter entry's assembly, which saves and restores registers.
- The launcher, command line, run file, cache, signing, reports and host directories.
- File, path, name and entropy interposers, and the allocator behind mmap.
- `bisect`: probes around a binary search, which would only add easy members.
