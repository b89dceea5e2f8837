# Package queue of the AdjustIo Android SDK, modelled in Dafny

`QueuePackageHandler` keeps the activity packages that still have to reach
the AdjustIo server. It holds them in a FIFO list. It persists that list to a
private file after every change. It hands the head of the list to the request
handler, with at most one send outstanding at a time. The request handler
reports back in one of two ways. `sendNextPackage` means the package is done
(success or permanent failure): the head is dropped and the next one is sent.
`closeFirstPackage` means a temporary failure: the head stays for a later retry.
Sending can be paused and resumed.

This project models the handler's internal methods, the ones that run on its
dedicated thread, plus the three flag setters:

- `persistence.dfy` (module `Persistence`): the queue file as a value
  (`Absent`, `Holds(list)`, `Garbled`), with `Load` for `readPackageQueue` and
  `Save` for `writePackageQueue`. Every exception the source catches is a
  fault parameter chosen by the environment.
- `queue_machine.dfy` (module `QueueMachine`): the handler state as a value
  `Machine`. It has one function per internal method: `Init`, `Add`,
  `SendFirst`, `SendNext`, `CloseFirst`, `Pause`, `Resume`, plus `Restart`.
  It also defines the invariant `Inv`. Besides the source's fields, a `Machine`
  carries bookkeeping that the guarantees are about:
  - `sent`: every package handed to the request handler;
  - `history`: every package that entered the queue;
  - `popped`: how many packages were removed;
  - `sentAt`: where each sent package sits in `history`.
- `queue_properties.dfy` (module `QueueProperties`): what one call of each
  method promises, and that each method keeps `Inv`.
- `queue_runs.dfy` (module `QueueRuns`): sequences of commands, processed one
  at a time as the handler thread processes its messages. It proves FIFO
  delivery, single flight over any number of calls, that the invariant holds
  in every reachable state, and a worked three-package run.
- `queue_handler.dfy` (module `QueueHandler`): the class
  `QueuePackageHandler`. It has the fields `packageQueue`, `isSending`,
  `paused` and `file`, with ghost `sent` and bookkeeping fields.
  - `AddInternal`, `SendFirstInternal`, `SendNextInternal`,
    `CloseFirstPackage`, `PauseSending` and `ResumeSending` are each proved to
    take exactly the step of the matching `QueueMachine` function and to keep
    `Valid()` (that is, `Inv`).
  - `InitInternal` takes `Init`'s step except that `paused` keeps its value,
    and it establishes `Valid()`.
  - `ReadPackageQueue` and `WritePackageQueue` are stated against `Load` and
    `Save`; they touch only the queue and only the file respectively.

Four behaviours of the code are worth spelling out:

- Saving is not atomic. `openFileOutput(…, MODE_PRIVATE)` (line 218)
  truncates the queue file, and the list is then serialized into it directly
  (line 223). A failure before the list has reached the file therefore leaves
  an unreadable file, and the next start loses every stored package. `Save`
  models this as `StreamFailed`, and
  `QueueProperties.FailedWriteLosesQueueOnRestart` states it. A failure that
  only the final close reports (line 228), after the list was fully flushed,
  leaves the whole list in the file; its effect is that of `WriteOk`, since
  the failure is only logged.
- The comment on `addPackage` (line 63) says "add a package to the queue,
  trigger sending", but `addInternal` (lines 149-155) only appends and writes;
  it never sends. `Add` models what `addInternal` does.
- `readPackageQueue` assigns the loaded list and returns inside a `try` whose
  `finally` closes the stream (lines 193-205). If that close throws, the
  outer `catch (Exception e)` (line 208) takes it and line 213 replaces the
  loaded list with an empty one. The model counts this as a read failure
  (`ReadFailed`), so the queue starts empty.
- `sendNextInternal` (lines 175-176) removes the head without checking that
  a send is outstanding. A send-next with no send outstanding therefore drops
  a package that was never handed over
  (`QueueProperties.SendNextWithoutSendSkipsHead`). When every send-next
  answers an outstanding send, no package is removed unsent
  (`QueueRuns.RunNoSkip`).

## Model

| member | source | states |
|---|---|---|
| Persistence.Load | AdjustIo/src/com/adeven/adjustio/QueuePackageHandler.java:182-214 | loading never fails outward and never loads part of a list: the result is either empty or exactly the list the file holds, read without fault |
| Persistence.Save | AdjustIo/src/com/adeven/adjustio/QueuePackageHandler.java:216-234 | a write replaces the file with the whole queue, leaves it untouched (open failed), or leaves it unreadable (failure before the list reached the truncated file); it never appends or mixes lists |
| Persistence.LoadAfterSave | AdjustIo/src/com/adeven/adjustio/QueuePackageHandler.java:182-234 | a list written successfully is read back unchanged |
| Persistence.LoadFailureIsEmpty | AdjustIo/src/com/adeven/adjustio/QueuePackageHandler.java:195-213 | a missing file, an unreadable file or any read fault gives the empty list; a good read of a stored list gives that list |
| Persistence.StreamFailureLosesStore | AdjustIo/src/com/adeven/adjustio/QueuePackageHandler.java:218-233 | a write that fails before the list reached the (already truncated) file leaves nothing loadable |
| QueueProperties.InitLoadsOrStartsEmpty | AdjustIo/src/com/adeven/adjustio/QueuePackageHandler.java:143-147 | init clears the guard and issues no send; the queue is the stored list on a good read and empty otherwise; the invariant holds afterwards |
| QueueProperties.AddAppendsAtTail | AdjustIo/src/com/adeven/adjustio/QueuePackageHandler.java:149-155 | add puts the package at the tail, keeps every earlier package at its position, leaves both flags unchanged and sends nothing |
| QueueProperties.WriteMirrorsQueue | AdjustIo/src/com/adeven/adjustio/QueuePackageHandler.java:149-234 | after a successful write, in add and in send-next, the file holds exactly the in-memory queue |
| QueueProperties.WriteFailureKeepsMemory | AdjustIo/src/com/adeven/adjustio/QueuePackageHandler.java:149-180 | a failed write is only logged: add and send-next reach the same state apart from the file, whatever the write did |
| QueueProperties.SendFirstIdleWhenEmptyOrPaused | AdjustIo/src/com/adeven/adjustio/QueuePackageHandler.java:158-165 | send-first changes nothing when the queue is empty or sending is paused |
| QueueProperties.SendFirstSingleFlight | AdjustIo/src/com/adeven/adjustio/QueuePackageHandler.java:166-169 | while a send is outstanding send-first changes nothing, so a second send-first right after a first is a no-op |
| QueueProperties.SendFirstHandsOverHead | AdjustIo/src/com/adeven/adjustio/QueuePackageHandler.java:157-173 | send-first issues a send if and only if the queue is non-empty, not paused and not already sending; the send is the head, the guard is raised, the queue is unchanged |
| QueueProperties.SendNextPopsAndChains | AdjustIo/src/com/adeven/adjustio/QueuePackageHandler.java:175-180 | send-next removes exactly the head, keeps the order of the rest, and sends the new head if and only if one remains and sending is not paused |
| QueueProperties.SendNextWithoutSendSkipsHead | AdjustIo/src/com/adeven/adjustio/QueuePackageHandler.java:175-180 | a send-next with no send outstanding removes the head although it was never handed over: from a loaded queue [p, q], the only send is q and position 0 is never sent |
| QueueProperties.CloseFirstRetainsHead | AdjustIo/src/com/adeven/adjustio/QueuePackageHandler.java:86-89 | close-first only clears the guard (queue, paused flag, send log and file kept); the next send-first hands over the same head again |
| QueueProperties.PauseResumeOnlyFlag | AdjustIo/src/com/adeven/adjustio/QueuePackageHandler.java:91-99 | pause and resume change only the paused flag; paused, send-first sends nothing; resumed, it sends the head |
| QueueProperties.OutstandingSendIsHead | AdjustIo/src/com/adeven/adjustio/QueuePackageHandler.java:166-178 | under the invariant, an outstanding send is for the current head |
| QueueProperties.AddKeepsInv | AdjustIo/src/com/adeven/adjustio/QueuePackageHandler.java:149-155 | add keeps the invariant |
| QueueProperties.SendFirstKeepsInv | AdjustIo/src/com/adeven/adjustio/QueuePackageHandler.java:157-173 | send-first keeps the invariant |
| QueueProperties.PopKeepsInv | AdjustIo/src/com/adeven/adjustio/QueuePackageHandler.java:176-178 | removing the head, writing and clearing the guard keeps the invariant |
| QueueProperties.SendNextKeepsInv | AdjustIo/src/com/adeven/adjustio/QueuePackageHandler.java:175-180 | send-next keeps the invariant |
| QueueProperties.FlagsKeepInv | AdjustIo/src/com/adeven/adjustio/QueuePackageHandler.java:87-99 | close-first, pause and resume keep the invariant |
| QueueProperties.RestartRecoversAdd | AdjustIo/src/com/adeven/adjustio/QueuePackageHandler.java:143-155 | a package added with a successful write is back at the same position after a restart that reads the file successfully |
| QueueProperties.RestartRecoversSendNext | AdjustIo/src/com/adeven/adjustio/QueuePackageHandler.java:143-180 | after send-next with a successful write, a restart resumes at the package after the removed one |
| QueueProperties.FailedWriteLosesQueueOnRestart | AdjustIo/src/com/adeven/adjustio/QueuePackageHandler.java:216-234 | an add whose write fails before the list reached the truncated file makes the next restart start with an empty queue |
| QueueRuns.StepKeepsInv | AdjustIo/src/com/adeven/adjustio/QueuePackageHandler.java:114-138 | every command the handler thread processes keeps the invariant |
| QueueRuns.RunKeepsInv | AdjustIo/src/com/adeven/adjustio/QueuePackageHandler.java:114-138 | every state reached by processing commands one at a time keeps the invariant |
| QueueRuns.ReachableSendsInOrder | AdjustIo/src/com/adeven/adjustio/QueuePackageHandler.java:143-180 | in every state reachable from init, each sent package is one that entered the queue, the sends go through them in non-decreasing queue order, and an outstanding send is for the head |
| QueueRuns.RunNoSkip | AdjustIo/src/com/adeven/adjustio/QueuePackageHandler.java:157-180 | in a run where every send-next answers an outstanding send, every package removed from the head was handed to the request handler at least once |
| QueueRuns.SingleFlight | AdjustIo/src/com/adeven/adjustio/QueuePackageHandler.java:149-173 | any number of adds, send-firsts, pauses and resumes issue at most one send, and none if a send is outstanding, until send-next or close-first |
| QueueRuns.AdvancesDeliverRest | AdjustIo/src/com/adeven/adjustio/QueuePackageHandler.java:175-180 | once the head is handed over, repeated send-next delivers the rest of the queue in order, each package once, and ends empty and idle |
| QueueRuns.FifoDelivery | AdjustIo/src/com/adeven/adjustio/QueuePackageHandler.java:149-180 | packages added to an idle empty queue reach the request handler exactly in the order added, whatever the writes did |
| QueueRuns.ThreePackageRun | AdjustIo/src/com/adeven/adjustio/QueuePackageHandler.java:87-180 | enqueue A, B, C, then send, advance, close, send, advance, advance, send: the request handler sees A, B, B, C and the queue and file end empty |
| QueueHandler.QueuePackageHandler.constructor | AdjustIo/src/com/adeven/adjustio/QueuePackageHandler.java:45-61 | construction followed by the INIT message gives the init state: unpaused, guard clear, queue loaded or empty |
| QueueHandler.QueuePackageHandler.InitInternal | AdjustIo/src/com/adeven/adjustio/QueuePackageHandler.java:143-147 | init replaces the guard with a clear one and reads the queue, leaving paused as it was |
| QueueHandler.QueuePackageHandler.ReadPackageQueue | AdjustIo/src/com/adeven/adjustio/QueuePackageHandler.java:182-214 | the queue becomes what Load gives for the file and the read outcome |
| QueueHandler.QueuePackageHandler.WritePackageQueue | AdjustIo/src/com/adeven/adjustio/QueuePackageHandler.java:216-234 | the file becomes what Save gives for the current queue and the write outcome; the queue is untouched |
| QueueHandler.QueuePackageHandler.AddInternal | AdjustIo/src/com/adeven/adjustio/QueuePackageHandler.java:149-155 | the in-place append and write take the add step and keep the invariant |
| QueueHandler.QueuePackageHandler.SendFirstInternal | AdjustIo/src/com/adeven/adjustio/QueuePackageHandler.java:157-173 | the guarded hand-off takes the send-first step; it returns the package handed over, which is the head, and only when a send was issued |
| QueueHandler.QueuePackageHandler.SendNextInternal | AdjustIo/src/com/adeven/adjustio/QueuePackageHandler.java:175-180 | pop, write, clear the guard and chain into send-first take the send-next step; a returned package is the new head |
| QueueHandler.QueuePackageHandler.CloseFirstPackage | AdjustIo/src/com/adeven/adjustio/QueuePackageHandler.java:87-89 | only the guard is cleared |
| QueueHandler.QueuePackageHandler.PauseSending | AdjustIo/src/com/adeven/adjustio/QueuePackageHandler.java:92-94 | only paused is set |
| QueueHandler.QueuePackageHandler.ResumeSending | AdjustIo/src/com/adeven/adjustio/QueuePackageHandler.java:97-99 | only paused is cleared |

## Left out

- The `HandlerThread`, `Looper`, `Handler` and `Message` dispatch, and the
  weak back-reference (lines 34-84, 101-139). This is platform plumbing. The
  internal methods are called directly, and a run of commands stands for the
  order in which the thread drains its messages.
- Atomicity of `AtomicBoolean`. Also, `closeFirstPackage`, `pauseSending` and
  `resumeSending` run on the caller's thread, not the handler's. Both are
  races, and the model treats the three as ordinary sequential updates.
- A second INIT (`setContext` called twice, lines 51-61). `InitInternal`
  clears the guard even while a send is outstanding, so the next send-first
  hands the same head over again; the model restarts its ghost send log at
  INIT, so the log covers the sends since the last INIT only.
- Commands that reach the handler before INIT. Before INIT, `packageQueue` and
  `isSending` are null, so such commands throw. Also left out is a pause that
  arrives before INIT: `initInternal` leaves `paused` as it finds it, and the
  constructor here starts unpaused.
- Java object serialization and the Android file API (lines 184-186,
  218-220). The file is a value, and every caught exception is an
  environment-chosen fault.
- `AdjustIoFactory` lookups, `Logger` calls and the internals of
  `RequestHandler.sendPackage`. Logging never affects control flow. A send is
  an entry in the ghost `sent` log and the value `SendFirstInternal` returns.
- The contents of `ActivityPackage` and `getExtendedString`. Packages are a
  type parameter, opaque to this code.
- Send-next on an empty queue. `remove(0)` throws there and the handler thread
  dies. The methods require a non-empty queue, and a command run that does
  this ends in `None`.
