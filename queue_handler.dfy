/** QueuePackageHandler itself: the fields the handler thread updates in place
    and its internal methods, each proved to make exactly the step of the
    corresponding function of QueueMachine and to keep its invariant. */
module QueueHandler {
  import opened Persistence
  import opened QueueMachine
  import QueueProperties
  import opened QueueRuns

  class QueuePackageHandler<P> {
    var packageQueue: seq<P>
    var isSending: bool
    var paused: bool
    var file: Store<P>          // the AdjustIoPackageQueue file in the app's private storage
    ghost var sent: seq<P>      // every call of requestHandler.sendPackage since INIT, oldest first
    ghost var history: seq<P>
    ghost var popped: nat
    ghost var sentAt: seq<nat>

    /** The handler's state as a value of the state machine. */
    ghost function State(): Machine<P>
      reads this
    {
      Machine(packageQueue, isSending, paused, file, sent, history, popped, sentAt)
    }

    ghost predicate Valid()
      reads this
    {
      Inv(State())
    }

    /** Construction followed by the INIT message, the first the handler
        thread processes: an unpaused handler whose queue is read from the file. */
    constructor (storedFile: Store<P>, fault: ReadFault)
      ensures Valid() && State() == Init(storedFile, fault)
    {
      packageQueue, isSending, paused, file := [], false, false, storedFile;
      sent, history, popped, sentAt := [], [], 0, [];
      new;
      InitInternal(fault);
    }

    /** initInternal: a new guard, then the queue from the file. The paused
        flag is not touched; the ghost bookkeeping starts over. */
    method InitInternal(fault: ReadFault)
      modifies this`isSending, this`packageQueue, this`sent, this`history, this`popped, this`sentAt
      ensures Valid() && State() == Init(file, fault).(paused := paused)
      ensures paused == old(paused)
    {
      isSending := false;
      ReadPackageQueue(fault);
      sent, history, popped, sentAt := [], packageQueue, 0, [];
      QueueProperties.InitLoadsOrStartsEmpty(file, fault);
    }

    /** readPackageQueue: the stored list on a good read, a fresh empty list otherwise. */
    method ReadPackageQueue(fault: ReadFault)
      modifies this`packageQueue
      ensures packageQueue == Load(file, fault)
    {
      if file.Holds? && fault == ReadOk {
        packageQueue := file.items;
        return;
      }
      packageQueue := [];
    }

    /** writePackageQueue: overwrite the file with the whole queue; a failure
        leaves the in-memory queue as it is. */
    method WritePackageQueue(fault: WriteFault)
      modifies this`file
      ensures file == Save(old(file), packageQueue, fault)
    {
      match fault
      case WriteOk => file := Holds(packageQueue);
      case OpenFailed =>
      case StreamFailed => file := Garbled;
    }

    /** addInternal */
    method AddInternal(newPackage: P, fault: WriteFault)
      requires Valid()
      modifies this`packageQueue, this`history, this`file
      ensures Valid() && State() == Add(old(State()), newPackage, fault)
    {
      QueueProperties.AddKeepsInv(State(), newPackage, fault);
      packageQueue := packageQueue + [newPackage];
      history := history + [newPackage];
      WritePackageQueue(fault);
    }

    /** sendFirstInternal. The result is the package handed to the request
        handler, if any. */
    method SendFirstInternal() returns (handed: Option<P>)
      requires Valid()
      modifies this`isSending, this`sent, this`sentAt
      ensures Valid() && State() == SendFirst(old(State()))
      ensures handed.Some? <==> sent != old(sent)
      ensures handed.Some? ==> handed.value == packageQueue[0] && sent == old(sent) + [handed.value]
    {
      QueueProperties.SendFirstKeepsInv(State());
      if |packageQueue| == 0 {
        return None;
      }
      if paused {
        return None;
      }
      var wasSending := isSending;
      isSending := true;
      if wasSending {
        return None;
      }
      var firstPackage := packageQueue[0];
      sent := sent + [firstPackage];
      sentAt := sentAt + [popped];
      return Some(firstPackage);
    }

    /** sendNextInternal: remove the head, write, clear the guard, then send-first. */
    method SendNextInternal(fault: WriteFault) returns (handed: Option<P>)
      requires Valid() && |packageQueue| > 0
      modifies this
      ensures Valid() && State() == SendNext(old(State()), fault)
      ensures handed.Some? <==> sent != old(sent)
      ensures handed.Some? ==> handed.value == packageQueue[0] && packageQueue == old(packageQueue)[1..]
    {
      QueueProperties.PopKeepsInv(State(), fault);
      packageQueue := packageQueue[1..];
      popped := popped + 1;
      WritePackageQueue(fault);
      isSending := false;
      handed := SendFirstInternal();
    }

    /** closeFirstPackage: give up the outstanding send, keep the head. */
    method CloseFirstPackage()
      requires Valid()
      modifies this`isSending
      ensures Valid() && State() == CloseFirst(old(State()))
    {
      QueueProperties.FlagsKeepInv(State());
      isSending := false;
    }

    /** pauseSending */
    method PauseSending()
      requires Valid()
      modifies this`paused
      ensures Valid() && State() == Pause(old(State()))
    {
      QueueProperties.FlagsKeepInv(State());
      paused := true;
    }

    /** resumeSending */
    method ResumeSending()
      requires Valid()
      modifies this`paused
      ensures Valid() && State() == Resume(old(State()))
    {
      QueueProperties.FlagsKeepInv(State());
      paused := false;
    }
  }
}
