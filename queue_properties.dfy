/** What each internal method of QueuePackageHandler promises about one call,
    and that every method keeps the queue invariant. */
module QueueProperties {
  import opened Persistence
  import opened QueueMachine

  /** Init clears the guard and loads the stored queue, or starts empty on any
      load failure; it issues no send. */
  lemma InitLoadsOrStartsEmpty<P>(file: Store<P>, fault: ReadFault)
    ensures !Init(file, fault).isSending && Init(file, fault).sent == []
    ensures fault == ReadOk && file.Holds? ==> Init(file, fault).queue == file.items
    ensures !(fault == ReadOk && file.Holds?) ==> Init(file, fault).queue == []
    ensures Inv(Init(file, fault))
  {
  }

  /** Add puts the package at the tail; earlier packages keep their positions,
      both flags are unchanged and nothing is sent. */
  lemma AddAppendsAtTail<P>(m: Machine<P>, p: P, fault: WriteFault)
    ensures var r := Add(m, p, fault);
      && |r.queue| == |m.queue| + 1
      && (forall i :: 0 <= i < |m.queue| ==> r.queue[i] == m.queue[i])
      && r.queue[|m.queue|] == p
      && r.isSending == m.isSending && r.paused == m.paused
      && r.sent == m.sent
  {
  }

  /** After a successful write the file holds exactly the in-memory queue, both
      after add and after send-next. */
  lemma WriteMirrorsQueue<P>(m: Machine<P>, p: P)
    ensures Add(m, p, WriteOk).file == Holds(Add(m, p, WriteOk).queue)
    ensures |m.queue| > 0 ==> SendNext(m, WriteOk).file == Holds(SendNext(m, WriteOk).queue)
  {
  }

  /** A write failure is only logged: apart from the file, add and send-next
      reach the same state whatever the write did. */
  lemma WriteFailureKeepsMemory<P>(m: Machine<P>, p: P, fault: WriteFault)
    ensures Add(m, p, fault).(file := m.file) == Add(m, p, WriteOk).(file := m.file)
    ensures |m.queue| > 0 ==>
      SendNext(m, fault).(file := m.file) == SendNext(m, WriteOk).(file := m.file)
  {
  }

  /** Send-first changes nothing when the queue is empty or sending is paused. */
  lemma SendFirstIdleWhenEmptyOrPaused<P>(m: Machine<P>)
    requires |m.queue| == 0 || m.paused
    ensures SendFirst(m) == m
  {
  }

  /** Single flight: while a send is outstanding, send-first changes nothing,
      so calling it again after it has sent issues no second send. */
  lemma SendFirstSingleFlight<P>(m: Machine<P>)
    ensures m.isSending ==> SendFirst(m) == m
    ensures SendFirst(SendFirst(m)) == SendFirst(m)
  {
  }

  /** Send-first issues a send exactly when the queue is non-empty, not paused
      and not already sending; that send is the head, the guard is raised and
      the queue is untouched. */
  lemma SendFirstHandsOverHead<P>(m: Machine<P>)
    ensures SendFirst(m).queue == m.queue && SendFirst(m).paused == m.paused
    ensures SendFirst(m).sent != m.sent <==> (|m.queue| > 0 && !m.paused && !m.isSending)
    ensures |m.queue| > 0 && !m.paused && !m.isSending ==>
      SendFirst(m).isSending && SendFirst(m).sent == m.sent + [m.queue[0]]
  {
  }

  /** Send-next removes exactly the head, keeps the order of the rest, and sends
      the new head if and only if one remains and sending is not paused. */
  lemma SendNextPopsAndChains<P>(m: Machine<P>, fault: WriteFault)
    requires |m.queue| > 0
    ensures SendNext(m, fault).queue == m.queue[1..]
    ensures SendNext(m, fault).paused == m.paused
    ensures |m.queue| > 1 && !m.paused ==>
      SendNext(m, fault).isSending && SendNext(m, fault).sent == m.sent + [m.queue[1]]
    ensures !(|m.queue| > 1 && !m.paused) ==>
      !SendNext(m, fault).isSending && SendNext(m, fault).sent == m.sent
  {
  }

  /** Close-first only clears the guard, so the next send-first retries the same head. */
  lemma CloseFirstRetainsHead<P>(m: Machine<P>)
    ensures CloseFirst(m).queue == m.queue && !CloseFirst(m).isSending && CloseFirst(m).paused == m.paused
    ensures CloseFirst(m).sent == m.sent && CloseFirst(m).file == m.file
    ensures |m.queue| > 0 && !m.paused ==>
      SendFirst(CloseFirst(m)).sent == m.sent + [m.queue[0]]
  {
  }

  /** sendNextInternal does not check that a send is outstanding: a send-next
      with none removes the head unsent. From a loaded queue [p, q], the only
      package handed over is q, and position 0 of the history is never sent. */
  lemma SendNextWithoutSendSkipsHead<P>(p: P, q: P)
    ensures var r := SendNext(Init(Holds([p, q]), ReadOk), WriteOk);
      r.sent == [q] && r.sentAt == [1] && r.popped == 1 && 0 !in r.sentAt && Inv(r)
  {
    var m := Init(Holds([p, q]), ReadOk);
    assert m.queue == [p, q] && !m.isSending && !m.paused;
    assert m.queue[1..] == [q];
  }

  /** Pause stops new sends and resume allows them again; neither touches the
      queue, the guard or the file. */
  lemma PauseResumeOnlyFlag<P>(m: Machine<P>)
    ensures Pause(m) == m.(paused := true) && Resume(m) == m.(paused := false)
    ensures SendFirst(Pause(m)).sent == m.sent
    ensures |m.queue| > 0 && !m.isSending ==>
      SendFirst(Resume(Pause(m))).sent == m.sent + [m.queue[0]]
  {
  }

  /** While the invariant holds, an outstanding send is for the current head. */
  lemma OutstandingSendIsHead<P>(m: Machine<P>)
    requires Inv(m) && m.isSending
    ensures |m.sent| > 0 && |m.queue| > 0 && m.sent[|m.sent| - 1] == m.queue[0]
  {
  }

  lemma AddKeepsInv<P>(m: Machine<P>, p: P, fault: WriteFault)
    requires Inv(m)
    ensures Inv(Add(m, p, fault))
  {
    assert (m.history + [p])[m.popped..] == m.history[m.popped..] + [p];
  }

  lemma SendFirstKeepsInv<P>(m: Machine<P>)
    requires Inv(m)
    ensures Inv(SendFirst(m))
  {
  }

  /** The intermediate state of send-next, before it calls send-first. */
  lemma PopKeepsInv<P>(m: Machine<P>, fault: WriteFault)
    requires Inv(m) && |m.queue| > 0
    ensures Inv(m.(queue := m.queue[1..], popped := m.popped + 1,
                   file := Save(m.file, m.queue[1..], fault), isSending := false))
  {
  }

  lemma SendNextKeepsInv<P>(m: Machine<P>, fault: WriteFault)
    requires Inv(m) && |m.queue| > 0
    ensures Inv(SendNext(m, fault))
  {
    PopKeepsInv(m, fault);
    SendFirstKeepsInv(m.(queue := m.queue[1..], popped := m.popped + 1,
                         file := Save(m.file, m.queue[1..], fault), isSending := false));
  }

  lemma FlagsKeepInv<P>(m: Machine<P>)
    requires Inv(m)
    ensures Inv(CloseFirst(m)) && Inv(Pause(m)) && Inv(Resume(m))
  {
  }

  /** Durability: a package added with a successful write is in the queue, at
      the same position, after a restart that reads the file successfully. */
  lemma RestartRecoversAdd<P>(m: Machine<P>, p: P)
    ensures Restart(Add(m, p, WriteOk), ReadOk).queue == m.queue + [p]
  {
  }

  /** Durability of send-next: after a successful write, a restart resumes at
      the package after the one that was removed. */
  lemma RestartRecoversSendNext<P>(m: Machine<P>)
    requires |m.queue| > 0
    ensures Restart(SendNext(m, WriteOk), ReadOk).queue == m.queue[1..]
  {
  }

  /** The file is overwritten in place: an add whose write fails after the file
      was opened loses the whole stored queue on the next restart, including
      the packages of earlier successful writes. */
  lemma FailedWriteLosesQueueOnRestart<P>(m: Machine<P>, p: P, fault: ReadFault)
    ensures Restart(Add(m, p, StreamFailed), fault).queue == []
  {
  }
}
