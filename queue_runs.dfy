/** Runs of handler-thread commands: the messages the handler drains one at a
    time (INIT first, then ADD, SEND_FIRST, SEND_NEXT) together with the three
    calls that set flags directly (close-first, pause, resume). */
module QueueRuns {
  import opened Persistence
  import opened QueueMachine
  import QueueProperties

  datatype Option<T> = None | Some(value: T)

  datatype Command<P> =
    | AddCmd(pkg: P, fault: WriteFault)
    | SendFirstCmd
    | SendNextCmd(fault: WriteFault)
    | CloseFirstCmd
    | PauseCmd
    | ResumeCmd

  /** One command. None: send-next on an empty queue, where remove(0) throws
      and the handler thread dies. */
  function Step<P>(m: Machine<P>, c: Command<P>): (r: Option<Machine<P>>)
  {
    match c
    case AddCmd(p, f) => Some(Add(m, p, f))
    case SendFirstCmd => Some(SendFirst(m))
    case SendNextCmd(f) => if |m.queue| == 0 then None else Some(SendNext(m, f))
    case CloseFirstCmd => Some(CloseFirst(m))
    case PauseCmd => Some(Pause(m))
    case ResumeCmd => Some(Resume(m))
  }

  /** The commands executed strictly one after the other. */
  function Run<P>(m: Machine<P>, cs: seq<Command<P>>): (r: Option<Machine<P>>)
    decreases |cs|
  {
    if cs == [] then Some(m)
    else match Step(m, cs[0])
      case None => None
      case Some(m1) => Run(m1, cs[1..])
  }

  /** Adds of the given packages, each with its write outcome. */
  function Adds<P>(ps: seq<P>, faults: seq<WriteFault>): (cs: seq<Command<P>>)
    requires |faults| == |ps|
    ensures |cs| == |ps|
  {
    if ps == [] then [] else [AddCmd(ps[0], faults[0])] + Adds(ps[1..], faults[1..])
  }

  /** Send-next calls, one per write outcome. */
  function Advances<P>(faults: seq<WriteFault>): (cs: seq<Command<P>>)
    ensures |cs| == |faults|
  {
    if faults == [] then [] else [SendNextCmd(faults[0])] + Advances(faults[1..])
  }

  /** A run of two parts is the second part run from where the first ended. */
  lemma {:induction false} RunAppend<P>(m: Machine<P>, a: seq<Command<P>>, b: seq<Command<P>>)
    ensures Run(m, a + b) == match Run(m, a) case None => None case Some(m1) => Run(m1, b)
    decreases |a|
  {
    if a == [] {
      assert a + b == b;
    } else {
      assert (a + b)[0] == a[0];
      assert (a + b)[1..] == a[1..] + b;
      match Step(m, a[0])
      case None =>
      case Some(m1) => RunAppend(m1, a[1..], b);
    }
  }

  lemma StepKeepsInv<P>(m: Machine<P>, c: Command<P>)
    requires Inv(m)
    ensures Step(m, c).Some? ==> Inv(Step(m, c).value)
  {
    match c
    case AddCmd(p, f) => QueueProperties.AddKeepsInv(m, p, f);
    case SendFirstCmd => QueueProperties.SendFirstKeepsInv(m);
    case SendNextCmd(f) => if |m.queue| > 0 { QueueProperties.SendNextKeepsInv(m, f); }
    case CloseFirstCmd => QueueProperties.FlagsKeepInv(m);
    case PauseCmd => QueueProperties.FlagsKeepInv(m);
    case ResumeCmd => QueueProperties.FlagsKeepInv(m);
  }

  /** Every state a run reaches keeps the invariant: FIFO order of sends, the
      queue as the unsent tail of history, and an outstanding send on the head. */
  lemma {:induction false} RunKeepsInv<P>(m: Machine<P>, cs: seq<Command<P>>)
    requires Inv(m)
    ensures Run(m, cs).Some? ==> Inv(Run(m, cs).value)
    decreases |cs|
  {
    if cs != [] {
      StepKeepsInv(m, cs[0]);
      if Step(m, cs[0]).Some? {
        RunKeepsInv(Step(m, cs[0]).value, cs[1..]);
      }
    }
  }

  /** The sends of every reachable state follow the order in which packages
      entered the queue, and an outstanding send is for the current head. */
  lemma ReachableSendsInOrder<P>(file: Store<P>, fault: ReadFault, cs: seq<Command<P>>)
    requires Run(Init(file, fault), cs).Some?
    ensures var r := Run(Init(file, fault), cs).value;
      && |r.sentAt| == |r.sent|
      && (forall i :: 0 <= i < |r.sent| ==> r.sentAt[i] < |r.history| && r.sent[i] == r.history[r.sentAt[i]])
      && (forall i, j :: 0 <= i < j < |r.sent| ==> r.sentAt[i] <= r.sentAt[j])
      && (r.isSending ==> |r.sent| > 0 && |r.queue| > 0 && r.sent[|r.sent| - 1] == r.queue[0])
  {
    QueueProperties.InitLoadsOrStartsEmpty(file, fault);
    RunKeepsInv(Init(file, fault), cs);
    var r := Run(Init(file, fault), cs).value;
    if r.isSending {
      QueueProperties.OutstandingSendIsHead(r);
    }
  }

  /** Every package removed from the head so far was handed over at least once. */
  ghost predicate NoSkip<P>(m: Machine<P>)
  {
    forall k :: 0 <= k < m.popped ==> k in m.sentAt
  }

  /** The run keeps to the request handler's side of the protocol: every
      send-next answers an outstanding send. */
  ghost predicate AnswersOutstanding<P>(m: Machine<P>, cs: seq<Command<P>>)
    decreases |cs|
  {
    cs == [] ||
    ((cs[0].SendNextCmd? ==> m.isSending) &&
     (Step(m, cs[0]).Some? ==> AnswersOutstanding(Step(m, cs[0]).value, cs[1..])))
  }

  lemma StepKeepsNoSkip<P>(m: Machine<P>, c: Command<P>)
    requires Inv(m) && NoSkip(m) && (c.SendNextCmd? ==> m.isSending)
    ensures Step(m, c).Some? && NoSkip(Step(m, c).value)
  {
    var r := Step(m, c).value;
    assert m.sentAt <= r.sentAt;
    forall k | 0 <= k < r.popped ensures k in r.sentAt {
      if k < m.popped {
        assert k in m.sentAt;
        var i :| 0 <= i < |m.sentAt| && m.sentAt[i] == k;
        assert r.sentAt[i] == k;
      } else {
        assert c.SendNextCmd? && k == m.popped;
        assert m.sentAt[|m.sentAt| - 1] == k;
        assert r.sentAt[|m.sentAt| - 1] == k;
      }
    }
  }

  lemma {:induction false} RunKeepsNoSkip<P>(m: Machine<P>, cs: seq<Command<P>>)
    requires Inv(m) && NoSkip(m) && AnswersOutstanding(m, cs)
    ensures Run(m, cs).Some? && NoSkip(Run(m, cs).value)
    decreases |cs|
  {
    if cs != [] {
      StepKeepsNoSkip(m, cs[0]);
      StepKeepsInv(m, cs[0]);
      RunKeepsNoSkip(Step(m, cs[0]).value, cs[1..]);
    }
  }

  /** No package is skipped: in a run from init in which every send-next answers
      an outstanding send, every package send-next removed had been handed to
      the request handler. (Without that protocol a package can be removed
      unsent: QueueProperties.SendNextWithoutSendSkipsHead.) */
  lemma RunNoSkip<P>(file: Store<P>, fault: ReadFault, cs: seq<Command<P>>)
    requires AnswersOutstanding(Init(file, fault), cs)
    ensures Run(Init(file, fault), cs).Some?
    ensures var r := Run(Init(file, fault), cs).value;
      && r.popped <= |r.history|
      && forall k :: 0 <= k < r.popped ==> k in r.sentAt && r.history[k] in r.sent
  {
    QueueProperties.InitLoadsOrStartsEmpty(file, fault);
    RunKeepsNoSkip(Init(file, fault), cs);
    RunKeepsInv(Init(file, fault), cs);
    var r := Run(Init(file, fault), cs).value;
    assert NoSkip(r);
    forall k | 0 <= k < r.popped ensures k in r.sentAt && r.history[k] in r.sent {
      assert k in r.sentAt;
      var i :| 0 <= i < |r.sentAt| && r.sentAt[i] == k;
      assert r.sent[i] == r.history[k];
    }
  }

  /** Commands that neither resolve an outstanding send (send-next) nor abandon
      it (close-first). */
  ghost predicate Unresolved<P>(cs: seq<Command<P>>)
  {
    forall i :: 0 <= i < |cs| ==> !cs[i].SendNextCmd? && !cs[i].CloseFirstCmd?
  }

  /** Single flight: however many adds, send-firsts, pauses and resumes run,
      at most one send is issued until send-next or close-first; none at all
      when a send was already outstanding. */
  lemma {:induction false} SingleFlight<P>(m: Machine<P>, cs: seq<Command<P>>)
    requires Unresolved(cs)
    ensures Run(m, cs).Some?
    ensures m.sent <= Run(m, cs).value.sent && |Run(m, cs).value.sent| <= |m.sent| + 1
    ensures m.isSending ==> Run(m, cs).value.sent == m.sent && Run(m, cs).value.isSending
    ensures |Run(m, cs).value.sent| > |m.sent| ==> Run(m, cs).value.isSending
    decreases |cs|
  {
    if cs != [] {
      var m1 := Step(m, cs[0]).value;
      assert Unresolved(cs[1..]) by {
        forall i | 0 <= i < |cs[1..]| ensures !cs[1..][i].SendNextCmd? && !cs[1..][i].CloseFirstCmd? {
          assert cs[1..][i] == cs[i + 1];
        }
      }
      SingleFlight(m1, cs[1..]);
    }
  }

  /** Once the head has been handed over, send-next after send-next delivers the
      rest of the queue, each package once and in queue order, and leaves the
      queue empty and no send outstanding. */
  lemma {:induction false} AdvancesDeliverRest<P>(m: Machine<P>, faults: seq<WriteFault>)
    requires m.isSending && !m.paused && |faults| == |m.queue| > 0
    ensures Run(m, Advances(faults)).Some?
    ensures var r := Run(m, Advances(faults)).value;
      r.sent == m.sent + m.queue[1..] && r.queue == [] && !r.isSending
    decreases |faults|
  {
    var cs: seq<Command<P>> := Advances(faults);
    var m1 := SendNext(m, faults[0]);
    assert Step(m, cs[0]) == Some(m1);
    QueueProperties.SendNextPopsAndChains(m, faults[0]);
    if |faults| == 1 {
      assert cs[1..] == [];
    } else {
      assert cs[1..] == Advances(faults[1..]);
      AdvancesDeliverRest(m1, faults[1..]);
      assert m.queue[1..] == [m.queue[1]] + m1.queue[1..];
    }
  }

  /** FIFO delivery: packages added to an idle, empty queue reach the request
      handler exactly in the order they were added, whatever the writes did,
      when the first is sent by send-first and each completes with send-next. */
  lemma FifoDelivery<P>(m: Machine<P>, ps: seq<P>, addFaults: seq<WriteFault>, nextFaults: seq<WriteFault>)
    requires m.queue == [] && !m.isSending && !m.paused
    requires |addFaults| == |nextFaults| == |ps| > 0
    ensures Run(m, Adds(ps, addFaults) + [SendFirstCmd] + Advances(nextFaults)).Some?
    ensures var r := Run(m, Adds(ps, addFaults) + [SendFirstCmd] + Advances(nextFaults)).value;
      r.sent == m.sent + ps && r.queue == [] && !r.isSending
  {
    var adds := Adds(ps, addFaults);
    var advances: seq<Command<P>> := Advances(nextFaults);
    var m1 := AddsAppend(m, ps, addFaults);
    var m2 := SendFirst(m1);
    assert m2.sent == m.sent + [ps[0]] && m2.queue == ps && m2.isSending;
    RunAppend(m, adds, [SendFirstCmd]);
    assert Run(m1, [SendFirstCmd]) == Some(m2);
    assert Run(m, adds + [SendFirstCmd]) == Some(m2);
    RunAppend(m, adds + [SendFirstCmd], advances);
    AdvancesDeliverRest(m2, nextFaults);
    var r := Run(m2, advances).value;
    assert Run(m, adds + [SendFirstCmd] + advances) == Some(r);
    HeadThenRest(m.sent, ps);
  }

  lemma HeadThenRest<P>(s: seq<P>, ps: seq<P>)
    requires |ps| > 0
    ensures s + [ps[0]] + ps[1..] == s + ps
  {
    assert [ps[0]] + ps[1..] == ps;
  }

  /** Adds only append: the run ends with the packages at the tail of the queue
      and changes neither flag nor the sends. */
  lemma {:induction false} AddsAppend<P>(m: Machine<P>, ps: seq<P>, faults: seq<WriteFault>) returns (r: Machine<P>)
    requires |faults| == |ps|
    ensures Run(m, Adds(ps, faults)) == Some(r)
    ensures r.queue == m.queue + ps && r.isSending == m.isSending && r.paused == m.paused && r.sent == m.sent
    decreases |ps|
  {
    if ps == [] {
      r := m;
    } else {
      var cs := Adds(ps, faults);
      assert cs[1..] == Adds(ps[1..], faults[1..]);
      r := AddsAppend(Add(m, ps[0], faults[0]), ps[1..], faults[1..]);
      assert m.queue + ps == m.queue + [ps[0]] + ps[1..];
    }
  }

  /** A run that starts with a command that succeeds continues from its result. */
  lemma RunFirst<P>(m: Machine<P>, c: Command<P>, rest: seq<Command<P>>)
    requires Step(m, c).Some?
    ensures Run(m, [c] + rest) == Run(Step(m, c).value, rest)
  {
    assert ([c] + rest)[1..] == rest;
  }

  /** A worked run: enqueue A, B, C; send-first hands over A; send-next removes A
      and hands over B by itself; close-first gives B up for now; send-first
      hands B over again; two send-nexts hand over C and empty the queue; a last
      send-first does nothing. The request handler sees A, B, B, C. */
  lemma ThreePackageRun() returns (r: Machine<string>)
    ensures Run(Init(Absent, ReadOk), [
          AddCmd("A", WriteOk), AddCmd("B", WriteOk), AddCmd("C", WriteOk),
          SendFirstCmd, SendNextCmd(WriteOk), CloseFirstCmd, SendFirstCmd,
          SendNextCmd(WriteOk), SendNextCmd(WriteOk), SendFirstCmd]) == Some(r)
    ensures r.sent == ["A", "B", "B", "C"] && r.queue == [] && !r.isSending && r.file == Holds([])
  {
    var m0: Machine<string> := Init(Absent, ReadOk);
    var m1 := Add(m0, "A", WriteOk);
    var m2 := Add(m1, "B", WriteOk);
    var m3 := Add(m2, "C", WriteOk);
    assert m3.queue == ["A", "B", "C"] && !m3.isSending && !m3.paused;
    var m4 := SendFirst(m3);
    assert m4.sent == ["A"] && m4.isSending;
    var m5 := SendNext(m4, WriteOk);
    assert m5.queue == ["B", "C"] && m5.sent == ["A", "B"] && m5.isSending;
    var m6 := CloseFirst(m5);
    var m7 := SendFirst(m6);
    assert m7.queue == ["B", "C"] && m7.sent == ["A", "B", "B"] && m7.isSending;
    var m8 := SendNext(m7, WriteOk);
    assert m8.queue == ["C"] && m8.sent == ["A", "B", "B", "C"] && m8.isSending;
    var m9 := SendNext(m8, WriteOk);
    assert m9.queue == [] && !m9.isSending;
    r := SendFirst(m9);
    RunFirst(m9, SendFirstCmd, []);
    RunFirst(m8, SendNextCmd(WriteOk), [SendFirstCmd]);
    RunFirst(m7, SendNextCmd(WriteOk), [SendNextCmd(WriteOk), SendFirstCmd]);
    RunFirst(m6, SendFirstCmd, [SendNextCmd(WriteOk), SendNextCmd(WriteOk), SendFirstCmd]);
    RunFirst(m5, CloseFirstCmd, [SendFirstCmd, SendNextCmd(WriteOk), SendNextCmd(WriteOk), SendFirstCmd]);
    RunFirst(m4, SendNextCmd(WriteOk), [CloseFirstCmd, SendFirstCmd, SendNextCmd(WriteOk), SendNextCmd(WriteOk), SendFirstCmd]);
    RunFirst(m3, SendFirstCmd, [SendNextCmd(WriteOk), CloseFirstCmd, SendFirstCmd, SendNextCmd(WriteOk), SendNextCmd(WriteOk), SendFirstCmd]);
    RunFirst(m2, AddCmd("C", WriteOk), [SendFirstCmd, SendNextCmd(WriteOk), CloseFirstCmd, SendFirstCmd, SendNextCmd(WriteOk), SendNextCmd(WriteOk), SendFirstCmd]);
    RunFirst(m1, AddCmd("B", WriteOk), [AddCmd("C", WriteOk), SendFirstCmd, SendNextCmd(WriteOk), CloseFirstCmd, SendFirstCmd, SendNextCmd(WriteOk), SendNextCmd(WriteOk), SendFirstCmd]);
    RunFirst(m0, AddCmd("A", WriteOk), [AddCmd("B", WriteOk), AddCmd("C", WriteOk), SendFirstCmd, SendNextCmd(WriteOk), CloseFirstCmd, SendFirstCmd, SendNextCmd(WriteOk), SendNextCmd(WriteOk), SendFirstCmd]);
  }
}
