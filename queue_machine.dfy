/** The package-queue state machine of QueuePackageHandler, as pure functions on
    a value. Each function is one internal method of the handler thread; the
    class in queue_handler.dfy is proved to follow these functions step by step. */
module QueueMachine {
  import opened Persistence

  /** The handler's state: the FIFO packageQueue, the single-flight guard
      isSending, the paused flag and the queue file; then bookkeeping that the
      source does not keep but its guarantees are about. */
  datatype Machine<P> = Machine(
    queue: seq<P>,
    isSending: bool,
    paused: bool,
    file: Store<P>,
    sent: seq<P>,      // every package handed to the request handler, oldest first
    history: seq<P>,   // every package that entered the queue: the loaded ones, then each add
    popped: nat,       // how many packages send-next has removed from the head
    sentAt: seq<nat>)  // sentAt[i] is the position in history of sent[i]

  /** initInternal: a fresh guard (false) and the queue read from the file. */
  function Init<P>(file: Store<P>, fault: ReadFault): (r: Machine<P>)
  {
    var loaded := Load(file, fault);
    Machine(loaded, false, false, file, [], loaded, 0, [])
  }

  /** A process restart: the in-memory state is dropped and a new handler is
      initialised from the same file. */
  function Restart<P>(m: Machine<P>, fault: ReadFault): (r: Machine<P>)
  {
    Init(m.file, fault)
  }

  /** addInternal: append at the tail, then write the whole queue. */
  function Add<P>(m: Machine<P>, p: P, fault: WriteFault): (r: Machine<P>)
  {
    var q := m.queue + [p];
    m.(queue := q, history := m.history + [p], file := Save(m.file, q, fault))
  }

  /** sendFirstInternal: nothing when the queue is empty, when paused, or when a
      send is already outstanding; otherwise raise the guard and hand the head
      to the request handler. */
  function SendFirst<P>(m: Machine<P>): (r: Machine<P>)
  {
    if |m.queue| == 0 then m
    else if m.paused then m
    else if m.isSending then m
    else m.(isSending := true, sent := m.sent + [m.queue[0]], sentAt := m.sentAt + [m.popped])
  }

  /** sendNextInternal: remove the head, write the queue, clear the guard and try
      to send the new head. remove(0) throws on an empty list, hence the requires. */
  function SendNext<P>(m: Machine<P>, fault: WriteFault): (r: Machine<P>)
    requires |m.queue| > 0
  {
    var q := m.queue[1..];
    SendFirst(m.(queue := q, popped := m.popped + 1, file := Save(m.file, q, fault), isSending := false))
  }

  /** closeFirstPackage: clear the guard; the head stays for a later retry. */
  function CloseFirst<P>(m: Machine<P>): (r: Machine<P>)
  {
    m.(isSending := false)
  }

  /** pauseSending */
  function Pause<P>(m: Machine<P>): (r: Machine<P>)
  {
    m.(paused := true)
  }

  /** resumeSending */
  function Resume<P>(m: Machine<P>): (r: Machine<P>)
  {
    m.(paused := false)
  }

  /** The queue is what is left of history after the popped packages; each sent
      package is a package of history that was at the head when it was sent;
      sends go through history in order; and an outstanding send is for the
      current head. */
  ghost predicate Inv<P>(m: Machine<P>)
  {
    && m.popped <= |m.history|
    && m.queue == m.history[m.popped..]
    && |m.sentAt| == |m.sent|
    && (forall i :: 0 <= i < |m.sentAt| ==>
          m.sentAt[i] <= m.popped && m.sentAt[i] < |m.history| && m.sent[i] == m.history[m.sentAt[i]])
    && (forall i, j :: 0 <= i < j < |m.sentAt| ==> m.sentAt[i] <= m.sentAt[j])
    && (m.isSending ==> |m.queue| > 0 && |m.sentAt| > 0 && m.sentAt[|m.sentAt| - 1] == m.popped)
  }
}
