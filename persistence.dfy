/** The package queue file (AdjustIoPackageQueue) as the handler sees it.
    Java object serialization and the Android file API are not modelled byte by
    byte: the file is a value, and every way a read or a write can go wrong is a
    parameter chosen by the environment. */
module Persistence {

  /** What the queue file holds. */
  datatype Store<P> =
    | Absent                // no file yet: opening it throws FileNotFoundException
    | Holds(items: seq<P>)  // a serialized package list
    | Garbled               // anything that does not deserialize to a package list

  /** How a read attempt goes: ReadFailed stands for every exception the source
      catches while opening, deserializing, casting or closing the stream. */
  datatype ReadFault = ReadOk | ReadFailed

  /** How a write attempt goes. OpenFailed: openFileOutput throws, the file is
      not touched. StreamFailed: the file was opened (and so truncated) but
      the list did not reach it in full, leaving an unreadable file behind.
      A failure reported only by the final close, after the whole list was
      flushed, leaves the list in the file: it is WriteOk here, because the
      failure is only logged. */
  datatype WriteFault = WriteOk | OpenFailed | StreamFailed

  /** readPackageQueue: the stored list when it can be read, otherwise a fresh
      empty list. It never fails outward and never loads part of a list. */
  function Load<P>(file: Store<P>, fault: ReadFault): (q: seq<P>)
    ensures q == [] || (fault == ReadOk && file == Holds(q))
  {
    match file
    case Holds(items) => if fault == ReadOk then items else []
    case _ => []
  }

  /** writePackageQueue: the whole list overwrites the file; a failure is only
      logged, so the caller's in-memory list is never rolled back. */
  function Save<P>(file: Store<P>, q: seq<P>, fault: WriteFault): (r: Store<P>)
    ensures r == Holds(q) || r == file || r == Garbled
  {
    match fault
    case WriteOk => Holds(q)
    case OpenFailed => file
    case StreamFailed => Garbled
  }

  /** A list that was written successfully reads back unchanged. */
  lemma LoadAfterSave<P>(file: Store<P>, q: seq<P>)
    ensures Load(Save(file, q, WriteOk), ReadOk) == q
  {
  }

  /** Every load outcome other than a good read of a stored list is the empty list. */
  lemma LoadFailureIsEmpty<P>(file: Store<P>, fault: ReadFault)
    ensures !(fault == ReadOk && file.Holds?) ==> Load(file, fault) == []
    ensures fault == ReadOk && file.Holds? ==> Load(file, fault) == file.items
  {
  }

  /** A write that fails before the list reached the truncated file destroys what was stored before:
      the next load, however it goes, yields the empty list. */
  lemma StreamFailureLosesStore<P>(file: Store<P>, q: seq<P>, fault: ReadFault)
    ensures Load(Save(file, q, StreamFailed), fault) == []
  {
  }
}
