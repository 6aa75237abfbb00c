/** A monitor for the journalling discipline.

    Every operation of this model reports what it does to an automaton: taking and
    dropping locks and buffer references, opening and closing a handle, asking for
    write access, changing a buffer, adding it to the transaction.  A step the
    discipline forbids sends the automaton to Violation, which it never leaves, so a
    monitor that is Running at the end of a call has seen no violation during it. */
module JournalMonitor {

  datatype Buffer =
    | BlockBitmap(group: nat)
    | DescriptorBlock(index: nat)
    | PrimarySuper
    | BackupSuper(group: nat)

  datatype Resource =
    | Reference(buffer: Buffer)
    | ResizingBit
    | BootInode
    | InodePair
    | Mapping
    | DataSemPair

  datatype Event =
    | Acquire(what: Resource)
    | Release(what: Resource)
    | Start(credits: nat)
    | Access(buffer: Buffer)
    | Change(buffer: Buffer)
    | Join(buffer: Buffer)
    | ChangeUnjournalled(buffer: Buffer)
    | Stop

  /** What one handle did between its start and its stop: the credits it asked for, the
      buffers it was granted write access to, in order, those it changed and those it
      added to the transaction. */
  datatype Transaction = Transaction(credits: nat, granted: seq<Buffer>, changed: set<Buffer>, joined: set<Buffer>)

  datatype Handle = Closed | Open(work: Transaction)

  datatype Monitor =
    | Running(handle: Handle, held: set<Resource>, finished: seq<Transaction>, unjournalled: seq<Buffer>)
    | Violation

  function Step(m: Monitor, e: Event): Monitor {
    if m.Violation? then Violation else
    match e
    case Acquire(r) => if r in m.held then Violation else m.(held := m.held + {r})
    case Release(r) => if r in m.held then m.(held := m.held - {r}) else Violation
    case Start(n) => if m.handle.Open? then Violation else m.(handle := Open(Transaction(n, [], {}, {})))
    case Stop =>
      if m.handle.Closed? then Violation
      else m.(handle := Closed, finished := m.finished + [m.handle.work])
    case Access(b) => if m.handle.Closed? then Violation else m.(handle := Open(Grant(m.handle.work, b)))
    case Change(b) =>
      // Write-ahead: only under an open handle that holds write access.
      if m.handle.Open? && b in m.handle.work.granted
      then m.(handle := Open(m.handle.work.(changed := m.handle.work.changed + {b})))
      else Violation
    case Join(b) =>
      if m.handle.Open? && b in m.handle.work.granted
      then m.(handle := Open(m.handle.work.(joined := m.handle.work.joined + {b})))
      else Violation
    case ChangeUnjournalled(b) =>
      if m.handle.Open? then Violation
      else m.(unjournalled := m.unjournalled + [b])
  }

  /** A buffer is granted once per handle. */
  function Grant(t: Transaction, b: Buffer): Transaction {
    if b in t.granted then t else t.(granted := t.granted + [b])
  }

  /** Every buffer granted costs a credit. */
  predicate WithinCredits(t: Transaction) {
    |t.granted| <= t.credits
  }

  /** Nothing is held and no handle is open. */
  predicate Idle(m: Monitor) {
    m.Running? && m.handle.Closed? && m.held == {}
  }
}
