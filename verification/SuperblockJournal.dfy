/** What a superblock update does with its one transaction, for every enumeration of the
    backup groups and every pattern of failures. */
module SuperblockJournal {
  import opened Errno
  import opened JournalMonitor
  import opened Superblocks
  import opened SuperblockRuns

  /** The primary first, then copies in the order of their groups, all below `bound`. */
  predicate InOrder(granted: seq<Buffer>, bound: nat) {
    && |granted| > 0 && granted[0] == PrimarySuper
    && (forall i :: 0 < i < |granted| ==> granted[i].BackupSuper? && granted[i].group < bound)
    && (forall i, j :: 0 < i < j < |granted| ==> granted[i].group < granted[j].group)
  }

  /** Copies changed without a journal, each past every copy of the transaction. */
  predicate After(unjournalled: seq<Buffer>, granted: seq<Buffer>) {
    forall b, c :: b in unjournalled && c in granted ==> b.BackupSuper? && (c.BackupSuper? ==> c.group < b.group)
  }

  /** The copies whose write access counts although the copy itself is not counted. */
  predicate NoLateBadCrc(m: Mount, a: Answers)
    requires Contract(m, a)
  {
    forall g :: 0 <= g < m.Groups() ==> a.copies[g].dirtyErr != -EFSBADCRC && a.copies[g].syncErr != -EFSBADCRC
  }

  /** The transaction of this call once it is stopped, and what changed outside it. */
  predicate Stopped(n: Monitor, s: Monitor, bound: nat)
    requires n.Running?
  {
    && s.Running? && s.handle.Closed? && s.held == n.held
    && |s.finished| == |n.finished| + 1 && s.finished[..|n.finished|] == n.finished
    && |n.unjournalled| <= |s.unjournalled| && s.unjournalled[..|n.unjournalled|] == n.unjournalled
    && var t := s.finished[|n.finished|];
       && t.credits == 3 && InOrder(t.granted, bound)
       && After(s.unjournalled[|n.unjournalled|..], t.granted)
  }

  predicate Started(n: Monitor, s: Monitor, bound: nat)
    requires n.Running?
  {
    && s.Running? && s.handle.Open? && s.held == n.held && s.finished == n.finished && s.unjournalled == n.unjournalled
    && s.handle.work.credits == 3 && InOrder(s.handle.work.granted, bound)
  }

  /** The loop's invariant, seen from the monitor n the update began with. */
  predicate JournalOk(n: Monitor, p: Pass)
    requires n.Running?
  {
    var bound := if p.exit.Looping? then p.grp else p.grp + 1;
    if p.exit.Out? || !p.handle then Stopped(n, p.monitor, bound) else Started(n, p.monitor, bound)
  }

  /** How many credits the loop has used, when no failure is lost from the count. */
  predicate CreditsOk(n: Monitor, p: Pass)
    requires n.Running? && JournalOk(n, p)
  {
    if p.exit.Out? || !p.handle then |p.monitor.finished[|n.finished|].granted| <= 3
    else if p.exit.OutJournal? then |p.monitor.handle.work.granted| <= 3
    else 0 <= p.counted <= 1 && |p.monitor.handle.work.granted| <= 1 + p.counted
  }

  lemma BackupJournal(m: Mount, a: CopyAnswers, n: Monitor, s: Monitor, grp: nat, sb: Superblock)
    requires grp < m.Groups() && n.Running? && Started(n, s, grp)
    ensures var r := BackupMonitor(m, s, a, true, grp, sb);
      && Started(n, r, grp + 1)
      && |r.handle.work.granted| == |s.handle.work.granted| + (if Reaches(m, a, true, grp) then 1 else 0)
  {
  }

  lemma StopsAfterStart(n: Monitor, s: Monitor, bound: nat)
    requires n.Running? && Started(n, s, bound)
    ensures Stopped(n, Step(s, Stop), bound)
  {
  }

  lemma BackupUnjournalled(m: Mount, a: CopyAnswers, n: Monitor, s: Monitor, grp: nat, sb: Superblock)
    requires grp < m.Groups() && n.Running? && Stopped(n, s, grp)
    ensures var r := BackupMonitor(m, s, a, false, grp, sb);
      Stopped(n, r, grp + 1) && r.finished == s.finished
  {
  }

  lemma WiderBound(n: Monitor, s: Monitor, low: nat, high: nat)
    requires n.Running? && low <= high
    ensures Started(n, s, low) ==> Started(n, s, high)
    ensures Stopped(n, s, low) ==> Stopped(n, s, high)
  {
  }

  lemma TurnJournal(m: Mount, a: Answers, list: nat -> nat, f: Callback, n: Monitor, p: Pass)
    requires Contract(m, a) && PassOk(m, list, p) && p.grp < m.Groups() && p.exit.Looping?
    requires n.Running? && JournalOk(n, p)
    ensures JournalOk(n, Turn(m, a, list, f, p))
  {
    hide Started, Stopped, BackupMonitor, BackupAfter, BackupCode, Step;
    var q, r := Body(m, a, f, p), Turn(m, a, list, f, p);
    if q.exit.Looping? {
      RemainingStep(m, a, list, f, p, 0);
    }
    if p.grp == m.primaryGroup {
      WiderBound(n, p.monitor, p.grp, r.grp);
    } else {
      if p.handle {
        BackupJournal(m, a.copies[p.grp], n, p.monitor, p.grp, p.backups[p.grp]);
        StopsAfterStart(n, BackupMonitor(m, p.monitor, a.copies[p.grp], true, p.grp, p.backups[p.grp]), p.grp + 1);
      } else {
        BackupUnjournalled(m, a.copies[p.grp], n, p.monitor, p.grp, p.backups[p.grp]);
      }
      if q.exit.Looping? {
        WiderBound(n, q.monitor, p.grp + 1, r.grp);
      }
    }
  }

  lemma TurnCredits(m: Mount, a: Answers, list: nat -> nat, f: Callback, n: Monitor, p: Pass)
    requires Contract(m, a) && PassOk(m, list, p) && p.grp < m.Groups() && p.exit.Looping?
    requires n.Running? && JournalOk(n, p) && JournalOk(n, Turn(m, a, list, f, p))
    requires NoLateBadCrc(m, a) && CreditsOk(n, p)
    ensures CreditsOk(n, Turn(m, a, list, f, p))
  {
    if p.grp != m.primaryGroup {
      if p.handle {
        BackupJournal(m, a.copies[p.grp], n, p.monitor, p.grp, p.backups[p.grp]);
      } else {
        BackupUnjournalled(m, a.copies[p.grp], n, p.monitor, p.grp, p.backups[p.grp]);
      }
    }
  }

  lemma {:induction false} LoopJournal(m: Mount, a: Answers, list: nat -> nat, f: Callback, n: Monitor, p: Pass)
    requires Contract(m, a) && PassOk(m, list, p) && p.exit.Looping?
    requires n.Running? && JournalOk(n, p)
    ensures JournalOk(n, Loop(m, a, list, f, p))
    ensures NoLateBadCrc(m, a) && CreditsOk(n, p) ==> CreditsOk(n, Loop(m, a, list, f, p))
    decreases m.Groups() - p.grp
  {
    if p.grp < m.Groups() {
      TurnJournal(m, a, list, f, n, p);
      if NoLateBadCrc(m, a) && CreditsOk(n, p) {
        TurnCredits(m, a, list, f, n, p);
      }
      if Turn(m, a, list, f, p).exit.Looping? {
        RemainingStep(m, a, list, f, p, 0);
        LoopJournal(m, a, list, f, n, Turn(m, a, list, f, p));
      }
    }
  }

  // ---- what became of the buffers

  /** The transaction of this call, open or stopped. */
  function OurWork(n: Monitor, s: Monitor): Transaction
    requires n.Running? && s.Running? && (s.handle.Open? || |s.finished| == |n.finished| + 1)
  {
    if s.handle.Open? then s.handle.work else s.finished[|n.finished|]
  }

  /** A group whose copy the loop may visit. */
  ghost predicate IsCopy(m: Mount, list: nat -> nat, g: nat) {
    g < m.Groups() && m.hasSuper[g] && g != m.primaryGroup && Visited(list, g)
  }

  predicate BadCopy(m: Mount, backups: seq<Superblock>, b: Buffer) {
    b.BackupSuper? && b.group < |backups| && ChecksumBad(m, backups[b.group])
  }

  function DirtyErr(a: Answers, b: Buffer): int {
    if b.BackupSuper? && b.group < |a.copies| then a.copies[b.group].dirtyErr else a.primary.dirtyErr
  }

  /** Write access was granted to the primary and to copies of enumerated groups.  All of
      them were changed but the copies whose checksum was bad, and all that were changed
      joined the transaction but those whose dirty call failed. */
  ghost predicate Accounted(m: Mount, a: Answers, list: nat -> nat, backups: seq<Superblock>, t: Transaction) {
    && (forall b :: b in t.granted ==> b.PrimarySuper? || (b.BackupSuper? && IsCopy(m, list, b.group)))
    && (forall b :: b in t.changed <==> b in t.granted && !BadCopy(m, backups, b))
    && (forall b :: b in t.joined <==> b in t.changed && DirtyErr(a, b) == 0)
  }

  /** Inside the loop: the copies still to come are as they were. */
  predicate Untouched(backups: seq<Superblock>, p: Pass) {
    && |p.backups| == |backups|
    && (p.exit.Looping? ==> forall g :: p.grp <= g < |backups| ==> p.backups[g] == backups[g])
  }

  /** Inside the loop: no changed buffer has met a failure that counts. */
  predicate DirtyForgiven(a: Answers, t: Transaction) {
    forall b :: b in t.changed ==> Forgiven(DirtyErr(a, b))
  }

  ghost predicate AccountOk(m: Mount, a: Answers, list: nat -> nat, backups: seq<Superblock>, n: Monitor, p: Pass)
    requires n.Running? && JournalOk(n, p)
  {
    && Untouched(backups, p)
    && Accounted(m, a, list, backups, OurWork(n, p.monitor))
    && (p.exit.Looping? ==> DirtyForgiven(a, OurWork(n, p.monitor)))
  }

  /** What one copy adds to the transaction. */
  function CopyWork(m: Mount, a: CopyAnswers, t: Transaction, grp: nat, sb: Superblock): Transaction
    requires grp < m.Groups()
  {
    var b := BackupSuper(grp);
    if !Reaches(m, a, true, grp) then t
    else if ChecksumBad(m, sb) then Grant(t, b)
    else
      var changed := Grant(t, b).(changed := t.changed + {b});
      if a.dirtyErr != 0 then changed else changed.(joined := t.joined + {b})
  }

  lemma BackupWork(m: Mount, a: CopyAnswers, s: Monitor, grp: nat, sb: Superblock)
    requires grp < m.Groups() && s.Running? && s.handle.Open?
    ensures BackupMonitor(m, s, a, true, grp, sb) == s.(handle := Open(CopyWork(m, a, s.handle.work, grp, sb)))
  {
  }

  lemma CopyAccounts(m: Mount, a: Answers, list: nat -> nat, backups: seq<Superblock>, t: Transaction, grp: nat)
    requires Contract(m, a) && |backups| == m.Groups() && grp < m.Groups()
    requires Visited(list, grp) && grp != m.primaryGroup && BackupSuper(grp) !in t.granted
    requires Accounted(m, a, list, backups, t)
    ensures Accounted(m, a, list, backups, CopyWork(m, a.copies[grp], t, grp, backups[grp]))
  {
    var r, b := CopyWork(m, a.copies[grp], t, grp, backups[grp]), BackupSuper(grp);
    if Reaches(m, a.copies[grp], true, grp) {
      assert r.granted == t.granted + [b];
    }
  }

  /** One turn adds to the transaction what its copy adds, if the handle is there. */
  lemma TurnWork(m: Mount, a: Answers, list: nat -> nat, f: Callback, n: Monitor, p: Pass)
    requires Contract(m, a) && PassOk(m, list, p) && p.grp < m.Groups() && p.exit.Looping?
    requires n.Running? && JournalOk(n, p) && JournalOk(n, Turn(m, a, list, f, p))
    ensures OurWork(n, Turn(m, a, list, f, p).monitor)
         == if p.grp == m.primaryGroup || !p.handle then OurWork(n, p.monitor)
            else CopyWork(m, a.copies[p.grp], OurWork(n, p.monitor), p.grp, p.backups[p.grp])
  {
    if p.grp != m.primaryGroup {
      if p.handle {
        BackupWork(m, a.copies[p.grp], p.monitor, p.grp, p.backups[p.grp]);
      } else {
        BackupUnjournalled(m, a.copies[p.grp], n, p.monitor, p.grp, p.backups[p.grp]);
      }
    }
  }

  /** A turn that is not the last has met no failure that counts. */
  lemma TurnForgives(m: Mount, a: Answers, list: nat -> nat, f: Callback, p: Pass, t: Transaction)
    requires Contract(m, a) && PassOk(m, list, p) && p.grp < m.Groups() && p.exit.Looping?
    requires p.grp != m.primaryGroup && p.handle && Turn(m, a, list, f, p).exit.Looping?
    requires DirtyForgiven(a, t)
    ensures DirtyForgiven(a, CopyWork(m, a.copies[p.grp], t, p.grp, p.backups[p.grp]))
  {
  }

  lemma TurnUntouched(m: Mount, a: Answers, list: nat -> nat, f: Callback, backups: seq<Superblock>, p: Pass)
    requires Contract(m, a) && PassOk(m, list, p) && p.grp < m.Groups() && p.exit.Looping?
    requires Untouched(backups, p)
    ensures Untouched(backups, Turn(m, a, list, f, p))
  {
    if Turn(m, a, list, f, p).exit.Looping? {
      RemainingStep(m, a, list, f, p, 0);
    }
  }

  lemma TurnAccounts(m: Mount, a: Answers, list: nat -> nat, f: Callback, backups: seq<Superblock>, n: Monitor, p: Pass)
    requires Contract(m, a) && PassOk(m, list, p) && p.grp < m.Groups() && p.exit.Looping?
    requires n.Running? && JournalOk(n, p) && JournalOk(n, Turn(m, a, list, f, p)) && |backups| == m.Groups()
    requires AccountOk(m, a, list, backups, n, p)
    ensures AccountOk(m, a, list, backups, n, Turn(m, a, list, f, p))
  {
    var t := OurWork(n, p.monitor);
    TurnWork(m, a, list, f, n, p);
    TurnUntouched(m, a, list, f, backups, p);
    if p.grp != m.primaryGroup && p.handle {
      assert BackupSuper(p.grp) !in t.granted;
      assert Visited(list, p.grp);
      CopyAccounts(m, a, list, backups, t, p.grp);
      if Turn(m, a, list, f, p).exit.Looping? {
        TurnForgives(m, a, list, f, p, t);
      }
    }
  }

  lemma {:induction false} LoopAccounts(m: Mount, a: Answers, list: nat -> nat, f: Callback,
                                        backups: seq<Superblock>, n: Monitor, p: Pass)
    requires Contract(m, a) && PassOk(m, list, p) && p.exit.Looping? && |backups| == m.Groups()
    requires n.Running? && JournalOk(n, p) && AccountOk(m, a, list, backups, n, p)
    ensures JournalOk(n, Loop(m, a, list, f, p)) && AccountOk(m, a, list, backups, n, Loop(m, a, list, f, p))
    decreases m.Groups() - p.grp
  {
    if p.grp < m.Groups() {
      TurnJournal(m, a, list, f, n, p);
      TurnAccounts(m, a, list, f, backups, n, p);
      if Turn(m, a, list, f, p).exit.Looping? {
        RemainingStep(m, a, list, f, p, 0);
        LoopAccounts(m, a, list, f, backups, n, Turn(m, a, list, f, p));
      }
    }
  }

  // ---- every exit

  /** The one transaction of an update. */
  function Ours(n: Monitor, s: Monitor): Transaction
    requires n.Running? && s.Running? && |s.finished| == |n.finished| + 1
  {
    s.finished[|n.finished|]
  }

  /** What the primary adds to the transaction, once it has write access. */
  function PrimaryWork(a: CopyAnswers): Transaction {
    Transaction(3, [PrimarySuper], {PrimarySuper}, if a.dirtyErr == 0 then {PrimarySuper} else {})
  }

  lemma PrimaryAccounts(m: Mount, a: Answers, list: nat -> nat, backups: seq<Superblock>)
    ensures Accounted(m, a, list, backups, PrimaryWork(a.primary))
  {
  }

  lemma PrimarySteps(n: Monitor, a: CopyAnswers)
    requires n.Running? && n.handle.Closed? && a.accessErr == 0
    ensures PrimaryMonitor(Step(n, Start(3)), a) == n.(handle := Open(PrimaryWork(a)))
  {
    var granted := Step(Step(n, Start(3)), Access(PrimarySuper));
    assert granted.handle.work.granted == [PrimarySuper];
    var changed := Step(granted, Change(PrimarySuper));
    assert changed.handle.work.changed == {PrimarySuper};
  }

  lemma PrimaryJournal(n: Monitor, a: CopyAnswers)
    requires n.Running? && n.handle.Closed?
    ensures var s := PrimaryMonitor(Step(n, Start(3)), a);
      && s.Running? && s.handle.Open?
      && (if a.accessErr != 0 then s == Step(n, Start(3))
          else Started(n, s, 0) && Stopped(n, Step(s, Stop), 0) && s.handle.work == PrimaryWork(a))
  {
    if a.accessErr == 0 {
      PrimarySteps(n, a);
      StopsAfterStart(n, n.(handle := Open(PrimaryWork(a))), 0);
    }
  }

  /** The monitor of an update whose loop has ended in p. */
  function LastMonitor(p: Pass): Monitor {
    if p.exit.Out? || !p.handle then p.monitor else Step(p.monitor, Stop)
  }

  lemma LastStop(n: Monitor, p: Pass)
    requires n.Running? && JournalOk(n, p)
    ensures var s := LastMonitor(p);
      && (exists bound :: Stopped(n, s, bound))
      && Ours(n, s) == OurWork(n, p.monitor)
      && (CreditsOk(n, p) ==> WithinCredits(Ours(n, s)))
  {
    assert Stopped(n, LastMonitor(p), if p.exit.Looping? then p.grp else p.grp + 1);
  }

  /** The handle has been stopped, and what it did is in order and accounted for. */
  ghost predicate ExitOk(m: Mount, a: Answers, list: nat -> nat, backups: seq<Superblock>, n: Monitor, s: Monitor)
    requires Contract(m, a) && n.Running?
  {
    && (exists bound :: Stopped(n, s, bound))
    && Accounted(m, a, list, backups, Ours(n, s))
    && (NoLateBadCrc(m, a) ==> WithinCredits(Ours(n, s)))
  }

  /** An update that fails at the primary, past its write access. */
  lemma PrimaryExit(m: Mount, a: Answers, list: nat -> nat, backups: seq<Superblock>, n: Monitor)
    requires Contract(m, a) && n.Running? && n.handle.Closed? && a.primary.accessErr == 0
    ensures ExitOk(m, a, list, backups, n, Step(PrimaryMonitor(Step(n, Start(3)), a.primary), Stop))
  {
    PrimaryJournal(n, a.primary);
    PrimaryAccounts(m, a, list, backups);
    var s := Step(PrimaryMonitor(Step(n, Start(3)), a.primary), Stop);
    assert Stopped(n, s, 0) && Ours(n, s) == PrimaryWork(a.primary);
  }

  /** The loop's invariants hold at its start, under the answers that let it start. */
  lemma BegunOk(m: Mount, a: Answers, list: nat -> nat, backups: seq<Superblock>, n: Monitor)
    requires Contract(m, a) && Increasing(list) && |backups| == m.Groups()
    requires n.Running? && n.handle.Closed? && PrimaryCode(a.primary) == 0
    ensures PassOk(m, list, Begun(a, backups, n))
    ensures JournalOk(n, Begun(a, backups, n)) && CreditsOk(n, Begun(a, backups, n))
    ensures AccountOk(m, a, list, backups, n, Begun(a, backups, n))
  {
    PrimaryJournal(n, a.primary);
    PrimaryAccounts(m, a, list, backups);
  }

  /** An update that reaches its loop. */
  lemma LoopExit(m: Mount, a: Answers, list: nat -> nat, f: Callback, backups: seq<Superblock>, n: Monitor)
    requires Contract(m, a) && Increasing(list) && |backups| == m.Groups()
    requires n.Running? && n.handle.Closed? && PrimaryCode(a.primary) == 0
    ensures ExitOk(m, a, list, backups, n, LastMonitor(Loop(m, a, list, f, Begun(a, backups, n))))
  {
    var p := Begun(a, backups, n);
    BegunOk(m, a, list, backups, n);
    LoopJournal(m, a, list, f, n, p);
    LoopAccounts(m, a, list, f, backups, n, p);
    LastStop(n, Loop(m, a, list, f, p));
  }

  /** On every exit, whatever failed: the handle, once started, has been stopped exactly
      once; nothing is left held; write access came before each change; the primary was
      granted first and the copies after it in the order of their groups; and whatever
      was changed without the journal was changed after the stop, in later groups.  What
      became of each buffer is accounted for.  When no copy reports -EFSBADCRC after its
      write access, three credits suffice. */
  lemma EveryExitJournals(m: Mount, a: Answers, list: nat -> nat, f: Callback,
                          primary: Superblock, backups: seq<Superblock>, n: Monitor)
    requires Contract(m, a) && Increasing(list) && |backups| == m.Groups()
    requires n.Running? && n.handle.Closed?
    ensures var s := Update(m, a, list, f, primary, backups, n).monitor;
      if a.startErr != 0 then s == n
      else if a.primary.accessErr != 0 then s == n.(finished := n.finished + [Transaction(3, [], {}, {})])
      else ExitOk(m, a, list, backups, n, s)
  {
    if a.startErr == 0 {
      if PrimaryCode(a.primary) == 0 {
        LoopExit(m, a, list, f, backups, n);
      } else if a.primary.accessErr == 0 {
        PrimaryExit(m, a, list, backups, n);
      }
    }
  }

  /** Together with the RESIZING bit: idle before, idle after, whatever happens. */
  lemma EveryExitIsIdle(m: Mount, a: Answers, list: nat -> nat, f: Callback,
                        primary: Superblock, backups: seq<Superblock>, n: Monitor)
    requires Contract(m, a) && Increasing(list) && |backups| == m.Groups()
    requires Idle(n)
    ensures var s := Update(m, a, list, f, primary, backups, Step(n, Acquire(ResizingBit))).monitor;
      Idle(Step(s, Release(ResizingBit)))
  {
    EveryExitJournals(m, a, list, f, primary, backups, Step(n, Acquire(ResizingBit)));
  }

  /** When an update returns 0, everything it changed under the handle is in the
      transaction, exactly unless a dirty call of a changed copy answered -EFSBADCRC. */
  lemma ZeroMeansJoinedIff(m: Mount, a: Answers, list: nat -> nat, f: Callback,
                           primary: Superblock, backups: seq<Superblock>, n: Monitor)
    requires Contract(m, a) && Increasing(list) && |backups| == m.Groups()
    requires n.Running? && n.handle.Closed?
    requires Update(m, a, list, f, primary, backups, n).err == 0
    ensures var s := Update(m, a, list, f, primary, backups, n).monitor;
      && s.Running? && |s.finished| == |n.finished| + 1
      && (Ours(n, s).joined == Ours(n, s).changed <==>
          forall b :: b in Ours(n, s).changed ==> DirtyErr(a, b) != -EFSBADCRC)
  {
    var p := Begun(a, backups, n);
    BegunOk(m, a, list, backups, n);
    LoopError(m, a, list, f, p);
    LoopAccounts(m, a, list, f, backups, n, p);
    LastStop(n, Loop(m, a, list, f, p));
    var t := Ours(n, Update(m, a, list, f, primary, backups, n).monitor);
    forall b | b in t.changed
      ensures b in t.joined <==> DirtyErr(a, b) != -EFSBADCRC
    {
      assert Forgiven(DirtyErr(a, b)) && DirtyErr(a, b) <= 0;
    }
  }

  // ---- which copies are granted, and which are written outside the journal

  /** What was changed outside the journal since n. */
  function Unjournalled(n: Monitor, s: Monitor): seq<Buffer>
    requires n.Running? && s.Running? && |n.unjournalled| <= |s.unjournalled|
  {
    s.unjournalled[|n.unjournalled|..]
  }

  predicate UnjournalledOk(n: Monitor, p: Pass)
    requires n.Running?
  {
    JournalOk(n, p) && |n.unjournalled| <= |p.monitor.unjournalled|
  }

  /** One turn writes a copy outside the journal only past the stop. */
  lemma TurnUnjournalled(m: Mount, a: Answers, list: nat -> nat, f: Callback, n: Monitor, p: Pass)
    requires Contract(m, a) && PassOk(m, list, p) && p.grp < m.Groups() && p.exit.Looping?
    requires n.Running? && JournalOk(n, p)
    ensures var s, q := p.monitor, Turn(m, a, list, f, p);
      && JournalOk(n, q)
      && q.monitor.unjournalled
           == if p.grp != m.primaryGroup && !p.handle && Reaches(m, a.copies[p.grp], false, p.grp)
                 && !ChecksumBad(m, p.backups[p.grp])
              then s.unjournalled + [BackupSuper(p.grp)] else s.unjournalled
  {
    hide InOrder, After, BackupCode, BackupAfter;
    TurnJournal(m, a, list, f, n, p);
    if p.grp != m.primaryGroup && p.handle {
      BackupWork(m, a.copies[p.grp], p.monitor, p.grp, p.backups[p.grp]);
    }
  }

  /** The copy of group g is granted exactly when it is met under the handle and gets that
      far, and is written outside the journal exactly when it is met past the stop and is
      good. */
  lemma {:induction false} LoopGrants(m: Mount, a: Answers, list: nat -> nat, f: Callback, n: Monitor, p: Pass, g: nat)
    requires Contract(m, a) && PassOk(m, list, p) && p.exit.Looping? && g < m.Groups()
    requires n.Running? && UnjournalledOk(n, p)
    ensures var r, met, b := Loop(m, a, list, f, p), Met(m, a, list, f, p, g), BackupSuper(g);
      && UnjournalledOk(n, r)
      && (b in OurWork(n, r.monitor).granted <==>
          b in OurWork(n, p.monitor).granted || (met.UnderHandle? && Reaches(m, a.copies[g], true, g)))
      && (b in Unjournalled(n, r.monitor) <==>
          b in Unjournalled(n, p.monitor) || (met.AfterStop? && Good(m, a, g, p.backups[g])))
    decreases m.Groups() - p.grp
  {
    if p.grp < m.Groups() {
      var q := Turn(m, a, list, f, p);
      TurnMeets(m, a, list, f, n, p, g);
      if q.exit.Looping? {
        RemainingStep(m, a, list, f, p, g);
        TurnContents(m, a, list, f, p, g);
        LoopGrants(m, a, list, f, n, q, g);
        if g == p.grp {
          Past(list, q, m, g);
          NotMet(m, a, list, f, q, g);
        }
      }
    }
  }

  /** The same for one turn. */
  lemma TurnMeets(m: Mount, a: Answers, list: nat -> nat, f: Callback, n: Monitor, p: Pass, g: nat)
    requires Contract(m, a) && PassOk(m, list, p) && p.grp < m.Groups() && p.exit.Looping? && g < m.Groups()
    requires n.Running? && UnjournalledOk(n, p)
    ensures var q, b := Turn(m, a, list, f, p), BackupSuper(g);
      var here := g == p.grp && g != m.primaryGroup;
      && UnjournalledOk(n, q)
      && (b in OurWork(n, q.monitor).granted <==>
          b in OurWork(n, p.monitor).granted || (here && p.handle && Reaches(m, a.copies[g], true, g)))
      && (b in Unjournalled(n, q.monitor) <==>
          b in Unjournalled(n, p.monitor) || (here && !p.handle && Good(m, a, g, p.backups[g])))
  {
    TurnUnjournalled(m, a, list, f, n, p);
    TurnWork(m, a, list, f, n, p);
    hide Turn, JournalOk, Step, BackupMonitor, BackupCode, BackupAfter;
    if p.grp != m.primaryGroup && p.handle {
      CopyMeets(m, a.copies[p.grp], OurWork(n, p.monitor), p.grp, p.backups[p.grp]);
    } else {
      Appended(p.monitor.unjournalled, BackupSuper(p.grp), |n.unjournalled|);
    }
  }

  lemma Appended(s: seq<Buffer>, b: Buffer, n: nat)
    requires n <= |s|
    ensures (s + [b])[n..] == s[n..] + [b]
  {
  }

  lemma CopyMeets(m: Mount, a: CopyAnswers, t: Transaction, grp: nat, sb: Superblock)
    requires grp < m.Groups()
    ensures forall b :: b in CopyWork(m, a, t, grp, sb).granted <==>
      b in t.granted || (b == BackupSuper(grp) && Reaches(m, a, true, grp))
  {
  }

  /** What the monitor s tells about the copy of group g. */
  ghost predicate TellsWrites(m: Mount, a: Answers, n: Monitor, s: Monitor, met: Meeting, g: nat, sb: Superblock)
    requires Contract(m, a) && g < m.Groups() && n.Running?
  {
    && s.Running? && |s.finished| == |n.finished| + 1 && |n.unjournalled| <= |s.unjournalled|
    && (BackupSuper(g) in Ours(n, s).granted <==> met.UnderHandle? && Reaches(m, a.copies[g], true, g))
    && (BackupSuper(g) in Unjournalled(n, s) <==> met.AfterStop? && Good(m, a, g, sb))
  }

  lemma LoopTells(m: Mount, a: Answers, list: nat -> nat, f: Callback, backups: seq<Superblock>, n: Monitor, g: nat)
    requires Contract(m, a) && Increasing(list) && |backups| == m.Groups() && g < m.Groups()
    requires n.Running? && n.handle.Closed? && PrimaryCode(a.primary) == 0
    ensures PassOk(m, list, Begun(a, backups, n))
    ensures TellsWrites(m, a, n, LastMonitor(Loop(m, a, list, f, Begun(a, backups, n))),
                        Met(m, a, list, f, Begun(a, backups, n), g), g, backups[g])
  {
    BegunOk(m, a, list, backups, n);
    BegunTells(a, backups, n, g);
    hide Loop, Met, Begun, LastMonitor, BackupAfter, Started, Stopped;
    LoopGrants(m, a, list, f, n, Begun(a, backups, n), g);
    LastTells(n, Loop(m, a, list, f, Begun(a, backups, n)));
  }

  /** Nothing of the copies yet. */
  lemma BegunTells(a: Answers, backups: seq<Superblock>, n: Monitor, g: nat)
    requires n.Running? && n.handle.Closed? && PrimaryCode(a.primary) == 0
    ensures UnjournalledOk(n, Begun(a, backups, n)) && Begun(a, backups, n).backups == backups
    ensures BackupSuper(g) !in OurWork(n, Begun(a, backups, n).monitor).granted
    ensures Unjournalled(n, Begun(a, backups, n).monitor) == []
  {
    PrimarySteps(n, a.primary);
    PrimaryJournal(n, a.primary);
  }

  /** The last stop tells nothing new. */
  lemma LastTells(n: Monitor, p: Pass)
    requires n.Running? && UnjournalledOk(n, p)
    ensures var s := LastMonitor(p);
      && s.Running? && |s.finished| == |n.finished| + 1 && Ours(n, s) == OurWork(n, p.monitor)
      && s.unjournalled == p.monitor.unjournalled
  {
  }

  lemma PrimaryTells(m: Mount, a: Answers, n: Monitor, g: nat, sb: Superblock)
    requires Contract(m, a) && g < m.Groups()
    requires n.Running? && n.handle.Closed? && a.primary.accessErr == 0
    ensures TellsWrites(m, a, n, Step(PrimaryMonitor(Step(n, Start(3)), a.primary), Stop), Never, g, sb)
  {
    PrimarySteps(n, a.primary);
  }

  /** On every exit past the write access to the primary, the journal tells what was
      written: a copy is granted exactly when the loop meets it under the handle and both
      its read and its write access succeed, it is written outside the journal exactly
      when it is good and met past the stop; and the copies that are changed in one of the
      two ways are the ones that are updated. */
  lemma JournalTellsWrites(m: Mount, a: Answers, list: nat -> nat, f: Callback,
                           primary: Superblock, backups: seq<Superblock>, n: Monitor, g: nat)
    requires Contract(m, a) && Increasing(list) && |backups| == m.Groups() && g < m.Groups()
    requires n.Running? && n.handle.Closed? && a.startErr == 0 && a.primary.accessErr == 0
    ensures var o := Update(m, a, list, f, primary, backups, n);
      && TellsWrites(m, a, n, o.monitor, UpdateMet(m, a, list, f, backups, n, g), g, backups[g])
      && var written := BackupSuper(g) in Ours(n, o.monitor).changed || BackupSuper(g) in Unjournalled(n, o.monitor);
         o.backups[g] == if written then Updated(m, f, backups[g]) else backups[g]
  {
    if PrimaryCode(a.primary) == 0 {
      LoopTells(m, a, list, f, backups, n, g);
    } else {
      PrimaryTells(m, a, n, g, backups[g]);
    }
    hide Step, PrimaryMonitor, Loop, Met;
    EveryExitJournals(m, a, list, f, primary, backups, n);
    EveryExitOldOrNew(m, a, list, f, primary, backups, n, g);
  }

  // ---- copies with a bad checksum

  ghost function BadCopies(m: Mount, backups: seq<Superblock>, t: Transaction): set<Buffer> {
    set b | b in t.granted && BadCopy(m, backups, b)
  }

  lemma {:induction false} SizeOfDistinct(s: seq<Buffer>)
    requires forall i, j :: 0 <= i < j < |s| ==> s[i] != s[j]
    ensures |set b | b in s| == |s|
  {
    if |s| > 0 {
      var rest := s[..|s| - 1];
      SizeOfDistinct(rest);
      assert (set b | b in s) == (set b | b in rest) + {s[|s| - 1]};
    }
  }

  lemma BadCopiesCount(m: Mount, a: Answers, list: nat -> nat, backups: seq<Superblock>, t: Transaction, bound: nat)
    requires InOrder(t.granted, bound) && Accounted(m, a, list, backups, t)
    ensures PrimarySuper in t.changed
    ensures |t.changed| + |BadCopies(m, backups, t)| == |t.granted|
  {
    SizeOfDistinct(t.granted);
    assert (set b | b in t.granted) == t.changed + BadCopies(m, backups, t);
    assert t.granted[0] in t.granted;
  }

  /** A copy with a bad checksum takes the place of a backup in the transaction: the
      buffers changed under the handle and the bad copies together are the buffers that
      were granted.  So, within the three credits, each bad copy the loop meets under the
      handle leaves one backup less that is changed under the journal. */
  lemma BadCopiesUseCredits(m: Mount, a: Answers, list: nat -> nat, f: Callback,
                            primary: Superblock, backups: seq<Superblock>, n: Monitor)
    requires Contract(m, a) && Increasing(list) && |backups| == m.Groups()
    requires n.Running? && n.handle.Closed? && a.startErr == 0 && a.primary.accessErr == 0
    ensures var s := Update(m, a, list, f, primary, backups, n).monitor;
      && s.Running? && |s.finished| == |n.finished| + 1
      && var t := Ours(n, s);
         && PrimarySuper in t.changed
         && |t.changed| + |BadCopies(m, backups, t)| == |t.granted|
         && (NoLateBadCrc(m, a) ==> |t.changed - {PrimarySuper}| + |BadCopies(m, backups, t)| <= 2)
  {
    EveryExitJournals(m, a, list, f, primary, backups, n);
    var s := Update(m, a, list, f, primary, backups, n).monitor;
    var bound :| Stopped(n, s, bound);
    BadCopiesCount(m, a, list, backups, Ours(n, s), bound);
  }

  /** Four groups with a copy each, the primary in group 0, every right checksum 0. */
  function ShortMount(): Mount {
    Mount(0, [true, true, true, true], true, _ => 0)
  }

  /** Everything succeeds. */
  function FineAnswers(): (a: Answers)
    ensures Contract(ShortMount(), a)
  {
    var ok := CopyAnswers(0, 0, 0, 0);
    Answers(0, ok, [ok, ok, ok, ok], 0, 0)
  }

  const BAD: Superblock := OLD.(checksum := 1)

  /** The transaction with the primary and bad copies. */
  function ShortWork(granted: seq<Buffer>): Transaction {
    Transaction(3, granted, {PrimarySuper}, {PrimarySuper})
  }

  /** The loop at group g, with so many copies counted. */
  function ShortPass(g: nat, counted: int, handle: bool, n: Monitor): Pass {
    Pass(g, g, handle, counted, 0, Looping, [OLD, BAD, BAD, OLD], n)
  }

  /** A bad copy is granted, left alone and counted. */
  lemma BadTurn(list: nat -> nat, g: nat, granted: seq<Buffer>)
    requires g == 1 || g == 2
    requires list(g) == g + 1 && BackupSuper(g) !in granted
    ensures var open := Running(Open(ShortWork(granted + [BackupSuper(g)])), {}, [], []);
      Turn(ShortMount(), FineAnswers(), list, NewLabel,
           ShortPass(g, g - 1, true, Running(Open(ShortWork(granted)), {}, [], [])))
        == if g == 1 then ShortPass(2, 1, true, open) else ShortPass(3, 2, false, Step(open, Stop))
  {
    assert ShortMount().hasSuper[g] && ChecksumBad(ShortMount(), BAD);
    assert FineAnswers().copies[g] == CopyAnswers(0, 0, 0, 0);
    assert [OLD, BAD, BAD, OLD][g := BAD] == [OLD, BAD, BAD, OLD];
  }

  /** A good copy past the stop is updated without the journal. */
  lemma GoodTurn(list: nat -> nat, n: Monitor)
    requires list(3) == 4 && n.Running? && n.handle.Closed?
    ensures Turn(ShortMount(), FineAnswers(), list, NewLabel, ShortPass(3, 2, false, n))
         == ShortPass(4, 3, false, Step(n, ChangeUnjournalled(BackupSuper(3)))).(
              backups := [OLD, BAD, BAD, Updated(ShortMount(), NewLabel, OLD)])
  {
    assert ShortMount().hasSuper[3] && !ChecksumBad(ShortMount(), OLD);
    assert FineAnswers().copies[3] == CopyAnswers(0, 0, 0, 0);
  }

  lemma LoopTurn(m: Mount, a: Answers, list: nat -> nat, f: Callback, p: Pass)
    requires Contract(m, a) && PassOk(m, list, p) && p.exit.Looping? && p.grp < m.Groups()
    requires PassOk(m, list, Turn(m, a, list, f, p))
    ensures Loop(m, a, list, f, p) == Loop(m, a, list, f, Turn(m, a, list, f, p))
  {
  }

  /** The loop's last state. */
  function ShortEnd(): Pass {
    ShortPass(4, 3, false, Running(Closed, {}, [ShortWork([PrimarySuper, BackupSuper(1), BackupSuper(2)])],
                                   [BackupSuper(3)])).(
      backups := [OLD, BAD, BAD, Updated(ShortMount(), NewLabel, OLD)])
  }

  lemma ShortLoop(list: nat -> nat)
    requires Increasing(list) && list(0) == 1 && list(1) == 2 && list(2) == 3 && list(3) == 4
    ensures Loop(ShortMount(), FineAnswers(), list, NewLabel,
                 ShortPass(0, 0, true, Running(Open(ShortWork([PrimarySuper])), {}, [], []))) == ShortEnd()
  {
    var m, a, granted := ShortMount(), FineAnswers(), [PrimarySuper];
    var p := ShortPass(0, 0, true, Running(Open(ShortWork(granted)), {}, [], []));
    LoopTurn(m, a, list, NewLabel, p);
    BadTurn(list, 1, granted);
    LoopTurn(m, a, list, NewLabel, Turn(m, a, list, NewLabel, p));
    granted := granted + [BackupSuper(1)];
    BadTurn(list, 2, granted);
    LoopTurn(m, a, list, NewLabel, ShortPass(2, 1, true, Running(Open(ShortWork(granted)), {}, [], [])));
    granted := granted + [BackupSuper(2)];
    assert granted == [PrimarySuper, BackupSuper(1), BackupSuper(2)];
    var n := Running(Closed, {}, [ShortWork(granted)], []);
    assert Step(Running(Open(ShortWork(granted)), {}, [], []), Stop) == n;
    GoodTurn(list, n);
    assert Step(n, ChangeUnjournalled(BackupSuper(3))) == ShortEnd().monitor;
    LoopTurn(m, a, list, NewLabel, ShortPass(3, 2, false, n));
  }

  /** Nothing fails and the result is 0, but two bad copies have taken both places for
      backups: the one copy that is updated is updated without the journal. */
  lemma NoBackupJournalled(list: nat -> nat)
    requires Increasing(list) && list(0) == 1 && list(1) == 2 && list(2) == 3 && list(3) == 4
    ensures var o := Update(ShortMount(), FineAnswers(), list, NewLabel, OLD, [OLD, BAD, BAD, OLD], NOTHING);
      o == Outcome(0, Updated(ShortMount(), NewLabel, OLD), ShortEnd().backups, ShortEnd().monitor)
  {
    PrimarySteps(NOTHING, FineAnswers().primary);
    ShortLoop(list);
  }
}
