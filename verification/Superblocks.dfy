/** Updating the primary superblock and its backups through one callback. */
module Superblocks {
  import opened Errno
  import opened FreeSpace
  import opened JournalMonitor

  /** A superblock: `fields` is what its checksum covers.  The two callbacks write the
      label or the UUID; `rest` stands for every other member. */
  datatype Fields = Fields(volumeName: seq<bv8>, uuid: seq<bv8>, rest: seq<bv8>)
  datatype Superblock = Superblock(fields: Fields, checksum: u32)

  type Callback = Fields -> Fields

  /** The mount: its groups, the one that holds the primary, the groups with a copy
      (ext4_bg_has_super), and the checksum driver, left uninterpreted. */
  datatype Mount = Mount(primaryGroup: nat, hasSuper: seq<bool>, metadataCsum: bool, csum: Fields -> u32)
  {
    function Groups(): nat { |hasSuper| }
  }

  /** Answers of the buffer cache and the journal for one copy; 0 or a negative errno. */
  datatype CopyAnswers = CopyAnswers(readErr: int, accessErr: int, dirtyErr: int, syncErr: int)

  datatype Answers = Answers(
    startErr: int, primary: CopyAnswers, copies: seq<CopyAnswers>, midStopErr: int, lastStopErr: int)

  predicate IsErrno(a: CopyAnswers) {
    a.readErr <= 0 && a.accessErr <= 0 && a.dirtyErr <= 0 && a.syncErr <= 0
  }

  predicate Contract(m: Mount, a: Answers) {
    && a.startErr <= 0 && a.midStopErr <= 0 && a.lastStopErr <= 0 && IsErrno(a.primary)
    && |a.copies| == m.Groups()
    && (forall g :: 0 <= g < m.Groups() ==> IsErrno(a.copies[g]))
  }

  /** What ext4_list_backups promises: its answers grow strictly, past any bound. */
  ghost predicate Increasing(list: nat -> nat) {
    list(0) > 0 && forall j: nat, k: nat :: j < k ==> list(j) < list(k)
  }

  predicate ChecksumBad(m: Mount, sb: Superblock) {
    m.metadataCsum && sb.checksum != m.csum(sb.fields)
  }

  function Updated(m: Mount, f: Callback, sb: Superblock): Superblock {
    var fields := f(sb.fields);
    Superblock(fields, if m.metadataCsum then m.csum(fields) else sb.checksum)
  }

  // ---- the primary

  function PrimaryCode(a: CopyAnswers): int {
    if a.accessErr != 0 then a.accessErr else if a.dirtyErr != 0 then a.dirtyErr else a.syncErr
  }

  function PrimaryMonitor(n: Monitor, a: CopyAnswers): Monitor {
    if a.accessErr != 0 then n
    else
      var changed := Step(Step(n, Access(PrimarySuper)), Change(PrimarySuper));
      if a.dirtyErr != 0 then changed else Step(changed, Join(PrimarySuper))
  }

  // ---- one backup

  predicate Reaches(m: Mount, a: CopyAnswers, journalled: bool, grp: nat)
    requires grp < m.Groups()
  {
    m.hasSuper[grp] && a.readErr == 0 && (journalled ==> a.accessErr == 0)
  }

  /** The result of one backup: 1 also for a copy whose checksum is bad, which is left
      alone (the jump there is taken with err still 0). */
  function BackupCode(m: Mount, a: CopyAnswers, journalled: bool, grp: nat, sb: Superblock): int
    requires grp < m.Groups()
  {
    if !m.hasSuper[grp] then 0
    else if a.readErr != 0 then a.readErr
    else if journalled && a.accessErr != 0 then a.accessErr
    else if ChecksumBad(m, sb) then 1
    else if journalled && a.dirtyErr != 0 then a.dirtyErr
    else if a.syncErr != 0 then a.syncErr
    else 1
  }

  function BackupAfter(m: Mount, f: Callback, a: CopyAnswers, journalled: bool, grp: nat, sb: Superblock): Superblock
    requires grp < m.Groups()
  {
    if Reaches(m, a, journalled, grp) && !ChecksumBad(m, sb) then Updated(m, f, sb) else sb
  }

  function BackupMonitor(m: Mount, n: Monitor, a: CopyAnswers, journalled: bool, grp: nat, sb: Superblock): Monitor
    requires grp < m.Groups()
  {
    var b := BackupSuper(grp);
    if !Reaches(m, a, journalled, grp) then n
    else if !journalled then
      if ChecksumBad(m, sb) then n else Step(n, ChangeUnjournalled(b))
    else
      var granted := Step(n, Access(b));
      if ChecksumBad(m, sb) then granted
      else if a.dirtyErr != 0 then Step(granted, Change(b))
      else Step(Step(granted, Change(b)), Join(b))
  }

  // ---- the loop over the backups

  datatype Exit = Looping | OutJournal | Out

  /** The variables of the loop: the group at hand, how often the enumerator has been
      asked, whether the handle is still there, the copies counted, the error. */
  datatype Pass = Pass(
    grp: nat, asked: nat, handle: bool, counted: int, err: int, exit: Exit,
    backups: seq<Superblock>, monitor: Monitor)

  ghost predicate PassOk(m: Mount, list: nat -> nat, p: Pass) {
    && Increasing(list)
    && |p.backups| == m.Groups()
    && p.grp == (if p.asked == 0 then 0 else list(p.asked - 1))
  }

  function NextGroup(list: nat -> nat, p: Pass): Pass {
    p.(grp := list(p.asked), asked := p.asked + 1)
  }

  /** One group, up to the label next_grp. */
  function Body(m: Mount, a: Answers, f: Callback, p: Pass): (r: Pass)
    requires Contract(m, a) && |p.backups| == m.Groups() && p.grp < m.Groups() && p.exit.Looping?
    ensures r.grp == p.grp && r.asked == p.asked && |r.backups| == |p.backups|
  {
    if p.grp == m.primaryGroup then p
    else
      var copy, sb := a.copies[p.grp], p.backups[p.grp];
      var ret := BackupCode(m, copy, p.handle, p.grp, sb);
      var q := p.(backups := p.backups[p.grp := BackupAfter(m, f, copy, p.handle, p.grp, sb)],
                  monitor := BackupMonitor(m, p.monitor, copy, p.handle, p.grp, sb));
      if ret == -EFSBADCRC then q
      else if ret < 0 then q.(err := ret, exit := OutJournal)
      else if p.handle && p.counted + ret > 1 then
        var r := q.(counted := p.counted + ret, monitor := Step(q.monitor, Stop));
        if a.midStopErr != 0 then r.(err := a.midStopErr, exit := Out) else r.(handle := false)
      else q.(counted := p.counted + ret)
  }

  /** One turn of the loop. */
  function Turn(m: Mount, a: Answers, list: nat -> nat, f: Callback, p: Pass): Pass
    requires Contract(m, a) && |p.backups| == m.Groups() && p.grp < m.Groups() && p.exit.Looping?
  {
    var q := Body(m, a, f, p);
    if q.exit.Looping? then NextGroup(list, q) else q
  }

  function Loop(m: Mount, a: Answers, list: nat -> nat, f: Callback, p: Pass): (r: Pass)
    requires Contract(m, a) && PassOk(m, list, p)
    ensures r.exit.Looping? ==> r.grp >= m.Groups()
    ensures |r.backups| == m.Groups()
    decreases m.Groups() - p.grp, if p.exit.Looping? then 1 else 0
  {
    if p.grp >= m.Groups() || !p.exit.Looping? then p
    else Loop(m, a, list, f, Turn(m, a, list, f, p))
  }

  /** Everything an update can change, and its result. */
  datatype Outcome = Outcome(
    err: int, primary: Superblock, backups: seq<Superblock>, monitor: Monitor)

  function FirstPass(sb: seq<Superblock>, n: Monitor): Pass {
    Pass(0, 0, true, 0, 0, Looping, sb, n)
  }

  /** From the start of the handle to the last statement before RESIZING is dropped. */
  function Update(m: Mount, a: Answers, list: nat -> nat, f: Callback,
                  primary: Superblock, backups: seq<Superblock>, n: Monitor): Outcome
    requires Contract(m, a) && Increasing(list) && |backups| == m.Groups()
  {
    if a.startErr != 0 then Outcome(a.startErr, primary, backups, n)
    else
      var started := PrimaryMonitor(Step(n, Start(3)), a.primary);
      var primary' := if a.primary.accessErr == 0 then Updated(m, f, primary) else primary;
      if PrimaryCode(a.primary) != 0 then
        Outcome(PrimaryCode(a.primary), primary', backups, Step(started, Stop))
      else
        var p := Loop(m, a, list, f, FirstPass(backups, started));
        if p.exit.Out? || !p.handle then Outcome(p.err, primary', p.backups, p.monitor)
        else Outcome(if p.err != 0 then p.err else a.lastStopErr, primary', p.backups, Step(p.monitor, Stop))
  }

  class SuperblockSet {
    const mount: Mount
    var resizing: bool               // EXT4_FLAGS_RESIZING
    var primary: Superblock
    var backups: seq<Superblock>     // one buffer per group; unused where hasSuper is false
    var monitor: Monitor

    ghost predicate Valid()
      reads this`backups
    {
      |backups| == mount.Groups()
    }

    method Report(e: Event)
      modifies this`monitor
      ensures monitor == Step(old(monitor), e)
    {
      monitor := Step(monitor, e);
    }

    /** ext4_update_primary_sb */
    method UpdatePrimary(f: Callback, a: CopyAnswers) returns (err: int)
      modifies this`primary, this`monitor
      ensures err == PrimaryCode(a)
      ensures primary == if a.accessErr == 0 then Updated(mount, f, old(primary)) else old(primary)
      ensures monitor == PrimaryMonitor(old(monitor), a)
    {
      err := a.accessErr;
      if err != 0 {
        return;
      }
      Report(Access(PrimarySuper));
      primary := primary.(fields := f(primary.fields));
      if mount.metadataCsum {
        primary := primary.(checksum := mount.csum(primary.fields));
      }
      Report(Change(PrimarySuper));
      err := a.dirtyErr;
      if err != 0 {
        return;
      }
      Report(Join(PrimarySuper));
      err := a.syncErr;
    }

    /** ext4_update_backup_sb */
    method UpdateBackup(journalled: bool, grp: nat, f: Callback, a: CopyAnswers) returns (ret: int)
      requires Valid() && grp < mount.Groups()
      requires monitor.Running? ==> Reference(BackupSuper(grp)) !in monitor.held
      modifies this`backups, this`monitor
      ensures Valid()
      ensures ret == BackupCode(mount, a, journalled, grp, old(backups[grp]))
      ensures backups == old(backups)[grp := BackupAfter(mount, f, a, journalled, grp, old(backups[grp]))]
      ensures monitor == BackupMonitor(mount, old(monitor), a, journalled, grp, old(backups[grp]))
    {
      if !mount.hasSuper[grp] {
        return 0;
      }
      if a.readErr != 0 {
        return a.readErr;
      }
      ghost var before := monitor;
      Report(Acquire(Reference(BackupSuper(grp))));
      ret := UpdateBackupBuffer(journalled, grp, f, a);
      Report(Release(Reference(BackupSuper(grp))));
      ReferenceIsNeutral(mount, before, a, journalled, grp, old(backups[grp]));
      if ret == 0 {
        ret := 1;
      }
    }

    /** Between the read of the buffer and its release; the result is the errno. */
    method UpdateBackupBuffer(journalled: bool, grp: nat, f: Callback, a: CopyAnswers) returns (err: int)
      requires Valid() && grp < mount.Groups() && mount.hasSuper[grp] && a.readErr == 0
      modifies this`backups, this`monitor
      ensures Valid()
      ensures (if err == 0 then 1 else err) == BackupCode(mount, a, journalled, grp, old(backups[grp]))
      ensures backups == old(backups)[grp := BackupAfter(mount, f, a, journalled, grp, old(backups[grp]))]
      ensures monitor == BackupMonitor(mount, old(monitor), a, journalled, grp, old(backups[grp]))
    {
      err := 0;
      if journalled {
        err := a.accessErr;
        if err != 0 {
          return;
        }
        Report(Access(BackupSuper(grp)));
      }
      var es := backups[grp];
      if mount.metadataCsum && es.checksum != mount.csum(es.fields) {
        return;
      }
      es := es.(fields := f(es.fields));
      if mount.metadataCsum {
        es := es.(checksum := mount.csum(es.fields));
      }
      backups := backups[grp := es];
      if journalled {
        Report(Change(BackupSuper(grp)));
        err := a.dirtyErr;
        if err != 0 {
          return;
        }
        Report(Join(BackupSuper(grp)));
      } else {
        Report(ChangeUnjournalled(BackupSuper(grp)));
      }
      err := a.syncErr;
    }

    /** ext4_update_superblocks_fn */
    method UpdateAll(f: Callback, list: nat -> nat, a: Answers) returns (err: int)
      requires Valid() && Contract(mount, a) && Increasing(list)
      requires Idle(monitor)
      modifies this
      ensures Valid()
      ensures old(resizing) ==> err == -EBUSY && resizing && primary == old(primary)
                                && backups == old(backups) && monitor == old(monitor)
      ensures !old(resizing) ==>
        var o := Update(mount, a, list, f, old(primary), old(backups), Step(old(monitor), Acquire(ResizingBit)));
        && err == o.err && primary == o.primary && backups == o.backups
        && !resizing && monitor == Step(o.monitor, Release(ResizingBit))
    {
      if resizing {
        return -EBUSY;
      }
      resizing := true;
      Report(Acquire(ResizingBit));
      err := UpdateLocked(f, list, a);
      resizing := false;
      Report(Release(ResizingBit));
    }

    /** The part of the update that owns the RESIZING bit. */
    method UpdateLocked(f: Callback, list: nat -> nat, a: Answers) returns (err: int)
      requires Valid() && Contract(mount, a) && Increasing(list)
      requires monitor.Running? && monitor.held == {ResizingBit}
      modifies this`primary, this`backups, this`monitor
      ensures Valid()
      ensures Outcome(err, primary, backups, monitor)
           == Update(mount, a, list, f, old(primary), old(backups), old(monitor))
    {
      if a.startErr != 0 {
        return a.startErr;
      }
      Report(Start(3));
      err := UpdatePrimary(f, a.primary);
      if err != 0 {
        Report(Stop);
        return;
      }
      var handle, exit;
      err, handle, exit := UpdateBackups(f, list, a);
      if !exit.Out? && handle {
        Report(Stop);
        if err == 0 {
          err := a.lastStopErr;
        }
      }
    }

    /** The loop over the groups; `exit` is the label it leaves for. */
    method UpdateBackups(f: Callback, list: nat -> nat, a: Answers) returns (err: int, handle: bool, exit: Exit)
      requires Valid() && Contract(mount, a) && Increasing(list)
      requires monitor.Running? ==> monitor.held == {ResizingBit}
      modifies this`backups, this`monitor
      ensures Valid()
      ensures var p := Loop(mount, a, list, f, FirstPass(old(backups), old(monitor)));
        && err == p.err && handle == p.handle && exit == p.exit
        && backups == p.backups && monitor == p.monitor
    {
      hide BackupCode, BackupAfter, BackupMonitor, Step;
      var i, grp, asked := 0, 0, 0;
      err, handle, exit := 0, true, Looping;
      ghost var p := FirstPass(backups, monitor);
      while grp < mount.Groups() && exit.Looping?
        invariant Valid()
        invariant monitor.Running? ==> monitor.held == {ResizingBit}
        invariant exit.Looping? ==> err == 0
        invariant p == Pass(grp, asked, handle, i, err, exit, backups, monitor)
        invariant PassOk(mount, list, p)
        invariant Loop(mount, a, list, f, p) == Loop(mount, a, list, f, FirstPass(old(backups), old(monitor)))
        decreases mount.Groups() - grp, if exit.Looping? then 1 else 0
      {
        p := Turn(mount, a, list, f, p);
        if grp != mount.primaryGroup {
          i, err, handle, exit := UpdateGroup(f, a, grp, asked, i, handle);
        }
        if exit.Looping? {
          grp, asked := list(asked), asked + 1;
        }
      }
    }

    /** One group other than the primary's. */
    method UpdateGroup(f: Callback, a: Answers, grp: nat, ghost asked: nat, i: int, handle: bool)
      returns (i': int, err: int, handle': bool, exit: Exit)
      requires Valid() && Contract(mount, a) && grp < mount.Groups() && grp != mount.primaryGroup
      requires monitor.Running? ==> monitor.held == {ResizingBit}
      modifies this`backups, this`monitor
      ensures Valid()
      ensures monitor.Running? ==> monitor.held == {ResizingBit}
      ensures Pass(grp, asked, handle', i', err, exit, backups, monitor)
           == Body(mount, a, f, Pass(grp, asked, handle, i, 0, Looping, old(backups), old(monitor)))
    {
      i', err, handle', exit := i, 0, handle, Looping;
      var ret := UpdateBackup(handle, grp, f, a.copies[grp]);
      if ret < 0 {
        if ret != -EFSBADCRC {
          err, exit := ret, OutJournal;
        }
        return;
      }
      i' := i + ret;
      if handle && i' > 1 {
        Report(Stop);
        err := a.midStopErr;
        if err != 0 {
          exit := Out;
          return;
        }
        handle' := false;
      }
    }
  }

  /** Holding a reference to a buffer changes nothing for the events in between. */
  lemma ReferenceIsNeutral(m: Mount, n: Monitor, a: CopyAnswers, journalled: bool, grp: nat, sb: Superblock)
    requires grp < m.Groups()
    requires n.Running? ==> Reference(BackupSuper(grp)) !in n.held
    ensures var held := Step(n, Acquire(Reference(BackupSuper(grp))));
      Step(BackupMonitor(m, held, a, journalled, grp, sb), Release(Reference(BackupSuper(grp))))
         == BackupMonitor(m, n, a, journalled, grp, sb)
  {
    if n.Running? {
      var r := Reference(BackupSuper(grp));
      assert n.held + {r} - {r} == n.held;
    }
  }
}
