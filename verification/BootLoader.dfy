/** Swapping an inode's contents with the boot loader inode, and undoing it. */
module BootLoader {
  import opened BlockBitmap
  import opened Errno
  import opened FreeSpace
  import opened Inodes
  import opened JournalMonitor

  // ---- the swap of the data

  /** What the first of two inodes becomes when their data are swapped. */
  function SwappedWith(s: InodeState, other: InodeState): InodeState {
    s.(version := other.version, contents := other.contents,
       flags := Mix(other.flags, s.flags, SHOULD_SWAP), cachedExtents := 0)
  }

  /** The loop over the bytes. */
  method MemSwap(a: array<bv8>, b: array<bv8>, len: nat)
    requires len <= a.Length && len <= b.Length
    modifies a, b
    ensures a[..] == old(b[..len] + a[len..])
    ensures b[..] == old(a[..len] + b[len..])
  {
    var i, left := 0, len;
    while left > 0
      invariant 0 <= i <= len && left == len - i
      invariant forall k :: 0 <= k < i ==> a[k] == old(b[k]) && b[k] == old(a[k])
      invariant forall k :: i <= k < a.Length ==> a[k] == old(a[k])
      invariant forall k :: i <= k < b.Length ==> b[k] == old(b[k])
    {
      a[i], b[i] := b[i], a[i];
      i, left := i + 1, left - 1;
    }
  }

  method SwapInodeData(inode1: Inode, inode2: Inode)
    requires inode1 != inode2 && inode1.data != inode2.data && inode1.Valid() && inode2.Valid()
    modifies inode1, inode2, inode1.data, inode2.data
    ensures inode1.State() == SwappedWith(old(inode1.State()), old(inode2.State()))
    ensures inode2.State() == SwappedWith(old(inode2.State()), old(inode1.State()))
  {
    hide Mix;
    ghost var s1, s2 := inode1.State(), inode2.State();
    SwapFlags(inode1, inode2);
    SwapContents(inode1, inode2);
    assert inode1.State() == s1.(flags := Mix(s2.flags, s1.flags, SHOULD_SWAP), contents := s2.contents);
    assert inode2.State() == s2.(flags := Mix(s1.flags, s2.flags, SHOULD_SWAP), contents := s1.contents);
    SwapVersions(inode1, inode2);
  }

  method SwapVersions(inode1: Inode, inode2: Inode)
    requires inode1 != inode2
    modifies inode1`version, inode1`cachedExtents, inode2`version, inode2`cachedExtents
    ensures inode1.State() == old(inode1.State()).(version := old(inode2.version), cachedExtents := 0)
    ensures inode2.State() == old(inode2.State()).(version := old(inode1.version), cachedExtents := 0)
  {
    inode1.version, inode2.version := inode2.version, inode1.version;
    inode1.cachedExtents, inode2.cachedExtents := 0, 0;
  }

  /** Times, i_data and both sizes. */
  method SwapContents(inode1: Inode, inode2: Inode)
    requires inode1 != inode2 && inode1.data != inode2.data && inode1.Valid() && inode2.Valid()
    modifies inode1`atime, inode1`mtime, inode1`disksize, inode1`size, inode1.data
    modifies inode2`atime, inode2`mtime, inode2`disksize, inode2`size, inode2.data
    ensures inode1.State().contents == old(inode2.State()).contents
    ensures inode2.State().contents == old(inode1.State()).contents
  {
    SwapBytes(inode1.data, inode2.data);
    var ts1, ts2 := inode1.atime, inode2.atime;
    inode1.atime := ts2;
    inode2.atime := ts1;
    ts1, ts2 := inode1.mtime, inode2.mtime;
    inode1.mtime := ts2;
    inode2.mtime := ts1;
    inode1.disksize, inode2.disksize := inode2.disksize, inode1.disksize;
    var isize := inode1.size;
    inode1.size := inode2.size;
    inode2.size := isize;
  }

  method SwapBytes(a: array<bv8>, b: array<bv8>)
    requires a.Length == b.Length == I_DATA_SIZE
    modifies a, b
    ensures a[..] == old(b[..]) && b[..] == old(a[..])
  {
    MemSwap(a, b, I_DATA_SIZE);
  }

  method SwapFlags(inode1: Inode, inode2: Inode)
    requires inode1 != inode2
    modifies inode1`flags, inode2`flags
    ensures inode1.flags == Mix(old(inode2.flags), old(inode1.flags), SHOULD_SWAP)
    ensures inode2.flags == Mix(old(inode1.flags), old(inode2.flags), SHOULD_SWAP)
  {
    var tmp := inode1.flags;
    inode1.flags := Mix(inode2.flags, inode1.flags, SHOULD_SWAP);
    inode2.flags := Mix(tmp, inode2.flags, SHOULD_SWAP);
  }

  /** Swapping twice gives both inodes back, but for the extent cache. */
  lemma SwapIsInvolution(a: InodeState, b: InodeState)
    ensures SwappedWith(SwappedWith(a, b), SwappedWith(b, a)) == a.(cachedExtents := 0)
  {
    MixBack(a.flags, b.flags, SHOULD_SWAP);
  }

  /** Outside HUGE_FILE and EXTENTS the flag word of each inode stays its own, on-disk
      flags and state bits alike. */
  lemma OnlyTwoFlagsMove(a: InodeState, b: InodeState, mask: bv64)
    requires mask & SHOULD_SWAP == 0
    ensures SwappedWith(a, b).flags & mask == a.flags & mask
    ensures SwappedWith(a, b).flags & SHOULD_SWAP == b.flags & SHOULD_SWAP
  {
    MixParts(b.flags, a.flags, SHOULD_SWAP);
    MixOutside(b.flags, a.flags, SHOULD_SWAP, mask);
  }

  // ---- the ioctl

  /** What the code outside this file answers during one call.  A dirty call or a quota
      call fails with a negative number; every other call fails with any nonzero one. */
  datatype Answers = Answers(
    igetErr: int, refuseType: bool, refuseRights: bool, flushErr: int, flushBootErr: int, startFails: bool,
    bootIsBad: bool, hasExtents: bool, emptyTree: seq<bv8>, dquotInitErr: int,
    now: Time, nextVersion: int, generation: u32, bootGeneration: u32,
    dirtyErr: int, dirtyBootErr: int, quotaErr: int)

  /** Metadata checksums: whether they are on, and the seed of an inode, uninterpreted. */
  datatype Seeds = Seeds(metadataCsum: bool, seed: (nat, u32) -> u32)

  predicate Contract(ans: Answers) {
    ans.igetErr <= 0 && |ans.emptyTree| == I_DATA_SIZE
  }

  /** The guards on the inode itself.  `refuseType` stands for swap files, encrypted
      inodes and inline data, `refuseRights` for the permission checks. */
  function GuardCode(ans: Answers, s: InodeState): int {
    if s.identity.nlink != 1 || !s.identity.kind.Regular? || ans.refuseType || s.flags & JOURNAL_DATA_FL != 0
    then -EINVAL
    else if ans.refuseRights then -EPERM
    else if ans.flushErr != 0 then ans.flushErr
    else if ans.flushBootErr != 0 then ans.flushBootErr
    else if ans.startFails then -EINVAL
    else 0
  }

  /** A boot loader inode that was never used is initialised first. */
  function Prepared(ans: Answers, boot: InodeState): InodeState {
    if !ans.bootIsBad && boot.identity.kind.Regular? then boot
    else boot.(identity := Identity(Regular, 1, 0, 0, 0),
               contents := boot.contents.(data := if ans.hasExtents then ans.emptyTree else Zeros(I_DATA_SIZE),
                                          size := 0, disksize := 0),
               flags := FirstFlags(ans), version := 1)
  }

  function FirstFlags(ans: Answers): bv64 {
    if ans.hasExtents then EXTENTS_FL else 0
  }

  function Reseeded(seeds: Seeds, s: InodeState): InodeState {
    if seeds.metadataCsum then s.(csumSeed := seeds.seed(s.ino, s.generation)) else s
  }

  /** The two inodes after the swap and the updates that follow it unconditionally. */
  function Swapped(seeds: Seeds, ans: Answers, s: InodeState, boot: InodeState): (InodeState, InodeState) {
    (Reseeded(seeds, SwappedWith(s, boot).(ctime := ans.now, version := ans.nextVersion, generation := ans.generation)),
     Reseeded(seeds, SwappedWith(boot, s).(ctime := ans.now, generation := ans.bootGeneration)))
  }

  /** The quota calls: the usage moves by delta, the remainder stays below a sector. */
  function Charged(s: InodeState, delta: int): (r: InodeState)
    requires Usage(s) + delta >= 0
    ensures Usage(r) == Usage(s) + delta && r.bytes < 512
  {
    s.(blocks := (Usage(s) + delta) / 512, bytes := (Usage(s) + delta) % 512)
  }

  datatype Outcome = Outcome(err: int, inode: InodeState, boot: InodeState)

  /** The three late failure points; the quota call that can fail is the one that charges. */
  predicate LateFailure(ans: Answers, diff: int) {
    ans.dirtyErr < 0 || ans.dirtyBootErr < 0 || (diff <= 0 && ans.quotaErr < 0)
  }

  function LateCode(ans: Answers, diff: int): int {
    if ans.dirtyErr < 0 then ans.dirtyErr
    else if ans.dirtyBootErr < 0 || diff > 0 then ans.dirtyBootErr
    else ans.quotaErr
  }

  /** What happens to the two inodes from the swap on. */
  function Exchange(seeds: Seeds, ans: Answers, s: InodeState, boot: InodeState): Outcome {
    var p := Swapped(seeds, ans, s, boot);
    var diff := Usage(s) - Usage(boot);
    if LateFailure(ans, diff)
    then Outcome(LateCode(ans, diff), SwappedWith(p.0, p.1), SwappedWith(p.1, p.0))
    else Outcome(LateCode(ans, diff), Charged(p.0, -diff), p.1.(blocks := p.0.blocks, bytes := p.0.bytes))
  }

  /** What happens to the two inodes once the handle is open. */
  function UnderHandle(seeds: Seeds, ans: Answers, s: InodeState, boot: InodeState): Outcome {
    if ans.dquotInitErr != 0 then Outcome(ans.dquotInitErr, s, Prepared(ans, boot))
    else Exchange(seeds, ans, s, Prepared(ans, boot))
  }

  function Swap(seeds: Seeds, ans: Answers, s: InodeState, boot: InodeState): Outcome {
    if ans.igetErr != 0 then Outcome(ans.igetErr, s, boot)
    else if GuardCode(ans, s) != 0 then Outcome(GuardCode(ans, s), s, boot)
    else UnderHandle(seeds, ans, s, boot)
  }

  /** The handle this call opened, as the monitor records it. */
  function Work(ans: Answers, s: InodeState): seq<Transaction> {
    if ans.igetErr == 0 && GuardCode(ans, s) == 0 then [Transaction(2, [], {}, {})] else []
  }

  class Ioctl {
    const seeds: Seeds
    var monitor: Monitor

    method Report(e: Event)
      modifies this`monitor
      ensures monitor == Step(old(monitor), e)
    {
      monitor := Step(monitor, e);
    }

    /** swap_inode_boot_loader */
    method SwapBootLoader(inode: Inode, boot: Inode, ans: Answers) returns (err: int)
      requires inode != boot && inode.data != boot.data && inode.Valid() && boot.Valid()
      requires Contract(ans) && Idle(monitor)
      modifies this, inode, boot, inode.data, boot.data
      ensures var o := Swap(seeds, ans, old(inode.State()), old(boot.State()));
        err == o.err && inode.State() == o.inode && boot.State() == o.boot
      ensures monitor == old(monitor).(finished := old(monitor).finished + Work(ans, old(inode.State())))
    {
      if ans.igetErr != 0 {
        return ans.igetErr;
      }
      Report(Acquire(BootInode));
      Report(Acquire(InodePair));
      if inode.nlink != 1 || !inode.kind.Regular? || ans.refuseType || inode.flags & JOURNAL_DATA_FL != 0 {
        err := -EINVAL;
      } else if ans.refuseRights {
        err := -EPERM;
      } else {
        Report(Acquire(Mapping));
        err := SwapFlushed(inode, boot, ans);
        Report(Release(Mapping));
      }
      Report(Release(InodePair));
      Report(Release(BootInode));
    }

    /** With the mapping locked: flush both inodes, open the handle, swap. */
    method SwapFlushed(inode: Inode, boot: Inode, ans: Answers) returns (err: int)
      requires inode != boot && inode.data != boot.data && inode.Valid() && boot.Valid()
      requires Contract(ans) && ans.igetErr == 0
      requires inode.nlink == 1 && inode.kind.Regular? && !ans.refuseType
               && inode.flags & JOURNAL_DATA_FL == 0 && !ans.refuseRights
      requires monitor.Running? && monitor.handle.Closed? && DataSemPair !in monitor.held
      modifies this, inode, boot, inode.data, boot.data
      ensures var o := Swap(seeds, ans, old(inode.State()), old(boot.State()));
        err == o.err && inode.State() == o.inode && boot.State() == o.boot
      ensures monitor == old(monitor).(finished := old(monitor).finished + Work(ans, old(inode.State())))
    {
      err := ans.flushErr;
      if err != 0 {
        return;
      }
      err := ans.flushBootErr;
      if err != 0 {
        return;
      }
      if ans.startFails {
        return -EINVAL;
      }
      Report(Start(2));
      Report(Acquire(DataSemPair));
      err := SwapUnderHandle(inode, boot, ans);
      Report(Stop);
      Report(Release(DataSemPair));
    }

    method SwapUnderHandle(inode: Inode, boot: Inode, ans: Answers) returns (err: int)
      requires inode != boot && inode.data != boot.data && inode.Valid() && boot.Valid()
      requires Contract(ans)
      modifies inode, boot, inode.data, boot.data
      ensures var o := UnderHandle(seeds, ans, old(inode.State()), old(boot.State()));
        err == o.err && inode.State() == o.inode && boot.State() == o.boot
    {
      Prepare(boot, ans);
      err := ans.dquotInitErr;
      if err != 0 {
        return;
      }
      err := SwapAndSettle(inode, boot, ans);
    }

    /** From the swap to the last dirty call. */
    method SwapAndSettle(inode: Inode, boot: Inode, ans: Answers) returns (err: int)
      requires inode != boot && inode.data != boot.data && inode.Valid() && boot.Valid()
      modifies inode, boot, inode.data, boot.data
      ensures var o := Exchange(seeds, ans, old(inode.State()), old(boot.State()));
        err == o.err && inode.State() == o.inode && boot.State() == o.boot
    {
      hide Mix;
      ghost var s, b := inode.State(), boot.State();
      var diff := inode.blocks * 512 + inode.bytes - (boot.blocks * 512 + boot.bytes);
      SwapInodeData(inode, boot);
      Stamp(inode, boot, ans);
      assert (inode.State(), boot.State()) == Swapped(seeds, ans, s, b);
      err := Settle(inode, boot, diff, ans);
    }

    /** The boot loader inode on its first use. */
    method Prepare(boot: Inode, ans: Answers)
      requires boot.Valid() && Contract(ans)
      modifies boot, boot.data
      ensures boot.State() == Prepared(ans, old(boot.State()))
    {
      if ans.bootIsBad || !boot.kind.Regular? {
        ResetAttributes(boot, ans);
        FillData(boot.data, if ans.hasExtents then ans.emptyTree else Zeros(I_DATA_SIZE));
      }
    }

    method ResetAttributes(boot: Inode, ans: Answers)
      modifies boot`kind, boot`nlink, boot`vfsFlags, boot`uid, boot`gid
      modifies boot`version, boot`size, boot`disksize, boot`flags
      ensures boot.State() == old(boot.State()).(
        identity := Identity(Regular, 1, 0, 0, 0),
        contents := old(boot.State()).contents.(size := 0, disksize := 0),
        flags := FirstFlags(ans), version := 1)
    {
      boot.kind, boot.nlink, boot.vfsFlags := Regular, 1, 0;
      boot.uid, boot.gid := 0, 0;
      boot.version := 1;
      boot.size, boot.disksize := 0, 0;
      boot.flags := FirstFlags(ans);
      assert boot.State().identity == Identity(Regular, 1, 0, 0, 0);
    }

    method FillData(data: array<bv8>, bytes: seq<bv8>)
      requires data.Length == |bytes|
      modifies data
      ensures data[..] == bytes
    {
      forall i | 0 <= i < data.Length {
        data[i] := bytes[i];
      }
    }

    /** Change time, version, generation and checksum seed. */
    method Stamp(inode: Inode, boot: Inode, ans: Answers)
      requires inode != boot
      modifies inode`ctime, inode`version, inode`generation, inode`csumSeed
      modifies boot`ctime, boot`generation, boot`csumSeed
      ensures inode.ctime == ans.now && boot.ctime == ans.now
      ensures inode.version == ans.nextVersion
      ensures inode.generation == ans.generation && boot.generation == ans.bootGeneration
      ensures inode.csumSeed
           == if seeds.metadataCsum then seeds.seed(inode.ino, ans.generation) else old(inode.csumSeed)
      ensures boot.csumSeed
           == if seeds.metadataCsum then seeds.seed(boot.ino, ans.bootGeneration) else old(boot.csumSeed)
    {
      inode.ctime := ans.now;
      boot.ctime := ans.now;
      inode.version := ans.nextVersion;
      inode.generation := ans.generation;
      boot.generation := ans.bootGeneration;
      ResetSeed(inode);
      ResetSeed(boot);
    }

    method ResetSeed(inode: Inode)
      modifies inode`csumSeed
      ensures inode.csumSeed
           == if seeds.metadataCsum then seeds.seed(inode.ino, inode.generation) else old(inode.csumSeed)
    {
      if seeds.metadataCsum {
        inode.csumSeed := seeds.seed(inode.ino, inode.generation);
      }
    }

    /** From the first dirty call to the end of the handle: commit the swap, or undo it. */
    method Settle(inode: Inode, boot: Inode, diff: int, ans: Answers) returns (err: int)
      requires inode != boot && inode.data != boot.data && inode.Valid() && boot.Valid()
      requires diff <= inode.blocks * 512 + inode.bytes
      modifies inode, boot, inode.data, boot.data
      ensures err == LateCode(ans, diff)
      ensures LateFailure(ans, diff) ==>
        && inode.State() == SwappedWith(old(inode.State()), old(boot.State()))
        && boot.State() == SwappedWith(old(boot.State()), old(inode.State()))
      ensures !LateFailure(ans, diff) ==>
        && inode.State() == Charged(old(inode.State()), -diff)
        && boot.State() == old(boot.State()).(blocks := old(inode.blocks), bytes := old(inode.bytes))
    {
      err := ans.dirtyErr;
      if err < 0 {
        SwapInodeData(inode, boot);
        return;
      }
      var blocks, bytes := boot.blocks, boot.bytes;
      boot.blocks := inode.blocks;
      boot.bytes := inode.bytes;
      err := ans.dirtyBootErr;
      if err >= 0 {
        if diff > 0 {
          ChargeSpace(inode, -diff);
        } else {
          err := ans.quotaErr;
          if err >= 0 {
            ChargeSpace(inode, -diff);
          }
        }
      }
      if err < 0 {
        boot.blocks := blocks;
        boot.bytes := bytes;
        assert boot.State() == old(boot.State());
        SwapInodeData(inode, boot);
      }
    }

    /** A quota call that succeeds. */
    method ChargeSpace(inode: Inode, delta: int)
      requires inode.blocks * 512 + inode.bytes + delta >= 0
      modifies inode`blocks, inode`bytes
      ensures inode.State() == Charged(old(inode.State()), delta)
    {
      var usage := inode.blocks * 512 + inode.bytes + delta;
      inode.blocks := usage / 512;
      inode.bytes := usage % 512;
    }
  }
}
