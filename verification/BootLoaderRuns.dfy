/** What a boot loader swap promises, for every failure pattern and over two swaps. */
module BootLoaderRuns {
  import opened Errno
  import opened BootLoader
  import opened BlockBitmap
  import opened Inodes
  import opened JournalMonitor

  /** Stamps a swap leaves behind even when it is undone. */
  function Restamped(s: InodeState, t: InodeState): InodeState {
    s.(ctime := t.ctime, generation := t.generation, csumSeed := t.csumSeed, cachedExtents := 0)
  }

  /** Swapping back restores, whatever was stamped in between. */
  lemma UndoInode(seeds: Seeds, ans: Answers, s: InodeState, b: InodeState, u: InodeState)
    requires var p := Swapped(seeds, ans, s, b); u == SwappedWith(p.0, p.1)
    ensures u == Restamped(s, u)
  {
    hide Mix;
    MixBack(s.flags, b.flags, SHOULD_SWAP);
  }

  lemma UndoBoot(seeds: Seeds, ans: Answers, s: InodeState, b: InodeState, v: InodeState)
    requires var p := Swapped(seeds, ans, s, b); v == SwappedWith(p.1, p.0)
    ensures v == Restamped(b, v).(version := ans.nextVersion)
  {
    hide Mix;
    MixBack(b.flags, s.flags, SHOULD_SWAP);
  }

  /** Does the call get as far as the swap? */
  predicate Reached(ans: Answers, s: InodeState) {
    ans.igetErr == 0 && GuardCode(ans, s) == 0 && ans.dquotInitErr == 0
  }

  /** The failures before the swap, in their order. */
  function BeforeSwap(ans: Answers, s: InodeState): int {
    FirstOf(ans.igetErr,
    FirstOf(FailIf(s.identity.nlink != 1 || !s.identity.kind.Regular? || ans.refuseType
                   || s.flags & JOURNAL_DATA_FL != 0, EINVAL),
    FirstOf(FailIf(ans.refuseRights, EPERM),
    FirstOf(ans.flushErr,
    FirstOf(ans.flushBootErr,
    FirstOf(FailIf(ans.startFails, EINVAL), ans.dquotInitErr))))))
  }

  /** A negative answer; any other is no failure to a dirty call. */
  function Negative(err: int): int {
    if err < 0 then err else 0
  }

  /** The answer of every call: its first failure, and after two dirty calls that succeed
      the answer of the quota call that charges; space that is given back cannot fail. */
  lemma SwapResult(seeds: Seeds, ans: Answers, s: InodeState, boot: InodeState)
    ensures Reached(ans, s) <==> BeforeSwap(ans, s) == 0
    ensures Work(ans, s) == [] || Work(ans, s) == [Transaction(2, [], {}, {})]
    ensures Reached(ans, s) ==> Work(ans, s) != []
    ensures var err := Swap(seeds, ans, s, boot).err;
      if BeforeSwap(ans, s) != 0 then err == BeforeSwap(ans, s)
      else err == FirstOf(Negative(ans.dirtyErr),
                  FirstOf(Negative(ans.dirtyBootErr),
                          if Usage(s) > Usage(boot) then ans.dirtyBootErr else ans.quotaErr))
  {
    hide Swapped, Charged, SwappedWith;
  }

  /** A call that got as far as the swap and fails: both inodes are back to what they were
      before the swap in every field but ctime, generation, checksum seed and extent
      cache; the boot loader inode also keeps the version increment that the swap carried
      to it. */
  lemma RollbackRestores(seeds: Seeds, ans: Answers, s: InodeState, boot: InodeState)
    requires Reached(ans, s) && Swap(seeds, ans, s, boot).err < 0
    ensures var o := Swap(seeds, ans, s, boot);
      && o.inode == Restamped(s, o.inode) && o.inode.ctime == ans.now && o.inode.generation == ans.generation
      && o.boot == Restamped(Prepared(ans, boot), o.boot).(version := ans.nextVersion)
      && o.boot.ctime == ans.now && o.boot.generation == ans.bootGeneration
  {
    hide Mix;
    var o := Swap(seeds, ans, s, boot);
    UndoInode(seeds, ans, s, Prepared(ans, boot), o.inode);
    UndoBoot(seeds, ans, s, Prepared(ans, boot), o.boot);
  }

  /** A call that got as far as the swap and does not fail hands each inode the other's
      contents and two flags, exchanges their byte usage exactly, whichever is larger, and
      conserves the total. */
  lemma SuccessExchanges(seeds: Seeds, ans: Answers, s: InodeState, boot: InodeState)
    requires Reached(ans, s) && Swap(seeds, ans, s, boot).err >= 0
    ensures var o, b := Swap(seeds, ans, s, boot), Prepared(ans, boot);
      && Exchanged(s, b, o.inode) && Exchanged(b, s, o.boot)
      && Usage(o.inode) + Usage(o.boot) == Usage(s) + Usage(boot)
  {
    hide Mix;
  }

  /** The stamps of such a call.  The boot loader inode takes over the version of the file, the byte
      usage of the file as it stands, and keeps the rest. */
  lemma SuccessStamps(seeds: Seeds, ans: Answers, s: InodeState, boot: InodeState)
    requires Reached(ans, s) && Swap(seeds, ans, s, boot).err >= 0
    ensures var o := Swap(seeds, ans, s, boot);
      && o.inode.ctime == o.boot.ctime == ans.now
      && o.inode.version == ans.nextVersion && o.boot.version == s.version
      && o.inode.generation == ans.generation && o.boot.generation == ans.bootGeneration
      && o.inode.cachedExtents == o.boot.cachedExtents == 0
      && o.boot.blocks == s.blocks && o.boot.bytes == s.bytes && o.inode.bytes < 512
      && (o.inode.ino, o.inode.projid, o.boot.ino, o.boot.projid) == (s.ino, s.projid, boot.ino, boot.projid)
  {
    hide Mix;
  }

  /** s after it has exchanged what it holds with another inode. */
  predicate Exchanged(s: InodeState, other: InodeState, r: InodeState) {
    && r.contents == other.contents && r.flags == Mix(other.flags, s.flags, SHOULD_SWAP)
    && r.identity == s.identity && Usage(r) == Usage(other)
  }

  /** s with all that it held before, but for stamps. */
  predicate Kept(s: InodeState, r: InodeState) {
    r.contents == s.contents && r.flags == s.flags && r.identity == s.identity && Usage(r) == Usage(s)
  }

  /** What the caller can tell from the result.  A negative one: neither inode has moved
      anything, though the boot loader inode may have been initialised for its first use.
      Zero: contents, flags and usage are exchanged.  A call that never opened a handle
      has left every byte of both alone. */
  lemma ErrorMeansUnswapped(seeds: Seeds, ans: Answers, s: InodeState, boot: InodeState)
    ensures var o, b := Swap(seeds, ans, s, boot), Prepared(ans, boot);
      && (o.err < 0 ==> Kept(s, o.inode) && (Kept(boot, o.boot) || Kept(b, o.boot)))
      && (o.err == 0 ==> Exchanged(s, b, o.inode) && Exchanged(b, s, o.boot))
      && (Work(ans, s) == [] ==> o.err != 0 && o.inode == s && o.boot == boot)
  {
    hide Mix, Swapped, LateFailure, GuardCode, Prepared;
    var o := Swap(seeds, ans, s, boot);
    if Reached(ans, s) {
      if o.err < 0 {
        RollbackRestores(seeds, ans, s, boot);
      } else {
        SuccessExchanges(seeds, ans, s, boot);
      }
    }
  }

  /** What the boot loader inode holds when it is used for the first time: an empty regular
      file of root's, with an extent tree where there are extents and zeros elsewhere. */
  predicate FirstHolds(ans: Answers, c: Contents, before: Contents) {
    && (ans.hasExtents ==> c.data == ans.emptyTree)
    && (!ans.hasExtents ==> |c.data| == 60 && forall k :: 0 <= k < 60 ==> c.data[k] == 0)
    && c.size == 0 && c.disksize == 0 && c.atime == before.atime && c.mtime == before.mtime
  }

  const HUGE_FILE_FL: bv64 := 0x4_0000

  /** A swap that succeeds gives the file what the boot loader inode holds: on its first use
      a fresh beginning, otherwise what it held before. */
  lemma FirstUse(seeds: Seeds, ans: Answers, s: InodeState, boot: InodeState)
    requires Reached(ans, s) && Swap(seeds, ans, s, boot).err >= 0
    ensures var o := Swap(seeds, ans, s, boot);
      if ans.bootIsBad || !boot.identity.kind.Regular? then
        && FirstHolds(ans, o.inode.contents, boot.contents)
        && (o.inode.flags & EXTENTS_FL != 0 <==> ans.hasExtents) && o.inode.flags & HUGE_FILE_FL == 0
        && o.boot.identity == Identity(Regular, 1, 0, 0, 0)
      else
        && o.inode.contents == boot.contents && o.inode.flags & SHOULD_SWAP == boot.flags & SHOULD_SWAP
        && o.boot.identity == boot.identity
  {
    SuccessExchanges(seeds, ans, s, boot);
    var b := Prepared(ans, boot);
    TwoFlags(b.flags, s.flags);
    FirstTwoFlags(ans);
    hide Mix, Swap, FirstFlags;
  }

  lemma TwoFlags(x: bv64, y: bv64)
    ensures Mix(x, y, SHOULD_SWAP) & EXTENTS_FL == x & EXTENTS_FL
    ensures Mix(x, y, SHOULD_SWAP) & HUGE_FILE_FL == x & HUGE_FILE_FL
    ensures Mix(x, y, SHOULD_SWAP) & SHOULD_SWAP == x & SHOULD_SWAP
  {
  }

  lemma FirstTwoFlags(ans: Answers)
    ensures FirstFlags(ans) & EXTENTS_FL != 0 <==> ans.hasExtents
    ensures FirstFlags(ans) & HUGE_FILE_FL == 0
  {
  }

  /** A call that opened its handle and fails leaves the boot loader inode initialised, if
      this was its first use, and otherwise with all it held. */
  lemma FirstUseKept(seeds: Seeds, ans: Answers, s: InodeState, boot: InodeState)
    requires Work(ans, s) != [] && Swap(seeds, ans, s, boot).err < 0
    ensures var o := Swap(seeds, ans, s, boot);
      if ans.bootIsBad || !boot.identity.kind.Regular? then
        && FirstHolds(ans, o.boot.contents, boot.contents)
        && o.boot.flags == (if ans.hasExtents then EXTENTS_FL else 0)
        && o.boot.identity == Identity(Regular, 1, 0, 0, 0) && Usage(o.boot) == Usage(boot)
        && (ans.dquotInitErr != 0 ==> o.boot.version == 1)
      else Kept(boot, o.boot)
  {
    if Reached(ans, s) {
      RollbackRestores(seeds, ans, s, boot);
    }
    hide Swapped, SwappedWith, Mix;
  }

  /** The checksum seed of an inode matches its number and generation. */
  predicate SeedMatches(seeds: Seeds, s: InodeState) {
    seeds.metadataCsum ==> s.csumSeed == seeds.seed(s.ino, s.generation)
  }

  lemma SwapKeepsSeed(seeds: Seeds, s: InodeState, other: InodeState)
    requires SeedMatches(seeds, s)
    ensures SeedMatches(seeds, SwappedWith(s, other))
  {
  }

  /** Both seeds match after every call, rolled back or not; without metadata checksums
      they are left alone. */
  lemma SeedsKeepMatching(seeds: Seeds, ans: Answers, s: InodeState, boot: InodeState)
    requires SeedMatches(seeds, s) && SeedMatches(seeds, boot)
    ensures var o := Swap(seeds, ans, s, boot);
      && SeedMatches(seeds, o.inode) && SeedMatches(seeds, o.boot)
      && (!seeds.metadataCsum ==> o.inode.csumSeed == s.csumSeed && o.boot.csumSeed == boot.csumSeed)
  {
    var b := Prepared(ans, boot);
    assert SeedMatches(seeds, b);
    var (s1, b1) := Swapped(seeds, ans, s, b);
    assert SeedMatches(seeds, s1) && SeedMatches(seeds, b1);
    SwapKeepsSeed(seeds, s1, b1);
    SwapKeepsSeed(seeds, b1, s1);
  }

  /** Two swaps that succeed restore contents, all flags and the usage of both inodes,
      provided the second one does not find the boot loader inode bad, which would
      initialise it again.  Versions and stamps are those of the later swap. */
  lemma TwoSwapsRestore(seeds: Seeds, ans1: Answers, ans2: Answers, s: InodeState, boot: InodeState)
    requires var o := Swap(seeds, ans1, s, boot);
      && Reached(ans1, s) && o.err >= 0
      && Reached(ans2, o.inode) && Swap(seeds, ans2, o.inode, o.boot).err >= 0
    requires !ans2.bootIsBad
    ensures var o := Swap(seeds, ans1, s, boot);
      var r, b := Swap(seeds, ans2, o.inode, o.boot), Prepared(ans1, boot);
      && (r.inode.contents, r.inode.flags, r.inode.identity) == (s.contents, s.flags, s.identity)
      && (r.boot.contents, r.boot.flags, r.boot.identity) == (b.contents, b.flags, b.identity)
      && Usage(r.inode) == Usage(s) && Usage(r.boot) == Usage(boot)
  {
    var b := Prepared(ans1, boot);
    var o := Swap(seeds, ans1, s, boot);
    SuccessExchanges(seeds, ans1, s, boot);
    assert Prepared(ans2, o.boot) == o.boot;
    SuccessExchanges(seeds, ans2, o.inode, o.boot);
    MixBack(s.flags, b.flags, SHOULD_SWAP);
    MixBack(b.flags, s.flags, SHOULD_SWAP);
  }
}
