/** What holds over every run of flip calls, whatever fails along the way. */
module EvfsRuns {
  import opened BlockBitmap
  import opened FreeSpace
  import opened JournalMonitor
  import opened Errno
  import opened Evfs

  datatype Call = Call(block: nat, answers: Answers)

  predicate Legal(geo: Geometry, calls: seq<Call>)
    requires geo.Valid()
  {
    forall c :: c in calls ==> Contract(geo, c.block, c.answers)
  }

  /** Every call that gets as far as the flip is about a cluster the filesystem has. */
  predicate OnClusters(geo: Geometry, calls: seq<Call>)
    requires geo.Valid()
  {
    forall c :: c in calls && Reached(c.answers) ==>
      c.answers.located.offset < geo.ClustersInGroup(c.answers.located.group)
  }

  /** Block numbers of the filesystem suffice for that. */
  lemma BlocksAreOnClusters(geo: Geometry, calls: seq<Call>)
    requires geo.Valid() && Legal(geo, calls)
    requires forall c :: c in calls ==> geo.Contains(c.block)
    ensures OnClusters(geo, calls)
  {
    forall c | c in calls
      ensures c.answers.located.offset < geo.ClustersInGroup(c.answers.located.group)
    {
      LocateFindsTheCluster(geo, c.block);
    }
  }

  function Run(geo: Geometry, cs: Checksums, img: Image, calls: seq<Call>): (r: Image)
    requires geo.Valid() && WellFormed(geo, img) && Legal(geo, calls)
    ensures WellFormed(geo, r)
  {
    if calls == [] then img
    else
      var last := calls[|calls| - 1];
      After(geo, cs, Run(geo, cs, img, calls[..|calls| - 1]), last.block, last.answers)
  }

  predicate FlipsAt(c: Call, l: Location) {
    Reached(c.answers) && c.answers.located == l
  }

  /** How often a run flips the cluster at l. */
  function Flips(calls: seq<Call>, l: Location): nat {
    if calls == [] then 0
    else
      Flips(calls[..|calls| - 1], l) + (if FlipsAt(calls[|calls| - 1], l) then 1 else 0)
  }

  /** Bitmap, group counts, global counter and both checksums stay in balance over every
      run, including runs in which any of the calls fails at any point and runs that
      reach the padding of a short group. */
  lemma {:induction false} RunKeepsBalance(geo: Geometry, cs: Checksums, img: Image, calls: seq<Call>)
    requires Balanced(geo, cs, img) && Legal(geo, calls)
    ensures Balanced(geo, cs, Run(geo, cs, img, calls))
  {
    if calls != [] {
      var front, last := calls[..|calls| - 1], calls[|calls| - 1];
      RunKeepsBalance(geo, cs, img, front);
      if Reached(last.answers) {
        FlipKeepsBalance(geo, cs, Run(geo, cs, img, front), last.answers.located);
      }
    }
  }

  lemma CallBits(geo: Geometry, cs: Checksums, img: Image, c: Call, g: nat, k: nat)
    requires geo.Valid() && WellFormed(geo, img) && Contract(geo, c.block, c.answers)
    requires g < geo.groups && k < 8 * geo.blockSize
    ensures Bit(After(geo, cs, img, c.block, c.answers).bitmaps[g], k)
         == (Bit(img.bitmaps[g], k) != FlipsAt(c, Location(g, k)))
  {
    if Reached(c.answers) && c.answers.located.group == g {
      FlippedBits(img.bitmaps[g], c.answers.located.offset, k);
    }
  }

  predicate Odd(n: nat) {
    n % 2 == 1
  }

  lemma NextIsOdd(n: nat)
    ensures Odd(n + 1) == !Odd(n)
  {
  }

  /** Each bit of each buffer ends up as its first value, inverted once for every odd
      number of flips of its own cluster; no bit depends on the flips of another. */
  lemma {:induction false} RunBits(geo: Geometry, cs: Checksums, img: Image, calls: seq<Call>, g: nat, k: nat)
    requires geo.Valid() && WellFormed(geo, img) && Legal(geo, calls)
    requires g < geo.groups && k < 8 * geo.blockSize
    ensures Bit(Run(geo, cs, img, calls).bitmaps[g], k)
         == (Bit(img.bitmaps[g], k) != Odd(Flips(calls, Location(g, k))))
  {
    if calls != [] {
      var front, last := calls[..|calls| - 1], calls[|calls| - 1];
      RunBits(geo, cs, img, front, g, k);
      CallBits(geo, cs, Run(geo, cs, img, front), last, g, k);
      NextIsOdd(Flips(front, Location(g, k)));
    }
  }

  /** No cluster of the padding has been flipped an odd number of times. */
  ghost predicate PaddingFlipsEven(geo: Geometry, calls: seq<Call>)
    requires geo.Valid()
  {
    forall g: nat, k: nat :: g < geo.groups && geo.ClustersInGroup(g) <= k < geo.clustersPerGroup ==>
      !Odd(Flips(calls, Location(g, k)))
  }

  /** Block numbers are not checked, so a run may flip padding.  It ends in a consistent
      state if and only if it has flipped every cluster of the padding an even number of
      times. */
  lemma RunConsistentIff(geo: Geometry, cs: Checksums, img: Image, calls: seq<Call>)
    requires Consistent(geo, cs, img) && Legal(geo, calls)
    ensures Consistent(geo, cs, Run(geo, cs, img, calls)) <==> PaddingFlipsEven(geo, calls)
  {
    var r := Run(geo, cs, img, calls);
    ConsistentIsBalanced(geo, cs, img);
    RunKeepsBalance(geo, cs, img, calls);
    ConsistentIsBalanced(geo, cs, r);
    forall g: nat, k: nat | g < geo.groups && geo.ClustersInGroup(g) <= k < geo.clustersPerGroup
      ensures Bit(r.bitmaps[g], k) == !Odd(Flips(calls, Location(g, k)))
    {
      RunBits(geo, cs, img, calls, g, k);
      assert PaddingSet(geo, g, img.bitmaps[g]);
    }
    if PaddingFlipsEven(geo, calls) {
      forall g: nat | g < geo.groups
        ensures PaddingSet(geo, g, r.bitmaps[g])
      {
        assert forall k: nat :: geo.ClustersInGroup(g) <= k < geo.clustersPerGroup ==>
          !Odd(Flips(calls, Location(g, k)));
      }
    } else {
      var g: nat, k: nat :| g < geo.groups && geo.ClustersInGroup(g) <= k < geo.clustersPerGroup
                            && Odd(Flips(calls, Location(g, k)));
      assert !Bit(r.bitmaps[g], k);
      assert !PaddingSet(geo, g, r.bitmaps[g]);
    }
  }

  /** So a run about clusters the filesystem has keeps it consistent. */
  lemma RunKeepsConsistency(geo: Geometry, cs: Checksums, img: Image, calls: seq<Call>)
    requires Consistent(geo, cs, img) && Legal(geo, calls) && OnClusters(geo, calls)
    ensures Consistent(geo, cs, Run(geo, cs, img, calls))
  {
    forall g: nat, k: nat | g < geo.groups && geo.ClustersInGroup(g) <= k < geo.clustersPerGroup
      ensures !Odd(Flips(calls, Location(g, k)))
    {
      NeverFlipped(geo, calls, Location(g, k));
    }
    RunConsistentIff(geo, cs, img, calls);
  }

  lemma {:induction false} NeverFlipped(geo: Geometry, calls: seq<Call>, l: Location)
    requires geo.Valid() && OnClusters(geo, calls) && l.offset >= geo.ClustersInGroup(l.group)
    ensures Flips(calls, l) == 0
  {
    if calls != [] {
      assert calls[|calls| - 1] in calls;
      NeverFlipped(geo, calls[..|calls| - 1], l);
    }
  }

  /** The part of a descriptor no flip may touch. */
  predicate SameFrame(geo: Geometry, d: GroupDesc, e: GroupDesc) {
    && d.fields.flags == e.fields.flags && d.fields.rest == e.fields.rest
    && (!geo.desc64 ==> d.fields.freeHi == e.fields.freeHi && d.fields.bitmapCsumHi == e.fields.bitmapCsumHi)
    && (!geo.metadataCsum ==>
          d.fields.bitmapCsumLo == e.fields.bitmapCsumLo && d.fields.bitmapCsumHi == e.fields.bitmapCsumHi)
    && (!geo.metadataCsum && !geo.gdtCsum ==> d.checksum == e.checksum)
  }

  /** A flip leaves the group's flags (among them EXT4_BG_BLOCK_UNINIT), its other
      members, and the high halves a 32-byte descriptor does not have. */
  lemma {:induction false} RunKeepsFrame(geo: Geometry, cs: Checksums, img: Image, calls: seq<Call>, g: nat)
    requires geo.Valid() && WellFormed(geo, img) && Legal(geo, calls) && g < geo.groups
    ensures SameFrame(geo, img.descs[g], Run(geo, cs, img, calls).descs[g])
  {
    if calls != [] {
      var front, last := calls[..|calls| - 1], calls[|calls| - 1];
      RunKeepsFrame(geo, cs, img, front, g);
      var mid := Run(geo, cs, img, front);
      var l := last.answers.located;
      if Reached(last.answers) && l.group == g {
        FlippedDescFrame(geo, cs, g, Flipped(mid.bitmaps[g], l.offset), Bit(mid.bitmaps[g], l.offset), mid.descs[g]);
      }
    }
  }

  lemma FlippedDescFrame(geo: Geometry, cs: Checksums, g: nat, bits: Bytes, wasSet: bool, d: GroupDesc)
    ensures SameFrame(geo, d, FlippedDesc(geo, cs, g, bits, wasSet, d))
  {
  }

  lemma CountDetermined(geo: Geometry, d: GroupDesc, e: GroupDesc)
    requires FreeCount(geo, d) == FreeCount(geo, e)
    requires !geo.desc64 ==> d.fields.freeHi == e.fields.freeHi
    ensures d.fields.freeLo == e.fields.freeLo && d.fields.freeHi == e.fields.freeHi
  {
  }

  lemma DescDetermined(geo: Geometry, cs: Checksums, g: nat, bits: Bytes, o: GroupDesc, d: GroupDesc, e: GroupDesc)
    requires geo.Valid() && |bits| == geo.blockSize
    requires GroupBalanced(geo, cs, g, bits, d) && GroupBalanced(geo, cs, g, bits, e)
    requires SameFrame(geo, o, d) && SameFrame(geo, o, e)
    ensures d == e
  {
    hide FreeCount, FreeBits;
    CountDetermined(geo, d, e);
    assert d.fields.bitmapCsumLo == e.fields.bitmapCsumLo;
    assert d.fields.bitmapCsumHi == e.fields.bitmapCsumHi;
    assert d.fields == e.fields;
  }

  /** The state a run reaches depends on nothing but the parity of flips per cluster:
      not on their order, not on the calls that failed.  Bitmaps, descriptors with their
      checksums, and the counter are all the same. */
  lemma SameParitySameImage(geo: Geometry, cs: Checksums, img: Image, p: seq<Call>, q: seq<Call>)
    requires Balanced(geo, cs, img) && Legal(geo, p) && Legal(geo, q)
    requires forall l: Location :: Odd(Flips(p, l)) == Odd(Flips(q, l))
    ensures Run(geo, cs, img, p) == Run(geo, cs, img, q)
  {
    var r, s := Run(geo, cs, img, p), Run(geo, cs, img, q);
    RunKeepsBalance(geo, cs, img, p);
    RunKeepsBalance(geo, cs, img, q);
    forall g: nat | g < geo.groups
      ensures r.bitmaps[g] == s.bitmaps[g] && r.descs[g] == s.descs[g]
    {
      forall k: nat | k < 8 * geo.blockSize
        ensures Bit(r.bitmaps[g], k) == Bit(s.bitmaps[g], k)
      {
        RunBits(geo, cs, img, p, g, k);
        RunBits(geo, cs, img, q, g, k);
      }
      BitsDetermineBytes(r.bitmaps[g], s.bitmaps[g]);
      RunKeepsFrame(geo, cs, img, p, g);
      RunKeepsFrame(geo, cs, img, q, g);
      assert GroupBalanced(geo, cs, g, r.bitmaps[g], r.descs[g]);
      assert GroupBalanced(geo, cs, g, s.bitmaps[g], s.descs[g]);
      DescDetermined(geo, cs, g, r.bitmaps[g], img.descs[g], r.descs[g], s.descs[g]);
    }
    assert r.bitmaps == s.bitmaps && r.descs == s.descs;
  }

  lemma {:induction false} FlipsConcat(p: seq<Call>, q: seq<Call>, l: Location)
    ensures Flips(p + q, l) == Flips(p, l) + Flips(q, l)
  {
    if q == [] {
      assert p + q == p;
    } else {
      var n := |q| - 1;
      assert (p + q)[..|p + q| - 1] == p + q[..n];
      FlipsConcat(p, q[..n], l);
    }
  }

  /** Two runs can be exchanged. */
  lemma RunsCommute(geo: Geometry, cs: Checksums, img: Image, p: seq<Call>, q: seq<Call>)
    requires Balanced(geo, cs, img) && Legal(geo, p) && Legal(geo, q)
    ensures Run(geo, cs, img, p + q) == Run(geo, cs, img, q + p)
  {
    forall l: Location
      ensures Odd(Flips(p + q, l)) == Odd(Flips(q + p, l))
    {
      FlipsConcat(p, q, l);
      FlipsConcat(q, p, l);
    }
    SameParitySameImage(geo, cs, img, p + q, q + p);
  }

  lemma DoubleIsEven(n: nat)
    ensures !Odd(n + n)
  {
  }

  /** A run done twice undoes itself. */
  lemma RunsCancel(geo: Geometry, cs: Checksums, img: Image, p: seq<Call>)
    requires Balanced(geo, cs, img) && Legal(geo, p)
    ensures Run(geo, cs, img, p + p) == img
  {
    forall l: Location
      ensures Odd(Flips(p + p, l)) == Odd(Flips([], l))
    {
      FlipsConcat(p, p, l);
      DoubleIsEven(Flips(p, l));
    }
    SameParitySameImage(geo, cs, img, p + p, []);
  }

  /** Two completed flips of one cluster, whatever they answer afterwards, restore
      bitmap, counts, counter and checksums. */
  lemma FlipTwiceRestores(geo: Geometry, cs: Checksums, img: Image, c: Call, d: Call)
    requires Balanced(geo, cs, img) && Legal(geo, [c, d])
    requires Reached(c.answers) && Reached(d.answers) && c.answers.located == d.answers.located
    ensures Run(geo, cs, img, [c, d]) == img
  {
    forall l: Location
      ensures Odd(Flips([c, d], l)) == Odd(Flips([], l))
    {
      assert [c, d][..1] == [c] && [c][..0] == [];
      assert Flips([c, d], l) == Flips([c], l) + (if FlipsAt(d, l) then 1 else 0);
      assert Flips([c], l) == (if FlipsAt(c, l) then 1 else 0);
    }
    SameParitySameImage(geo, cs, img, [c, d], []);
  }

  /** The failures that can come before the flip, in their order. */
  function BeforeFlip(a: Answers): int {
    FirstOf(FailIf(a.copyFails, EFAULT),
    FirstOf(a.readErr,
    FirstOf(FailIf(!a.descFound, EIO),
    FirstOf(a.startErr,
    FirstOf(a.bitmapAccessErr, a.descAccessErr)))))
  }

  /** A call answers with its first failure, and changes the filesystem exactly if none
      came before the flip. */
  lemma FirstFailureDecides(geo: Geometry, cs: Checksums, img: Image, c: Call)
    requires geo.Valid() && WellFormed(geo, img) && Contract(geo, c.block, c.answers)
    ensures var a := c.answers;
      ReturnCode(a) == FirstOf(BeforeFlip(a), FirstOf(a.joinBitmapErr, FirstOf(a.joinDescErr, a.stopErr)))
    ensures if BeforeFlip(c.answers) != 0 then After(geo, cs, img, c.block, c.answers) == img
            else After(geo, cs, img, c.block, c.answers).bitmaps != img.bitmaps
  {
    var l := c.answers.located;
    if BeforeFlip(c.answers) == 0 {
      FlippedBits(img.bitmaps[l.group], l.offset, l.offset);
    }
  }

  /** A call for a block of the filesystem that meets no failure before the flip inverts
      the bit of the cluster the block lies in, bit `offset` of the bitmap of its group,
      and changes no other byte of any bitmap. */
  lemma FlipMarksItsBlock(geo: Geometry, cs: Checksums, img: Image, c: Call, group: nat, offset: nat)
    requires geo.Valid() && WellFormed(geo, img) && Contract(geo, c.block, c.answers)
    requires geo.Contains(c.block) && BeforeFlip(c.answers) == 0
    requires group < geo.groups && offset < geo.ClustersInGroup(group)
    requires var first := geo.GroupFirstBlock(group) + offset * geo.clusterRatio;
      first <= c.block < first + geo.clusterRatio
    ensures var before, after := img.bitmaps, After(geo, cs, img, c.block, c.answers).bitmaps;
      && after[group][offset / 8] == before[group][offset / 8] ^ (1 << (offset % 8))
      && (forall j :: 0 <= j < geo.blockSize && j != offset / 8 ==> after[group][j] == before[group][j])
      && (forall g :: 0 <= g < geo.groups && g != group ==> after[g] == before[g])
  {
    BlockOfCluster(geo, c.block, group, offset);
    FlippedBytes(img.bitmaps[group], offset);
    hide BitMask, Flipped, FlippedByte;
  }

  /** The handle asks for three credits, and once the flip is reached it holds the bitmap
      of the group and the descriptor block the group's descriptor lies in, both changed;
      each joins the transaction unless its dirty call or the one before it fails. */
  lemma FlipNamesItsBuffers(geo: Geometry, a: Answers)
    requires geo.Valid()
    ensures |Work(geo, a)| == (if !a.copyFails && a.readErr == 0 && a.descFound && a.startErr == 0 then 1 else 0)
    ensures HandleWork(geo, a).credits == 3
    ensures BlockBitmap(a.located.group) in HandleWork(geo, a).granted <==> a.bitmapAccessErr == 0
    ensures BeforeFlip(a) == 0 ==>
      exists index: nat ::
        && index * geo.descPerBlock <= a.located.group < (index + 1) * geo.descPerBlock
        && HandleWork(geo, a).granted == [BlockBitmap(a.located.group), DescriptorBlock(index)]
        && HandleWork(geo, a).changed == {BlockBitmap(a.located.group), DescriptorBlock(index)}
        && (BlockBitmap(a.located.group) in HandleWork(geo, a).joined <==> a.joinBitmapErr == 0)
        && (DescriptorBlock(index) in HandleWork(geo, a).joined <==> a.joinBitmapErr == 0 && a.joinDescErr == 0)
  {
    var index := a.located.group / geo.descPerBlock;
    DivMod(a.located.group, geo.descPerBlock);
    assert (index + 1) * geo.descPerBlock == index * geo.descPerBlock + geo.descPerBlock;
  }

  /** A call returns 0 only after both changed buffers joined the transaction, and a
      changed buffer is left out of it exactly when one of the two dirty calls failed.
      Every changed buffer was granted first, within the credits requested. */
  lemma ZeroMeansJournalled(geo: Geometry, cs: Checksums, img: Image, c: Call)
    requires geo.Valid() && WellFormed(geo, img) && Contract(geo, c.block, c.answers)
    ensures ReturnCode(c.answers) == 0 <==>
      Reached(c.answers) && c.answers.joinBitmapErr == 0 && c.answers.joinDescErr == 0 && c.answers.stopErr == 0
    ensures ReturnCode(c.answers) == 0 ==>
      && |Work(geo, c.answers)| == 1
      && HandleWork(geo, c.answers).joined == HandleWork(geo, c.answers).changed
      && HandleWork(geo, c.answers).joined == {BitmapBuffer(c.answers.located), DescBuffer(geo, c.answers.located)}
    ensures HandleStarts(c.answers) ==>
      var w := HandleWork(geo, c.answers);
      && WithinCredits(w) && w.joined <= w.changed
      && (forall b :: b in w.changed ==> b in w.granted)
      && (w.joined != w.changed <==> Reached(c.answers) && (c.answers.joinBitmapErr != 0 || c.answers.joinDescErr != 0))
    ensures !HandleStarts(c.answers) || HandleWork(geo, c.answers).changed == {} ==>
      After(geo, cs, img, c.block, c.answers) == img
  {
    if Reached(c.answers) {
      assert BitmapBuffer(c.answers.located) in HandleWork(geo, c.answers).changed;
    }
  }
}
