/** The four representations of free space that a block-bit flip has to move together:
    the bitmap of a group, the free count of its descriptor, the filesystem-wide
    counter, and the two nested checksums. */
module FreeSpace {
  import opened BlockBitmap

  type u16 = x: nat | x < 0x1_0000
  type u32 = x: nat | x < 0x1_0000_0000

  /** Arithmetic on a __u32. */
  function Wrap32(n: int): u32 {
    n % 0x1_0000_0000
  }

  /** Where a block lives: its group and its cluster number within the group. */
  datatype Location = Location(group: nat, offset: nat)

  datatype Geometry = Geometry(
    groups: nat, blockSize: nat, clustersPerGroup: nat, clusterRatio: nat,
    firstDataBlock: nat, blocksCount: nat, descPerBlock: nat,
    desc64: bool, metadataCsum: bool, gdtCsum: bool)
  {
    predicate Valid() {
      && clusterRatio > 0 && clustersPerGroup > 0 && descPerBlock > 0
      && clustersPerGroup <= 8 * blockSize
      && clustersPerGroup < (if desc64 then 0x1_0000_0000 else 0x1_0000)
      && groups > 0
      && firstDataBlock < blocksCount
      && (groups - 1) * BlocksPerGroup() < blocksCount - firstDataBlock <= groups * BlocksPerGroup()
    }

    function BlocksPerGroup(): nat {
      clustersPerGroup * clusterRatio
    }

    function GroupFirstBlock(group: nat): nat {
      group * BlocksPerGroup() + firstDataBlock
    }

    /** Blocks the filesystem really has in a group; the last group may be short. */
    function BlocksInGroup(group: nat): nat
      requires Valid()
    {
      var left := blocksCount - GroupFirstBlock(group);
      if left < 0 then 0 else if left < BlocksPerGroup() then left else BlocksPerGroup()
    }

    function ClustersInGroup(group: nat): (r: nat)
      requires Valid()
      ensures r <= clustersPerGroup
    {
      CeilAtMost(BlocksInGroup(group), clusterRatio, clustersPerGroup);
      (BlocksInGroup(group) + clusterRatio - 1) / clusterRatio
    }

    predicate Contains(block: nat) {
      firstDataBlock <= block < blocksCount
    }

    /** Group and cluster of a block of the filesystem. */
    function Locate(block: nat): Location
      requires Valid() && Contains(block)
    {
      assert BlocksPerGroup() > 0 by { PositiveProduct(clustersPerGroup, clusterRatio); }
      Divided(block - firstDataBlock, BlocksPerGroup(), clusterRatio)
    }
  }

  function Divided(b: nat, size: nat, ratio: nat): Location
    requires size > 0 && ratio > 0
  {
    Location(b / size, b % size / ratio)
  }

  lemma PositiveProduct(a: nat, b: nat)
    requires a > 0 && b > 0
    ensures a * b > 0
  {
  }

  lemma CeilAtMost(x: nat, r: nat, c: nat)
    requires r > 0 && x <= c * r
    ensures (x + r - 1) / r <= c
  {
    var q := (x + r - 1) / r;
    DivMod(x + r - 1, r);
    assert (c + 1) * r == c * r + r;
    if q > c {
      Monotone(c + 1, q, r);
    }
  }

  /** Locating is the inverse of ext4_group_first_block_no and the cluster macro: the
      cluster found is one the filesystem has, and the block lies inside it. */
  lemma LocateFindsTheCluster(geo: Geometry, block: nat)
    requires geo.Valid() && geo.Contains(block)
    ensures var l := geo.Locate(block);
      && l.group < geo.groups && l.offset < geo.ClustersInGroup(l.group)
      && geo.GroupFirstBlock(l.group) + l.offset * geo.clusterRatio <= block
      && block < geo.GroupFirstBlock(l.group) + (l.offset + 1) * geo.clusterRatio
  {
    var size, r := geo.BlocksPerGroup(), geo.clusterRatio;
    PositiveProduct(geo.clustersPerGroup, r);
    var b := block - geo.firstDataBlock;
    var g, within := b / size, b % size;
    DivMod(b, size);
    QuotientBelow(b, geo.groups, size);
    assert within < geo.BlocksInGroup(g);
    CeilAbove(within, geo.BlocksInGroup(g), r);
    ClusterHolds(within, r);
  }

  /** And every cluster a group has is found: from its first block. */
  lemma EveryClusterIsFound(geo: Geometry, g: nat, k: nat)
    requires geo.Valid() && g < geo.groups && k < geo.ClustersInGroup(g)
    ensures var block := geo.GroupFirstBlock(g) + k * geo.clusterRatio;
      geo.Contains(block) && geo.Locate(block) == Location(g, k)
  {
    var x := k * geo.clusterRatio;
    BelowCeil(k, geo.BlocksInGroup(g), geo.clusterRatio);
    BlockOfGroup(geo, g, x);
    InCluster(g * geo.BlocksPerGroup() + x, g, k, geo.clustersPerGroup, geo.clusterRatio);
    hide Geometry.Valid, Geometry.BlocksInGroup, Geometry.ClustersInGroup;
  }

  lemma BlockOfGroup(geo: Geometry, g: nat, x: nat)
    requires geo.Valid() && x < geo.BlocksInGroup(g)
    ensures geo.Contains(geo.GroupFirstBlock(g) + x)
  {
    hide Geometry.Valid, Geometry.BlocksPerGroup;
  }

  /** So a block is located at the cluster it lies in. */
  lemma BlockOfCluster(geo: Geometry, block: nat, g: nat, k: nat)
    requires geo.Valid() && geo.Contains(block) && g < geo.groups && k < geo.ClustersInGroup(g)
    requires var first := geo.GroupFirstBlock(g) + k * geo.clusterRatio;
      first <= block < first + geo.clusterRatio
    ensures geo.Locate(block) == Location(g, k)
  {
    InCluster(block - geo.firstDataBlock, g, k, geo.clustersPerGroup, geo.clusterRatio);
  }

  lemma InCluster(b: nat, g: nat, k: nat, n: nat, r: nat)
    requires r > 0 && k < n
    requires g * (n * r) + k * r <= b < g * (n * r) + k * r + r
    ensures n * r > 0 && b / (n * r) == g && b % (n * r) / r == k
  {
    var size := n * r;
    PositiveProduct(n, r);
    assert k * r + r <= size by {
      Monotone(k + 1, n, r);
      assert (k + 1) * r == k * r + r;
    }
    var within := b - g * size;
    Requotient(g, within, size);
    Requotient(k, within - k * r, r);
  }

  lemma BelowCeil(k: nat, x: nat, r: nat)
    requires r > 0 && k < (x + r - 1) / r
    ensures k * r < x
  {
    DivMod(x + r - 1, r);
    Monotone(k + 1, (x + r - 1) / r, r);
    assert (k + 1) * r == k * r + r;
  }

  lemma Requotient(q: nat, rest: nat, d: nat)
    requires rest < d
    ensures (q * d + rest) / d == q && (q * d + rest) % d == rest
  {
    var x := q * d + rest;
    DivMod(x, d);
    assert (x / d + 1) * d == x / d * d + d && (q + 1) * d == q * d + d;
    if x / d < q {
      Monotone(x / d + 1, q, d);
    } else if x / d > q {
      Monotone(q + 1, x / d, d);
    }
  }

  lemma QuotientBelow(x: nat, n: nat, d: nat)
    requires d > 0 && x < n * d
    ensures x / d < n
  {
    DivMod(x, d);
    if n <= x / d {
      Monotone(n, x / d, d);
    }
  }

  lemma ClusterHolds(x: nat, r: nat)
    requires r > 0
    ensures x / r * r <= x < (x / r + 1) * r
  {
    DivMod(x, r);
    assert (x / r + 1) * r == x / r * r + r;
  }

  lemma DivMod(x: nat, d: nat)
    requires d > 0
    ensures x == x / d * d + x % d && 0 <= x % d < d
  {
  }

  lemma Monotone(a: nat, b: nat, c: nat)
    requires a <= b
    ensures a * c <= b * c
  {
  }

  lemma CeilAbove(x: nat, n: nat, r: nat)
    requires r > 0 && x < n
    ensures x / r < (n + r - 1) / r
  {
    DivMod(x, r);
    var q := (n + r - 1) / r;
    DivMod(n + r - 1, r);
    if q <= x / r {
      Monotone(q, x / r, r);
    }
  }

  /** A group descriptor.  `fields` is what the descriptor checksum covers; `rest`
      stands for the members no flip touches (bitmap and table locations, inode counts). */
  datatype DescFields = DescFields(
    freeLo: u16, freeHi: u16, flags: u16, bitmapCsumLo: u16, bitmapCsumHi: u16, rest: seq<bv8>)

  datatype GroupDesc = GroupDesc(fields: DescFields, checksum: u16)

  /** The checksum drivers, left uninterpreted. */
  datatype Checksums = Checksums(bitmap: Bytes -> u32, desc: (nat, DescFields) -> u16)

  function FreeCount(geo: Geometry, d: GroupDesc): u32 {
    d.fields.freeLo + (if geo.desc64 then 0x1_0000 * d.fields.freeHi else 0)
  }

  function WithFreeCount(geo: Geometry, d: GroupDesc, n: u32): GroupDesc {
    d.(fields := d.fields.(freeLo := n % 0x1_0000,
                           freeHi := if geo.desc64 then n / 0x1_0000 else d.fields.freeHi))
  }

  function WithBitmapCsum(geo: Geometry, cs: Checksums, bits: Bytes, d: GroupDesc): GroupDesc {
    if !geo.metadataCsum then d else
      var c := cs.bitmap(bits);
      d.(fields := d.fields.(bitmapCsumLo := c % 0x1_0000,
                             bitmapCsumHi := if geo.desc64 then c / 0x1_0000 else d.fields.bitmapCsumHi))
  }

  function WithDescCsum(geo: Geometry, cs: Checksums, group: nat, d: GroupDesc): GroupDesc {
    if geo.metadataCsum || geo.gdtCsum then d.(checksum := cs.desc(group, d.fields)) else d
  }

  predicate BitmapCsumVerifies(geo: Geometry, cs: Checksums, bits: Bytes, d: GroupDesc) {
    geo.metadataCsum ==>
      var c := cs.bitmap(bits);
      && d.fields.bitmapCsumLo == c % 0x1_0000
      && (geo.desc64 ==> d.fields.bitmapCsumHi == c / 0x1_0000)
  }

  predicate DescCsumVerifies(geo: Geometry, cs: Checksums, group: nat, d: GroupDesc) {
    geo.metadataCsum || geo.gdtCsum ==> d.checksum == cs.desc(group, d.fields)
  }

  /** Everything a flip reads or changes, as a value. */
  datatype Image = Image(bitmaps: seq<Bytes>, descs: seq<GroupDesc>, freeClusters: int)

  predicate WellFormed(geo: Geometry, img: Image) {
    && |img.bitmaps| == |img.descs| == geo.groups
    && (forall g :: 0 <= g < geo.groups ==> |img.bitmaps[g]| == geo.blockSize)
  }

  /** Count and both checksums fit the bitmap, over all the clusters a group can have. */
  predicate GroupBalanced(geo: Geometry, cs: Checksums, group: nat, bits: Bytes, d: GroupDesc)
    requires geo.Valid() && |bits| == geo.blockSize
  {
    && FreeCount(geo, d) == FreeBits(bits, geo.clustersPerGroup)
    && BitmapCsumVerifies(geo, cs, bits, d)
    && DescCsumVerifies(geo, cs, group, d)
  }

  /** The bits past the end of a short group are set, so nothing allocates them. */
  predicate PaddingSet(geo: Geometry, group: nat, bits: Bytes)
    requires geo.Valid() && |bits| == geo.blockSize
  {
    AllSet(bits, geo.ClustersInGroup(group), geo.clustersPerGroup)
  }

  /** The count is of the clusters the group really has, and the rest is padding. */
  predicate GroupConsistent(geo: Geometry, cs: Checksums, group: nat, bits: Bytes, d: GroupDesc)
    requires geo.Valid() && |bits| == geo.blockSize
  {
    && FreeCount(geo, d) == FreeBits(bits, geo.ClustersInGroup(group))
    && PaddingSet(geo, group, bits)
    && BitmapCsumVerifies(geo, cs, bits, d)
    && DescCsumVerifies(geo, cs, group, d)
  }

  function TotalFree(geo: Geometry, descs: seq<GroupDesc>): int {
    if descs == [] then 0
    else TotalFree(geo, descs[..|descs| - 1]) + FreeCount(geo, descs[|descs| - 1])
  }

  /** Group by group in balance, and the global counter is the sum. */
  ghost predicate Balanced(geo: Geometry, cs: Checksums, img: Image) {
    && geo.Valid() && WellFormed(geo, img)
    && (forall g: nat :: g < geo.groups ==> GroupBalanced(geo, cs, g, img.bitmaps[g], img.descs[g]))
    && img.freeClusters == TotalFree(geo, img.descs)
  }

  /** In balance with respect to the clusters the filesystem really has. */
  ghost predicate Consistent(geo: Geometry, cs: Checksums, img: Image) {
    && geo.Valid() && WellFormed(geo, img)
    && (forall g: nat :: g < geo.groups ==> GroupConsistent(geo, cs, g, img.bitmaps[g], img.descs[g]))
    && img.freeClusters == TotalFree(geo, img.descs)
  }

  ghost predicate AllPaddingSet(geo: Geometry, img: Image)
    requires geo.Valid() && WellFormed(geo, img)
  {
    forall g: nat :: g < geo.groups ==> PaddingSet(geo, g, img.bitmaps[g])
  }

  /** Consistency is balance with all padding in use. */
  lemma ConsistentIsBalanced(geo: Geometry, cs: Checksums, img: Image)
    requires geo.Valid() && WellFormed(geo, img)
    ensures Consistent(geo, cs, img) <==> Balanced(geo, cs, img) && AllPaddingSet(geo, img)
  {
    forall g: nat | g < geo.groups
      ensures GroupConsistent(geo, cs, g, img.bitmaps[g], img.descs[g])
         <==> GroupBalanced(geo, cs, g, img.bitmaps[g], img.descs[g]) && PaddingSet(geo, g, img.bitmaps[g])
    {
      FreeBitsBeyond(img.bitmaps[g], geo.ClustersInGroup(g), geo.clustersPerGroup);
    }
  }

  /** The image after the cluster at l has been flipped: bit, group count (a 32-bit
      word, which wraps), global counter, bitmap checksum, then descriptor checksum. */
  function FlippedImage(geo: Geometry, cs: Checksums, img: Image, l: Location): (r: Image)
    requires geo.Valid() && WellFormed(geo, img)
    requires l.group < geo.groups && l.offset < geo.clustersPerGroup
    ensures WellFormed(geo, r)
  {
    var bits := Flipped(img.bitmaps[l.group], l.offset);
    var wasSet := Bit(img.bitmaps[l.group], l.offset);
    Image(img.bitmaps[l.group := bits],
          img.descs[l.group := FlippedDesc(geo, cs, l.group, bits, wasSet, img.descs[l.group])],
          img.freeClusters + (if wasSet then 1 else -1))
  }

  function FlippedDesc(geo: Geometry, cs: Checksums, group: nat, bits: Bytes, wasSet: bool, d: GroupDesc): GroupDesc {
    var n := Wrap32(FreeCount(geo, d) + (if wasSet then 1 else -1));
    WithDescCsum(geo, cs, group, WithBitmapCsum(geo, cs, bits, WithFreeCount(geo, d, n)))
  }

  lemma {:induction false} TotalFreeUpdate(geo: Geometry, descs: seq<GroupDesc>, g: nat, d: GroupDesc)
    requires g < |descs|
    ensures TotalFree(geo, descs[g := d]) == TotalFree(geo, descs) - FreeCount(geo, descs[g]) + FreeCount(geo, d)
  {
    var last := |descs| - 1;
    if g == last {
      assert descs[g := d][..last] == descs[..last];
    } else {
      assert descs[g := d][..last] == descs[..last][g := d];
      TotalFreeUpdate(geo, descs[..last], g, d);
    }
  }

  /** Reading a count back gives what was written, for every count a group can have. */
  lemma FreeCountRoundTrip(geo: Geometry, d: GroupDesc, n: u32)
    ensures FreeCount(geo, WithFreeCount(geo, d, n)) == (if geo.desc64 then n else n % 0x1_0000)
  {
  }

  /** The low half of a count lies in the low word; the high half in the high word of a
      64-byte descriptor.  A 32-byte descriptor has no room for one. */
  lemma CountHalves(geo: Geometry, d: GroupDesc)
    ensures d.fields.freeLo == FreeCount(geo, d) % 0x1_0000
    ensures if geo.desc64 then d.fields.freeHi == FreeCount(geo, d) / 0x1_0000 else FreeCount(geo, d) < 0x1_0000
  {
  }

  lemma ChecksumsVerify(geo: Geometry, cs: Checksums, group: nat, bits: Bytes, d: GroupDesc)
    ensures var r := WithDescCsum(geo, cs, group, WithBitmapCsum(geo, cs, bits, d));
      && BitmapCsumVerifies(geo, cs, bits, r) && DescCsumVerifies(geo, cs, group, r)
      && FreeCount(geo, r) == FreeCount(geo, d)
  {
  }

  lemma NoWrap(n: int, limit: nat, wide: bool)
    requires 0 <= n <= limit < (if wide then 0x1_0000_0000 else 0x1_0000)
    ensures Wrap32(n) == n && (!wide ==> n % 0x1_0000 == n)
  {
  }

  lemma FlippedDescCount(geo: Geometry, cs: Checksums, group: nat, bits: Bytes, wasSet: bool, d: GroupDesc)
    requires geo.Valid()
    requires FreeCount(geo, d) <= geo.clustersPerGroup
    requires if wasSet then FreeCount(geo, d) < geo.clustersPerGroup else FreeCount(geo, d) > 0
    ensures FreeCount(geo, FlippedDesc(geo, cs, group, bits, wasSet, d))
         == FreeCount(geo, d) + (if wasSet then 1 else -1)
    ensures BitmapCsumVerifies(geo, cs, bits, FlippedDesc(geo, cs, group, bits, wasSet, d))
    ensures DescCsumVerifies(geo, cs, group, FlippedDesc(geo, cs, group, bits, wasSet, d))
  {
    var n := Wrap32(FreeCount(geo, d) + (if wasSet then 1 else -1));
    NoWrap(FreeCount(geo, d) + (if wasSet then 1 else -1), geo.clustersPerGroup, geo.desc64);
    FreeCountRoundTrip(geo, d, n);
    ChecksumsVerify(geo, cs, group, bits, WithFreeCount(geo, d, n));
  }

  /** A cluster in use leaves room for one more free cluster, counted over any range
      that holds it. */
  lemma {:induction false} UsedBitLeavesRoom(s: Bytes, k: nat, n: nat)
    requires k < n <= 8 * |s| && Bit(s, k)
    ensures FreeBits(s, n) < n
  {
    if k < n - 1 {
      UsedBitLeavesRoom(s, k, n - 1);
    }
  }

  lemma FlippedGroup(geo: Geometry, cs: Checksums, group: nat, bits: Bytes, d: GroupDesc, k: nat)
    requires geo.Valid() && |bits| == geo.blockSize && k < geo.clustersPerGroup
    requires GroupBalanced(geo, cs, group, bits, d)
    ensures GroupBalanced(geo, cs, group, Flipped(bits, k),
                          FlippedDesc(geo, cs, group, Flipped(bits, k), Bit(bits, k), d))
    ensures FreeCount(geo, FlippedDesc(geo, cs, group, Flipped(bits, k), Bit(bits, k), d))
         == FreeCount(geo, d) + (if Bit(bits, k) then 1 else -1)
  {
    var n := geo.clustersPerGroup;
    FlippedFreeBits(bits, k, n);
    if Bit(bits, k) {
      UsedBitLeavesRoom(bits, k, n);
    } else {
      FreeBitCounts(bits, k, n);
    }
    FlippedDescCount(geo, cs, group, Flipped(bits, k), Bit(bits, k), d);
  }

  /** Flipping any cluster keeps bitmap, group count, global counter and checksums in
      balance, and moves both counts by one without wrapping. */
  lemma FlipKeepsBalance(geo: Geometry, cs: Checksums, img: Image, l: Location)
    requires Balanced(geo, cs, img)
    requires l.group < geo.groups && l.offset < geo.clustersPerGroup
    ensures Balanced(geo, cs, FlippedImage(geo, cs, img, l))
    ensures FreeCount(geo, FlippedImage(geo, cs, img, l).descs[l.group])
         == FreeCount(geo, img.descs[l.group]) + (if Bit(img.bitmaps[l.group], l.offset) then 1 else -1)
  {
    var r := FlippedImage(geo, cs, img, l);
    assert GroupBalanced(geo, cs, l.group, img.bitmaps[l.group], img.descs[l.group]);
    FlippedGroup(geo, cs, l.group, img.bitmaps[l.group], img.descs[l.group], l.offset);
    TotalFreeUpdate(geo, img.descs, l.group, r.descs[l.group]);
    forall g: nat | g < geo.groups
      ensures GroupBalanced(geo, cs, g, r.bitmaps[g], r.descs[g])
    {
      assert GroupBalanced(geo, cs, g, img.bitmaps[g], img.descs[g]);
    }
  }

  lemma FlippedPadding(geo: Geometry, group: nat, bits: Bytes, k: nat)
    requires geo.Valid() && |bits| == geo.blockSize && k < geo.clustersPerGroup && PaddingSet(geo, group, bits)
    ensures PaddingSet(geo, group, Flipped(bits, k)) <==> k < geo.ClustersInGroup(group)
  {
    forall j: nat | j < geo.clustersPerGroup
      ensures Bit(Flipped(bits, k), j) == (if j == k then !Bit(bits, j) else Bit(bits, j))
    {
      FlippedBits(bits, k, j);
    }
    if k >= geo.ClustersInGroup(group) {
      assert Bit(bits, k);
    }
  }

  /** The ioctl takes its block number unchecked.  A number past the end of a short last
      group reaches a padding bit, and then the group counts one free cluster more than
      it has: a flip keeps a consistent image consistent exactly when the cluster is one
      the group has. */
  lemma FlipConsistentIff(geo: Geometry, cs: Checksums, img: Image, l: Location)
    requires Consistent(geo, cs, img)
    requires l.group < geo.groups && l.offset < geo.clustersPerGroup
    ensures Consistent(geo, cs, FlippedImage(geo, cs, img, l)) <==> l.offset < geo.ClustersInGroup(l.group)
    ensures var r, n := FlippedImage(geo, cs, img, l), geo.ClustersInGroup(l.group);
      FreeCount(geo, r.descs[l.group]) == FreeBits(r.bitmaps[l.group], n) + (if l.offset < n then 0 else 1)
  {
    var r, bits := FlippedImage(geo, cs, img, l), img.bitmaps[l.group];
    ConsistentIsBalanced(geo, cs, img);
    FlipKeepsBalance(geo, cs, img, l);
    ConsistentIsBalanced(geo, cs, r);
    FlippedPadding(geo, l.group, bits, l.offset);
    assert r.bitmaps[l.group] == Flipped(bits, l.offset);
    assert AllPaddingSet(geo, r) <==> PaddingSet(geo, l.group, r.bitmaps[l.group]);
    FlippedFreeBits(bits, l.offset, geo.ClustersInGroup(l.group));
    assert GroupConsistent(geo, cs, l.group, bits, img.descs[l.group]);
    assert l.offset >= geo.ClustersInGroup(l.group) ==> Bit(bits, l.offset);
  }

  /** In particular, flipping a cluster of the filesystem keeps it consistent. */
  lemma FlipKeepsConsistency(geo: Geometry, cs: Checksums, img: Image, l: Location)
    requires Consistent(geo, cs, img)
    requires l.group < geo.groups && l.offset < geo.ClustersInGroup(l.group)
    ensures Consistent(geo, cs, FlippedImage(geo, cs, img, l))
  {
    FlipConsistentIff(geo, cs, img, l);
  }

  // ---- a filesystem in which an unchecked block number does harm

  /** One group of eight clusters of which the filesystem has four, no checksums. */
  function SmallGeometry(): Geometry {
    Geometry(1, 1, 8, 1, 0, 4, 1, false, false, false)
  }

  /** The four clusters are free; the padding is in use. */
  function SmallImage(): Image {
    Image([[0xF0]], [GroupDesc(DescFields(4, 0, 0, 0, 0, []), 0)], 4)
  }

  lemma SmallIsValid()
    ensures SmallGeometry().BlocksPerGroup() == 8 && SmallGeometry().Valid()
  {
    assert SmallGeometry().BlocksPerGroup() == 8;
  }

  lemma SmallGroup()
    ensures SmallGeometry().Valid() && SmallGeometry().ClustersInGroup(0) == 4
  {
    SmallIsValid();
    assert SmallGeometry().GroupFirstBlock(0) == 0;
    assert SmallGeometry().BlocksInGroup(0) == 4;
  }

  lemma SmallBits(s: Bytes)
    requires s == [0xF0]
    ensures FreeBits(s, 4) == 4 && AllSet(s, 4, 8)
  {
    assert !Bit(s, 0) && !Bit(s, 1) && !Bit(s, 2) && !Bit(s, 3);
    assert Bit(s, 4) && Bit(s, 5) && Bit(s, 6) && Bit(s, 7);
    assert FreeBits(s, 2) == 2;
  }

  lemma SmallGroupConsistent(cs: Checksums)
    ensures GroupConsistent(SmallGeometry(), cs, 0, SmallImage().bitmaps[0], SmallImage().descs[0])
  {
    SmallGroup();
    SmallBits(SmallImage().bitmaps[0]);
  }

  lemma SmallTotal()
    ensures TotalFree(SmallGeometry(), SmallImage().descs) == 4
  {
    assert SmallImage().descs[..0] == [];
    assert FreeCount(SmallGeometry(), SmallImage().descs[0]) == 4;
  }

  lemma SmallWellFormed()
    ensures SmallGeometry().Valid() && SmallGeometry().groups == 1
    ensures WellFormed(SmallGeometry(), SmallImage())
  {
    SmallIsValid();
  }

  lemma OneGroupConsistent(geo: Geometry, cs: Checksums, img: Image)
    requires geo.Valid() && geo.groups == 1 && WellFormed(geo, img)
    requires GroupConsistent(geo, cs, 0, img.bitmaps[0], img.descs[0])
    requires img.freeClusters == TotalFree(geo, img.descs)
    ensures Consistent(geo, cs, img)
  {
    forall g: nat | g < geo.groups
      ensures GroupConsistent(geo, cs, g, img.bitmaps[g], img.descs[g])
    {
      assert g == 0;
    }
  }

  lemma SmallConsistent(geo: Geometry, cs: Checksums, img: Image)
    requires geo == SmallGeometry() && img == SmallImage()
    ensures Consistent(geo, cs, img)
  {
    SmallWellFormed();
    SmallGroupConsistent(cs);
    SmallTotal();
    OneGroupConsistent(geo, cs, img);
  }

  /** A flip of an image in order that leaves it out of order. */
  ghost predicate Breaks(geo: Geometry, cs: Checksums, img: Image, l: Location) {
    && Consistent(geo, cs, img) && l.group < geo.groups && l.offset < geo.clustersPerGroup
    && !Consistent(geo, cs, FlippedImage(geo, cs, img, l))
  }

  /** Consistency is met by an actual filesystem, and flipping the sixth cluster of its
      only group, which the block number 5 asks for, breaks it. */
  lemma PaddingFlipBreaks(geo: Geometry, cs: Checksums, img: Image)
    requires geo == SmallGeometry() && img == SmallImage()
    ensures Breaks(geo, cs, img, Location(0, 5))
  {
    SmallGroup();
    SmallConsistent(geo, cs, img);
    FlipConsistentIff(geo, cs, img, Location(0, 5));
  }
}
