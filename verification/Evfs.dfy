/** The ioctl that flips one block's bit in the block bitmap. */
module Evfs {
  import opened BlockBitmap
  import opened Errno
  import opened FreeSpace
  import opened JournalMonitor

  /** What the code outside this file answers during one call; an error is any nonzero
      number.  `located` is the answer of ext4_get_group_no_and_offset. */
  datatype Answers = Answers(
    copyFails: bool, located: Location, readErr: int, descFound: bool, startErr: int,
    bitmapAccessErr: int, descAccessErr: int, joinBitmapErr: int, joinDescErr: int, stopErr: int)

  /** What that code promises: blocks of the filesystem are located exactly, offsets stay
      below the clusters of a group, and only bitmaps of existing groups can be read. */
  predicate Contract(geo: Geometry, block: nat, a: Answers)
    requires geo.Valid()
  {
    && (geo.Contains(block) ==> a.located == geo.Locate(block))
    && a.located.offset < geo.clustersPerGroup
    && (a.readErr == 0 ==> a.located.group < geo.groups)
  }

  predicate HandleStarts(a: Answers) {
    !a.copyFails && a.readErr == 0 && a.descFound && a.startErr == 0
  }

  /** Every call before the flip itself succeeded. */
  predicate Reached(a: Answers) {
    HandleStarts(a) && a.bitmapAccessErr == 0 && a.descAccessErr == 0
  }

  function UnderHandleCode(a: Answers): int {
    if a.bitmapAccessErr != 0 then a.bitmapAccessErr
    else if a.descAccessErr != 0 then a.descAccessErr
    else if a.joinBitmapErr != 0 then a.joinBitmapErr
    else a.joinDescErr
  }

  function ReturnCode(a: Answers): int {
    if a.copyFails then -EFAULT
    else if a.readErr != 0 then a.readErr
    else if !a.descFound then -EIO
    else if a.startErr != 0 then a.startErr
    else if UnderHandleCode(a) != 0 then UnderHandleCode(a)
    else a.stopErr
  }

  function BitmapBuffer(l: Location): Buffer {
    BlockBitmap(l.group)
  }

  function DescBuffer(geo: Geometry, l: Location): Buffer
    requires geo.Valid()
  {
    DescriptorBlock(l.group / geo.descPerBlock)
  }

  /** What the call's handle did before it was stopped. */
  function HandleWork(geo: Geometry, a: Answers): Transaction
    requires geo.Valid()
  {
    var b, d := BitmapBuffer(a.located), DescBuffer(geo, a.located);
    Transaction(
      3,
      if a.bitmapAccessErr != 0 then [] else if a.descAccessErr != 0 then [b] else [b, d],
      if Reached(a) then {b, d} else {},
      if !Reached(a) || a.joinBitmapErr != 0 then {} else if a.joinDescErr != 0 then {b} else {b, d})
  }

  function Work(geo: Geometry, a: Answers): seq<Transaction>
    requires geo.Valid()
  {
    if HandleStarts(a) then [HandleWork(geo, a)] else []
  }

  function After(geo: Geometry, cs: Checksums, img: Image, block: nat, a: Answers): (r: Image)
    requires geo.Valid() && WellFormed(geo, img) && Contract(geo, block, a)
    ensures WellFormed(geo, r)
  {
    if Reached(a) then FlippedImage(geo, cs, img, a.located) else img
  }

  /** A mounted filesystem, as far as the ioctl sees it. */
  class Filesystem {
    const geo: Geometry
    const cs: Checksums
    const bitmaps: seq<array<bv8>>   // b_data of each group's bitmap buffer
    var descs: seq<GroupDesc>        // the descriptors, inside their buffers
    var freeClusters: int            // s_freeclusters_counter
    var monitor: Monitor

    ghost predicate Valid()
      reads this`descs
    {
      BuffersValid() && |descs| == geo.groups
    }

    ghost predicate BuffersValid() {
      && geo.Valid()
      && |bitmaps| == geo.groups
      && (forall g :: 0 <= g < geo.groups ==> bitmaps[g].Length == geo.blockSize)
      && (forall g, h :: 0 <= g < h < geo.groups ==> bitmaps[g] != bitmaps[h])
    }

    ghost function Bits(): (r: seq<Bytes>)
      requires BuffersValid()
      reads bitmaps
      ensures |r| == geo.groups
      ensures forall g :: 0 <= g < geo.groups ==> r[g] == bitmaps[g][..]
    {
      seq(geo.groups, g requires 0 <= g < geo.groups reads bitmaps => bitmaps[g][..])
    }

    ghost function State(): (r: Image)
      requires Valid()
      reads this`freeClusters, this`descs, bitmaps
      ensures WellFormed(geo, r)
    {
      Image(Bits(), descs, freeClusters)
    }

    method Report(e: Event)
      modifies this`monitor
      ensures monitor == Step(old(monitor), e)
    {
      monitor := Step(monitor, e);
    }

    /** Case EXT4_IOC_FLIP_BLOCK_BIT. */
    method FlipBlockBit(block: nat, a: Answers) returns (err: int)
      requires Valid() && Contract(geo, block, a)
      requires Idle(monitor)
      modifies this, bitmaps
      ensures Valid()
      ensures err == ReturnCode(a)
      ensures State() == After(geo, cs, old(State()), block, a)
      ensures monitor == old(monitor).(finished := old(monitor).finished + Work(geo, a))
    {
      if a.copyFails {
        return -EFAULT;
      }
      if a.readErr != 0 {
        return a.readErr;
      }
      var group, offset := a.located.group, a.located.offset;
      var bitmapBh, descBh := BitmapBuffer(a.located), DescBuffer(geo, a.located);
      Report(Acquire(Reference(bitmapBh)));
      if !a.descFound {
        Report(Release(Reference(bitmapBh)));
        assert monitor.held == {};
        return -EIO;
      }
      if a.startErr != 0 {
        Report(Release(Reference(bitmapBh)));
        assert monitor.held == {};
        return a.startErr;
      }
      Report(Start(3));
      err := FlipUnderHandle(block, a);
      // Both exits stop the handle and drop the bitmap; only the clean one keeps the
      // result of the stop.
      Report(Stop);
      Report(Release(Reference(bitmapBh)));
      assert monitor.held == {};
      if err == 0 {
        err := a.stopErr;
      }
    }

    /** The part of the ioctl that runs with the handle open. */
    method FlipUnderHandle(block: nat, a: Answers) returns (err: int)
      requires Valid() && Contract(geo, block, a) && HandleStarts(a)
      requires monitor.Running? && monitor.handle == Open(Transaction(3, [], {}, {}))
      modifies this, bitmaps[a.located.group]
      ensures Valid()
      ensures err == UnderHandleCode(a)
      ensures State() == After(geo, cs, old(State()), block, a)
      ensures monitor == old(monitor).(handle := Open(HandleWork(geo, a)))
    {
      var bitmapBh, descBh := BitmapBuffer(a.located), DescBuffer(geo, a.located);
      err := AskWriteAccess(bitmapBh, descBh, a);
      if err != 0 {
        return;
      }
      FlipInPlace(a.located);
      assert monitor.handle == Open(Transaction(3, [bitmapBh, descBh], {bitmapBh, descBh}, {}));
      err := AddToTransaction(bitmapBh, descBh, a);
    }

    /** The two ext4_journal_get_write_access calls. */
    method AskWriteAccess(bitmapBh: Buffer, descBh: Buffer, a: Answers) returns (err: int)
      requires bitmapBh != descBh
      requires monitor.Running? && monitor.handle == Open(Transaction(3, [], {}, {}))
      modifies this`monitor
      ensures err == if a.bitmapAccessErr != 0 then a.bitmapAccessErr else a.descAccessErr
      ensures monitor == old(monitor).(handle := Open(Transaction(3,
        if a.bitmapAccessErr != 0 then [] else if a.descAccessErr != 0 then [bitmapBh] else [bitmapBh, descBh],
        {}, {})))
    {
      if a.bitmapAccessErr != 0 {
        return a.bitmapAccessErr;
      }
      Report(Access(bitmapBh));
      assert monitor.handle.work.granted == [bitmapBh];
      if a.descAccessErr != 0 {
        return a.descAccessErr;
      }
      Report(Access(descBh));
      assert monitor.handle.work.granted == [bitmapBh, descBh];
      return 0;
    }

    /** The two ext4_handle_dirty_metadata calls. */
    method AddToTransaction(bitmapBh: Buffer, descBh: Buffer, a: Answers) returns (err: int)
      requires monitor.Running? && monitor.handle == Open(Transaction(3, [bitmapBh, descBh], {bitmapBh, descBh}, {}))
      modifies this`monitor
      ensures err == if a.joinBitmapErr != 0 then a.joinBitmapErr else a.joinDescErr
      ensures monitor == old(monitor).(handle := Open(Transaction(3, [bitmapBh, descBh], {bitmapBh, descBh},
        if a.joinBitmapErr != 0 then {} else if a.joinDescErr != 0 then {bitmapBh} else {bitmapBh, descBh})))
    {
      if a.joinBitmapErr != 0 {
        return a.joinBitmapErr;
      }
      Report(Join(bitmapBh));
      assert monitor.handle.work.joined == {bitmapBh};
      if a.joinDescErr != 0 {
        return a.joinDescErr;
      }
      Report(Join(descBh));
      assert monitor.handle.work.joined == {bitmapBh, descBh};
      return 0;
    }

    /** The updates between the second write access and the first dirty call. */
    method FlipInPlace(l: Location)
      requires Valid() && l.group < geo.groups && l.offset < geo.clustersPerGroup
      modifies this, bitmaps[l.group]
      ensures Valid()
      ensures State() == FlippedImage(geo, cs, old(State()), l)
      ensures monitor == Step(Step(old(monitor), Change(BitmapBuffer(l))), Change(DescBuffer(geo, l)))
    {
      ghost var before := State();
      var wasSet := FlipGroupBit(l.group, l.offset);
      ghost var bits := Bits();
      Report(Change(BitmapBuffer(l)));
      UpdateDescriptor(l.group, wasSet);
      freeClusters := if wasSet then freeClusters + 1 else freeClusters - 1;
      Report(Change(DescBuffer(geo, l)));
      assert Bits() == bits;
      assert State() == FlippedImage(geo, cs, before, l);
    }

    method FlipGroupBit(group: nat, k: nat) returns (wasSet: bool)
      requires BuffersValid() && group < geo.groups && k < geo.clustersPerGroup
      modifies bitmaps[group]
      ensures wasSet == old(Bit(Bits()[group], k))
      ensures Bits() == old(Bits())[group := Flipped(old(Bits()[group]), k)]
    {
      ghost var before := Bits();
      wasSet := FlipBit(k, bitmaps[group]);
      assert forall g :: 0 <= g < geo.groups && g != group ==> bitmaps[g][..] == before[g];
    }

    /** Count, then bitmap checksum, then the checksum over both. */
    method UpdateDescriptor(group: nat, wasSet: bool)
      requires Valid() && group < geo.groups
      modifies this`descs
      ensures descs == old(descs)[group := FlippedDesc(geo, cs, group, Bits()[group], wasSet, old(descs)[group])]
    {
      var count: int := FreeCount(geo, descs[group]);
      if wasSet {
        descs := descs[group := WithFreeCount(geo, descs[group], Wrap32(count + 1))];
      } else {
        descs := descs[group := WithFreeCount(geo, descs[group], Wrap32(count - 1))];
      }
      descs := descs[group := WithBitmapCsum(geo, cs, bitmaps[group][..], descs[group])];
      descs := descs[group := WithDescCsum(geo, cs, group, descs[group])];
    }
  }

  method FlipBit(k: nat, data: array<bv8>) returns (wasSet: bool)
    requires k < 8 * data.Length
    modifies data
    ensures wasSet == old(Bit(data[..], k))
    ensures data[..] == Flipped(old(data[..]), k)
    // The same in bytes.
    ensures wasSet <==> (old(data[k / 8]) >> (k % 8)) & 1 == 1
    ensures data[k / 8] == old(data[k / 8]) ^ (1 << (k % 8))
    ensures forall j :: 0 <= j < data.Length && j != k / 8 ==> data[j] == old(data[j])
  {
    hide Bit, Flipped;
    ghost var before := data[..];
    BitIsShifted(before, k);
    FlippedBytes(before, k);
    wasSet := TestBit(k, data);
    if wasSet {
      ClearBit(k, data);
    } else {
      SetBit(k, data);
    }
    assert forall j :: 0 <= j < data.Length ==> data[j] == Flipped(before, k)[j];
  }
}
