/** Inodes: the in-memory fields that the ioctls of this model read or change. */
module Inodes {
  import opened FreeSpace

  datatype Kind = Regular | Directory | Other
  datatype Time = Time(sec: int, nsec: int)

  /** EXT4_N_BLOCKS words of four bytes. */
  const I_DATA_SIZE := 60

  // The flag word is 64 bits wide: on-disk flags in the low half, state bits from 32 up.
  const IMMUTABLE_FL: bv64 := 0x10
  const JOURNAL_DATA_FL: bv64 := 0x4000
  const EXTENTS_FL: bv64 := 0x8_0000
  const DAX_FL: bv64 := 0x200_0000
  const INLINE_DATA_FL: bv64 := 0x1000_0000
  const PROJINHERIT_FL: bv64 := 0x2000_0000
  const CASEFOLD_FL: bv64 := 0x4000_0000
  const VERITY_IN_PROGRESS: bv64 := 0x200_0000_0000   // state bit 9, stored at 32 + 9

  /** The on-disk half of the word, what an unsigned int holds. */
  const LOW_HALF: bv64 := 0xFFFF_FFFF
  /** EXT4_FL_USER_MODIFIABLE and EXT4_FL_USER_VISIBLE. */
  const USER_MODIFIABLE: bv64 := 0x624B_C0FF
  const USER_VISIBLE: bv64 := 0x725B_DFFF
  /** EXT4_REG_FLMASK and EXT4_OTHER_FLMASK, the former cut to the low half. */
  const REG_FLMASK: bv64 := 0x9FFC_FFFF
  const OTHER_FLMASK: bv64 := 0xC0
  /** VERITY, ENCRYPT, JOURNAL_DATA and INLINE_DATA exclude DAX. */
  const DAX_MUT_EXCL: bv64 := 0x1010_4800

  /** HUGE_FILE and EXTENTS, the only flags that move with the data. */
  const SHOULD_SWAP: bv64 := 0xC_0000

  /** The bits of x inside the mask s, the bits of y outside it. */
  function Mix(x: bv64, y: bv64, s: bv64): bv64 {
    (x & s) | (y & !s)
  }

  lemma MixParts(x: bv64, y: bv64, s: bv64)
    ensures Mix(x, y, s) & s == x & s
    ensures Mix(x, y, s) & !s == y & !s
  {
  }

  lemma MixSelf(x: bv64, s: bv64)
    ensures (x & s) | (x & !s) == x
  {
  }

  lemma MixBack(a: bv64, b: bv64, s: bv64)
    ensures Mix(Mix(a, b, s), Mix(b, a, s), s) == a
  {
    MixParts(a, b, s);
    MixParts(b, a, s);
    MixSelf(a, s);
  }

  lemma MixOutside(x: bv64, y: bv64, s: bv64, mask: bv64)
    requires mask & s == 0
    ensures Mix(x, y, s) & mask == y & mask
  {
  }

  /** What an inode is: fields no swap moves. */
  datatype Identity = Identity(kind: Kind, nlink: nat, uid: nat, gid: nat, vfsFlags: bv64)

  /** What an inode holds: fields a swap moves whole. */
  datatype Contents = Contents(data: seq<bv8>, size: int, disksize: int, atime: Time, mtime: Time)

  /** An inode as a value. */
  datatype InodeState = InodeState(
    ino: nat, identity: Identity, contents: Contents, flags: bv64, version: int, ctime: Time,
    blocks: nat, bytes: nat, generation: u32, csumSeed: u32, projid: nat, cachedExtents: nat)

  /** Bytes charged to an inode: 512-byte sectors and a remainder. */
  function Usage(s: InodeState): nat {
    s.blocks * 512 + s.bytes
  }

  class Inode {
    const ino: nat
    var kind: Kind
    var nlink: nat
    var uid: nat
    var gid: nat
    var flags: bv64               // ext4_inode_info.i_flags
    var vfsFlags: bv64            // inode.i_flags
    var version: int
    var atime: Time
    var mtime: Time
    var ctime: Time
    const data: array<bv8>        // i_data
    var disksize: int
    var size: int
    var blocks: nat
    var bytes: nat
    var generation: u32
    var csumSeed: u32
    var projid: nat
    var cachedExtents: nat        // entries of the extent-status tree

    ghost predicate Valid() {
      data.Length == I_DATA_SIZE
    }

    ghost function State(): InodeState
      reads this, data
    {
      InodeState(ino, Identity(kind, nlink, uid, gid, vfsFlags), Contents(data[..], size, disksize, atime, mtime),
                 flags, version, ctime, blocks, bytes, generation, csumSeed, projid, cachedExtents)
    }
  }
}
