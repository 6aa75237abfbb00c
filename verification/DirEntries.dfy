/** Record lengths of directory entries, in their on-disk form.

    Lengths are multiples of four, so their two low bits are free to hold bits 16 and 17.
    The masks and shifts of the source are written as arithmetic: MaskBits says that each
    of them is the same, and DisjointBits that `|` adds the two parts. */
module DirEntries {

  const MAX_REC_LEN := 0xFFFF
  const MAX_BLOCK_SIZE := 0x1_0000

  /** What BUG_ON lets through. */
  predicate LegalLength(len: nat, blocksize: nat) {
    len <= blocksize <= 0x4_0000 && len % 4 == 0
  }

  /** len & 65532 */
  function Middle(len: nat): nat {
    len % 0x1_0000 - len % 4
  }

  /** Each mask and shift of the two conversions. */
  lemma MaskBits(len: bv32)
    ensures len & 65532 == len % 0x1_0000 - len % 4
    ensures (len >> 16) & 3 == len / 0x1_0000 % 4 && (len & 3) << 16 == len % 4 * 0x1_0000
  {
  }

  /** The two parts of a code, and those of a length, have no bit in common. */
  lemma DisjointBits(len: bv32, low: bv32)
    requires low < 4
    ensures (len & 65532) | low == (len & 65532) + low
    ensures (len & 65532) | (low << 16) == (len & 65532) + (low << 16)
  {
  }

  /** ext4_rec_len_to_disk; how it is compiled depends on the page size. */
  function ToDisk(bigPages: bool, len: nat, blocksize: nat): (dlen: nat)
    requires LegalLength(len, blocksize)
    ensures dlen <= MAX_REC_LEN
  {
    if !bigPages then len % 0x1_0000
    else if len < 0x1_0000 then len
    else if len == blocksize then if blocksize == 0x1_0000 then MAX_REC_LEN else 0
    else Middle(len) + len / 0x1_0000 % 4
  }

  /** ext4_rec_len_from_disk */
  function FromDisk(bigPages: bool, dlen: nat, blocksize: nat): nat
    requires dlen <= MAX_REC_LEN
  {
    if !bigPages then dlen
    else if dlen == MAX_REC_LEN || dlen == 0 then blocksize
    else Middle(dlen) + dlen % 4 * 0x1_0000
  }

  /** The codes themselves.  A length below 64K is its own code; a whole block is 65535 in
      a 64K block and 0 in a larger one; any other length has bits 2 to 15 in place and
      bits 16 and 17 below them. */
  lemma CodeOf(len: nat, blocksize: nat)
    requires LegalLength(len, blocksize)
    ensures len < 0x1_0000 ==> ToDisk(true, len, blocksize) == len
    ensures len == blocksize == 0x1_0000 ==> ToDisk(true, len, blocksize) == 65535
    ensures len == blocksize > 0x1_0000 ==> ToDisk(true, len, blocksize) == 0
    ensures 0x1_0000 <= len != blocksize ==>
      var code := ToDisk(true, len, blocksize);
      code / 4 == len % 0x1_0000 / 4 && code % 4 == len / 0x1_0000
    ensures len < 0x1_0000 ==> ToDisk(false, len, blocksize) == len
  {
    Requarter(len % 0x1_0000 / 4, len / 0x1_0000 % 4);
  }

  /** And how any code is read, in the image of ToDisk or not. */
  lemma LengthOf(code: nat, blocksize: nat)
    requires code <= MAX_REC_LEN
    ensures code == 0 || code == 65535 ==> FromDisk(true, code, blocksize) == blocksize
    ensures 0 < code < 65535 ==>
      var len := FromDisk(true, code, blocksize);
      len % 0x1_0000 == code / 4 * 4 && len / 0x1_0000 == code % 4
    ensures FromDisk(false, code, blocksize) == code
  {
  }

  lemma Requarter(q: nat, low: nat)
    requires low < 4
    ensures (4 * q + low) / 4 == q && (4 * q + low) % 4 == low
  {
  }

  /** With 64K pages a length survives unless it is zero below a nonzero block size, or
      2^18 - 4 in a larger block, whose code is the reserved 65535. */
  lemma BigPagesIff(len: nat, blocksize: nat)
    requires LegalLength(len, blocksize)
    ensures FromDisk(true, ToDisk(true, len, blocksize), blocksize) == len
       <==> !(len == 0 && blocksize != 0) && !(len == 0x3_FFFC && blocksize != len)
  {
  }

  /** So no nonzero length is lost for any block size ext4 supports. */
  lemma BigPagesLossless(len: nat, blocksize: nat)
    requires LegalLength(len, blocksize) && len != 0 && blocksize <= MAX_BLOCK_SIZE
    ensures FromDisk(true, ToDisk(true, len, blocksize), blocksize) == len
  {
    BigPagesIff(len, blocksize);
  }

  /** With smaller pages the length is its own code: lost exactly from 64K up. */
  lemma SmallPagesIff(len: nat, blocksize: nat)
    requires LegalLength(len, blocksize)
    ensures FromDisk(false, ToDisk(false, len, blocksize), blocksize) == len <==> len < 0x1_0000
  {
  }

  /** Different lengths never share a code in a block ext4 supports. */
  lemma CodesDiffer(a: nat, b: nat, blocksize: nat)
    requires LegalLength(a, blocksize) && LegalLength(b, blocksize) && blocksize <= MAX_BLOCK_SIZE
    requires a != 0 && b != 0 && a != b
    ensures ToDisk(true, a, blocksize) != ToDisk(true, b, blocksize)
  {
    BigPagesLossless(a, blocksize);
    BigPagesLossless(b, blocksize);
  }

  // ---- the length an entry needs

  const HASH_SIZE := 8   // two 32-bit words

  /** ext4_dir_rec_len */
  function RecLen(nameLen: nat, hashed: bool): nat {
    (nameLen + 8 + 3 + (if hashed then HASH_SIZE else 0)) / 4 * 4
  }

  /** EXT4_DIRENT_HASHES: where the hashes of an entry start. */
  function HashOffset(nameLen: nat): nat {
    (8 + nameLen + 3) / 4 * 4
  }

  /** The length asked for is the least multiple of four that holds header, name and, in
      a casefolded encrypted directory, the hashes, which start past the name and end
      exactly with the record.  Any name a byte can count gives a legal length. */
  lemma RecLenFits(nameLen: nat, hashed: bool, blocksize: nat)
    requires nameLen <= 255 && 1024 <= blocksize <= MAX_BLOCK_SIZE
    ensures LegalLength(RecLen(nameLen, hashed), blocksize)
    ensures 8 + nameLen <= HashOffset(nameLen) < 8 + nameLen + 4
    ensures RecLen(nameLen, hashed) == HashOffset(nameLen) + (if hashed then HASH_SIZE else 0)
    ensures FromDisk(true, ToDisk(true, RecLen(nameLen, hashed), blocksize), blocksize) == RecLen(nameLen, hashed)
  {
    BigPagesLossless(RecLen(nameLen, hashed), blocksize);
  }
}
