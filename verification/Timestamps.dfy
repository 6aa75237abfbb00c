/** The on-disk form of an inode time: 32 bits of seconds, and an extra word holding two
    more bits of seconds (the epoch) below thirty bits of nanoseconds. */
module Timestamps {
  import opened FreeSpace

  const S32_MIN := -0x8000_0000
  const S32_MAX := 0x7FFF_FFFF
  const TIMESTAMP_MIN := S32_MIN
  const EXTRA_TIMESTAMP_MAX := 0x4_0000_0000 - 1 + S32_MIN
  const NSEC_LIMIT := 0x4000_0000

  datatype Timespec = Timespec(sec: int, nsec: int)

  /** The cast to s32: the low 32 bits, read as a signed number. */
  function S32(x: int): (r: int)
    ensures S32_MIN <= r <= S32_MAX && Wrap32(r) == Wrap32(x)
  {
    var u: int := Wrap32(x);
    if u > S32_MAX then u - 0x1_0000_0000 else u
  }

  /** The masks and shifts of the source, as arithmetic: see PackedBits, UnpackedBits and
      EpochBits. */
  function EncodeExtra(ts: Timespec): u32 {
    var epoch := ((ts.sec - S32(ts.sec)) / 0x1_0000_0000) % 4;
    Wrap32(epoch + 4 * ts.nsec)
  }

  function DecodeExtra(base: u32, extra: u32): Timespec {
    var sec := S32(base);
    Timespec(if extra % 4 != 0 then sec + (extra % 4) * 0x1_0000_0000 else sec, extra / 4)
  }

  /** EXT4_EPOCH_MASK and EXT4_NSEC_MASK. */
  const EPOCH_MASK: bv32 := 0x3
  const NSEC_MASK: bv32 := 0xFFFF_FFFC

  /** Epoch and nanoseconds have no bit in common. */
  lemma PackedBits(epoch: bv32, nsec: bv32)
    requires epoch < 4 && nsec < 0x4000_0000
    ensures epoch | (nsec << 2) == epoch + 4 * nsec
    ensures (epoch | (nsec << 2)) & EPOCH_MASK == epoch && ((epoch | (nsec << 2)) & NSEC_MASK) >> 2 == nsec
  {
  }

  lemma UnpackedBits(extra: bv32)
    ensures extra & EPOCH_MASK == extra % 4 && (extra & NSEC_MASK) >> 2 == extra / 4
  {
  }

  /** The two bits above the low word. */
  lemma EpochBits(x: bv64)
    ensures (x >> 32) & 3 == x / 0x1_0000_0000 % 4
  {
  }

  predicate InRange(ts: Timespec) {
    TIMESTAMP_MIN <= ts.sec <= EXTRA_TIMESTAMP_MAX && 0 <= ts.nsec < NSEC_LIMIT
  }

  lemma SignedMultiple(x: int)
    ensures x - S32(x) == (x - S32(x)) / 0x1_0000_0000 * 0x1_0000_0000
  {
  }

  /** A time survives the encoding exactly when its seconds fit in 34 bits from
      TIMESTAMP_MIN up. */
  lemma DecodeEncodeIff(ts: Timespec)
    requires 0 <= ts.nsec < NSEC_LIMIT
    ensures DecodeExtra(Wrap32(ts.sec), EncodeExtra(ts)) == ts <==> InRange(ts)
  {
    SignedMultiple(ts.sec);
    var k := (ts.sec - S32(ts.sec)) / 0x1_0000_0000;
    assert ts.sec == S32(ts.sec) + k * 0x1_0000_0000;
    assert S32(Wrap32(ts.sec)) == S32(ts.sec);
    EpochAndNsec(k % 4, ts.nsec);
  }

  lemma EpochAndNsec(epoch: nat, nsec: nat)
    requires epoch < 4 && nsec < NSEC_LIMIT
    ensures Wrap32(epoch + 4 * nsec) % 4 == epoch && Wrap32(epoch + 4 * nsec) / 4 == nsec
  {
  }

  /** What the extra word holds: nanoseconds above the two low bits, and there the number
      of the 136-year span the seconds lie in, counted from TIMESTAMP_MIN. */
  lemma ExtraFields(ts: Timespec)
    requires 0 <= ts.nsec < NSEC_LIMIT
    ensures EncodeExtra(ts) / 4 == ts.nsec
    ensures EncodeExtra(ts) % 4 == (ts.sec + 0x8000_0000) / 0x1_0000_0000 % 4
  {
    SignedMultiple(ts.sec);
    EpochAndNsec((ts.sec - S32(ts.sec)) / 0x1_0000_0000 % 4, ts.nsec);
  }

  /** And how a pair of words is read. */
  lemma DecodedFields(base: u32, extra: u32)
    ensures var ts := DecodeExtra(base, extra);
      && ts.nsec == extra / 4
      && Wrap32(ts.sec) == base && (ts.sec + 0x8000_0000) / 0x1_0000_0000 == extra % 4
  {
    EncodeDecode(base, extra);
  }

  /** Every pair of words is the encoding of a time in range, so encoding and decoding
      are inverse bijections. */
  lemma EncodeDecode(base: u32, extra: u32)
    ensures var ts := DecodeExtra(base, extra);
      InRange(ts) && Wrap32(ts.sec) == base && EncodeExtra(ts) == extra
  {
    var ts := DecodeExtra(base, extra);
    var e := extra % 4;
    assert ts.sec == S32(base) + e * 0x1_0000_0000;
    WrapMultiple(S32(base), e);
    assert Wrap32(ts.sec) == base;
    assert S32(ts.sec) == S32(base);
    assert (ts.sec - S32(ts.sec)) / 0x1_0000_0000 == e;
  }

  lemma WrapMultiple(x: int, k: int)
    ensures Wrap32(x + k * 0x1_0000_0000) == Wrap32(x)
  {
  }

  /** clamp_t(int32_t, x, lo, hi): the value is converted to the type first. */
  function ClampS32(x: int, lo: int, hi: int): int {
    var v := S32(x);
    var v' := if v < lo then lo else v;
    if v' > hi then hi else v'
  }

  /** The words of one time in the raw inode; `fits` says whether there is an extra word. */
  class RawTime {
    const fits: bool
    var base: u32
    var extra: u32

    method Set(ts: Timespec)
      modifies this
      ensures fits ==> base == Wrap32(ts.sec) && extra == EncodeExtra(ts)
      ensures !fits ==> base == Wrap32(ClampS32(ts.sec, S32_MIN, S32_MAX)) && extra == old(extra)
    {
      if fits {
        base := Wrap32(ts.sec);
        extra := EncodeExtra(ts);
      } else {
        base := Wrap32(ClampS32(ts.sec, S32_MIN, S32_MAX));
      }
    }

    function Get(): Timespec
      reads this
    {
      if fits then DecodeExtra(base, extra) else Timespec(S32(base), 0)
    }

    /** Writing a time and reading it back: with the extra word, exact on the whole range;
        without it, the nanoseconds are lost and the seconds are cut to 32 bits. */
    method SetThenGet(ts: Timespec) returns (r: Timespec)
      requires 0 <= ts.nsec < NSEC_LIMIT
      modifies this
      ensures fits ==> (r == ts <==> InRange(ts))
      ensures !fits ==> r == Timespec(S32(ts.sec), 0)
    {
      Set(ts);
      r := Get();
      DecodeEncodeIff(ts);
    }
  }

  function Clamped(x: int): int {
    if x < S32_MIN then S32_MIN else if x > S32_MAX then S32_MAX else x
  }

  /** Without the extra word the macro means to clamp, but the conversion comes before
      the comparison.  What is stored is the clamped second exactly when there is nothing
      to clamp, or when the low 32 bits happen to be the bound itself. */
  lemma ClampIff(sec: int)
    ensures ClampS32(sec, S32_MIN, S32_MAX) == S32(sec)
    ensures ClampS32(sec, S32_MIN, S32_MAX) == Clamped(sec)
      <==> S32_MIN <= sec <= S32_MAX
           || (sec > S32_MAX && Wrap32(sec) == 0x7FFF_FFFF) || (sec < S32_MIN && Wrap32(sec) == 0x8000_0000)
  {
  }
}
