/** Single bits of the flag word, and the loop that sets them one by one. */
module FlagBits {
  import opened Inodes

  /** The flag with a given bit number (the macro TEST_FLAG_VALUE). */
  function BitOf(i: nat): bv64 {
    if i == 0 then 1 else BitOf(i - 1) << 1
  }

  lemma BitOf32()
    ensures BitOf(32) == 0x1_0000_0000
  {
    assert BitOf(8) == 0x100;
    assert BitOf(16) == 0x1_0000;
    assert BitOf(24) == 0x100_0000;
  }

  lemma {:induction false} ZeroStays(i: nat, j: nat)
    requires i <= j && BitOf(i) == 0
    ensures BitOf(j) == 0
  {
    if i < j {
      ZeroStays(i, j - 1);
    }
  }

  predicate SingleBit(x: bv64) {
    x != 0 && x & (x - 1) == 0
  }

  lemma ShiftOne(x: bv64)
    requires x & (x - 1) == 0
    ensures (x << 1) & ((x << 1) - 1) == 0
  {
  }

  lemma {:induction false} BitOfSingle(i: nat)
    requires i <= 32
    ensures SingleBit(BitOf(i))
  {
    if BitOf(i) == 0 {
      ZeroStays(i, 32);
      BitOf32();
    }
    if i > 0 {
      BitOfSingle(i - 1);
      ShiftOne(BitOf(i - 1));
    }
  }

  /** One turn of the loop over the bits. */
  function Turned(w: bv64, settable: bool, wanted: bool, bit: bv64): bv64 {
    if !settable then w else if wanted then w | bit else w & !bit
  }

  /** With the bits of `done` done, a turn does `bit` as well. */
  lemma TurnMixes(prior: bv64, req: bv64, m: bv64, done: bv64, bit: bv64)
    requires SingleBit(bit)
    ensures Turned(Mix(req, prior, m & done), m & bit != 0, req & bit != 0, bit)
         == Mix(req, prior, m & (done | bit))
  {
    if m & bit == 0 {
      MissingBit(m, done, bit);
    } else {
      OneBitOf(m, bit);
      AddedBit(m, done, bit);
      TurnAdds(prior, req, m & done, bit);
    }
  }

  lemma MissingBit(m: bv64, done: bv64, bit: bv64)
    requires m & bit == 0
    ensures m & (done | bit) == m & done
  {
  }

  lemma AddedBit(m: bv64, done: bv64, bit: bv64)
    requires m & bit == bit
    ensures m & (done | bit) == (m & done) | bit
  {
  }

  lemma TurnAdds(prior: bv64, req: bv64, done: bv64, bit: bv64)
    requires SingleBit(bit)
    ensures Turned(Mix(req, prior, done), true, req & bit != 0, bit) == Mix(req, prior, done | bit)
  {
    if req & bit == 0 {
      MixZero(req, prior, done, bit);
    } else {
      OneBitOf(req, bit);
      MixOne(req, prior, done, bit);
    }
  }

  lemma MixOne(req: bv64, w: bv64, s: bv64, bit: bv64)
    requires req & bit == bit
    ensures Mix(req, w, s) | bit == Mix(req, w, s | bit)
  {
  }

  lemma MixZero(req: bv64, w: bv64, s: bv64, bit: bv64)
    requires req & bit == 0
    ensures Mix(req, w, s) & !bit == Mix(req, w, s | bit)
  {
  }

  lemma MixNothing(req: bv64, w: bv64)
    ensures Mix(req, w, 0) == w
  {
  }

  /** All the bits below the next one. */
  lemma NextBelow(bit: bv64)
    requires SingleBit(bit)
    ensures (bit << 1) - 1 == (bit - 1) | bit
  {
  }

  lemma OneBitOf(x: bv64, bit: bv64)
    requires SingleBit(bit)
    ensures x & bit != 0 ==> x & bit == bit
  {
  }
}
