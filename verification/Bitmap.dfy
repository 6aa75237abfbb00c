/** Block bitmaps: bit k of a buffer is bit k % 8 of byte k / 8 (the little-endian
    bit operations), a set bit means the cluster is in use. */
module BlockBitmap {

  type Bytes = seq<bv8>

  /** A cleared buffer. */
  function Zeros(n: nat): (r: seq<bv8>)
    ensures |r| == n && forall i :: 0 <= i < n ==> r[i] == 0
  {
    if n == 0 then [] else Zeros(n - 1) + [0]
  }

  function BitMask(k: nat): bv8
    requires k < 8
  {
    if k == 0 then 1 else if k == 1 then 2 else if k == 2 then 4 else if k == 3 then 8
    else if k == 4 then 16 else if k == 5 then 32 else if k == 6 then 64 else 128
  }

  predicate Bit(s: Bytes, k: nat)
    requires k < 8 * |s|
  {
    s[k / 8] & BitMask(k % 8) != 0
  }

  /** The bytes after the bit k has been inverted. */
  function Flipped(s: Bytes, k: nat): (r: Bytes)
    requires k < 8 * |s|
    ensures |r| == |s|
  {
    s[k / 8 := FlippedByte(s[k / 8], k % 8)]
  }

  /** How many of the first n clusters are free. */
  function FreeBits(s: Bytes, n: nat): (r: nat)
    requires n <= 8 * |s|
    ensures r <= n
  {
    if n == 0 then 0 else FreeBits(s, n - 1) + (if Bit(s, n - 1) then 0 else 1)
  }

  lemma MasksDisjoint(i: nat, j: nat)
    requires i < 8 && j < 8 && i != j
    ensures BitMask(i) & BitMask(j) == 0
  {
  }

  /** Inverting a bit inverts that bit and no other bit of the buffer. */
  lemma FlippedBits(s: Bytes, k: nat, j: nat)
    requires k < 8 * |s| && j < 8 * |s|
    ensures Bit(Flipped(s, k), j) == (if j == k then !Bit(s, j) else Bit(s, j))
  {
    if j / 8 == k / 8 {
      FlippedInByte(s[k / 8], k % 8, j % 8);
    }
  }

  function FlippedByte(b: bv8, i: nat): bv8
    requires i < 8
  {
    b ^ BitMask(i)
  }

  lemma FlippedInByte(b: bv8, i: nat, j: nat)
    requires i < 8 && j < 8
    ensures (FlippedByte(b, i) & BitMask(j) != 0)
         == (if j == i then b & BitMask(j) == 0 else b & BitMask(j) != 0)
  {
    if i == j {
      NonzeroMask(i);
      SameBit(b, BitMask(i));
    } else {
      MasksDisjoint(i, j);
      OtherBit(b, BitMask(i), BitMask(j));
    }
  }

  lemma NonzeroMask(i: nat)
    requires i < 8
    ensures SingleBit(BitMask(i))
  {
  }

  predicate SingleBit(m: bv8) {
    m != 0 && m & (m - 1) == 0
  }

  lemma OtherBit(b: bv8, m: bv8, o: bv8)
    requires m & o == 0
    ensures (b ^ m) & o == b & o
  {
  }

  lemma SameBit(b: bv8, m: bv8)
    requires SingleBit(m)
    ensures (b ^ m) & m == 0 <==> b & m != 0
  {
  }

  /** The masks are the powers of two, lowest bit first. */
  lemma MaskIsShift(b: bv8, i: nat)
    requires i < 8
    ensures BitMask(i) == 1 << i
    ensures b & BitMask(i) != 0 <==> (b >> i) & 1 == 1
  {
    if i == 0 {
    } else if i == 1 {
    } else if i == 2 {
    } else if i == 3 {
    } else if i == 4 {
    } else if i == 5 {
    } else if i == 6 {
    } else {
      assert i == 7;
    }
  }

  /** Bit k of a buffer is bit k % 8 of byte k / 8, counted from the lowest. */
  lemma BitIsShifted(s: Bytes, k: nat)
    requires k < 8 * |s|
    ensures Bit(s, k) <==> (s[k / 8] >> (k % 8)) & 1 == 1
  {
    MaskIsShift(s[k / 8], k % 8);
  }

  /** What inverting bit k does to the bytes. */
  lemma FlippedBytes(s: Bytes, k: nat)
    requires k < 8 * |s|
    ensures Flipped(s, k)[k / 8] == s[k / 8] ^ (1 << (k % 8))
    ensures forall j :: 0 <= j < |s| && j != k / 8 ==> Flipped(s, k)[j] == s[j]
  {
    MaskIsShift(s[k / 8], k % 8);
    hide BitMask;
  }

  lemma BitsDetermineByte(a: bv8, b: bv8)
    requires forall i: nat :: i < 8 ==> (a & BitMask(i) != 0) == (b & BitMask(i) != 0)
    ensures a == b
  {
    assert (a & BitMask(0) != 0) == (b & BitMask(0) != 0);
    assert (a & BitMask(1) != 0) == (b & BitMask(1) != 0);
    assert (a & BitMask(2) != 0) == (b & BitMask(2) != 0);
    assert (a & BitMask(3) != 0) == (b & BitMask(3) != 0);
    assert (a & BitMask(4) != 0) == (b & BitMask(4) != 0);
    assert (a & BitMask(5) != 0) == (b & BitMask(5) != 0);
    assert (a & BitMask(6) != 0) == (b & BitMask(6) != 0);
    assert (a & BitMask(7) != 0) == (b & BitMask(7) != 0);
  }

  /** Two buffers with the same bits are the same bytes. */
  lemma BitsDetermineBytes(s: Bytes, t: Bytes)
    requires |s| == |t|
    requires forall k: nat :: k < 8 * |s| ==> Bit(s, k) == Bit(t, k)
    ensures s == t
  {
    forall n | 0 <= n < |s|
      ensures s[n] == t[n]
    {
      forall i: nat | i < 8
        ensures (s[n] & BitMask(i) != 0) == (t[n] & BitMask(i) != 0)
      {
        var k := 8 * n + i;
        assert k / 8 == n && k % 8 == i;
        assert Bit(s, k) == Bit(t, k);
      }
      BitsDetermineByte(s[n], t[n]);
    }
  }

  lemma {:induction false} FreeBitsAgree(s: Bytes, t: Bytes, n: nat)
    requires n <= 8 * |s| && n <= 8 * |t|
    requires forall k: nat :: k < n ==> Bit(s, k) == Bit(t, k)
    ensures FreeBits(s, n) == FreeBits(t, n)
  {
    if n > 0 {
      assert Bit(s, n - 1) == Bit(t, n - 1);
      FreeBitsAgree(s, t, n - 1);
    }
  }

  /** Inverting a bit inside the counted range moves the free count by exactly one, up
      when the cluster was in use and down when it was free; a bit outside the range
      leaves it alone. */
  lemma {:induction false} FlippedFreeBits(s: Bytes, k: nat, n: nat)
    requires k < 8 * |s| && n <= 8 * |s|
    ensures FreeBits(Flipped(s, k), n)
         == FreeBits(s, n) + (if k >= n then 0 else if Bit(s, k) then 1 else -1)
  {
    if n > 0 {
      FlippedBits(s, k, n - 1);
      FlippedFreeBits(s, k, n - 1);
    }
  }

  /** The positions below n whose bit is clear. */
  ghost function FreeSet(s: Bytes, n: nat): set<nat>
    requires n <= 8 * |s|
  {
    set k: nat | k < n && !Bit(s, k)
  }

  lemma FreeSetGrows(s: Bytes, n: nat)
    requires n < 8 * |s|
    ensures n !in FreeSet(s, n)
    ensures FreeSet(s, n + 1) == if Bit(s, n) then FreeSet(s, n) else FreeSet(s, n) + {n}
  {
  }

  /** The free count is the number of positions whose bit is clear. */
  lemma {:induction false} FreeBitsIsCardinality(s: Bytes, n: nat)
    requires n <= 8 * |s|
    ensures FreeBits(s, n) == |FreeSet(s, n)|
  {
    if n == 0 {
      assert FreeSet(s, 0) == {};
    } else {
      hide FreeSet, Bit;
      FreeBitsIsCardinality(s, n - 1);
      FreeSetGrows(s, n - 1);
    }
  }

  /** Are all clusters from..to in use? */
  predicate AllSet(bits: Bytes, from: nat, to: nat)
    requires to <= 8 * |bits|
  {
    forall k: nat :: from <= k < to ==> Bit(bits, k)
  }

  /** Counting further finds nothing more exactly if everything further is in use. */
  lemma {:induction false} FreeBitsBeyond(s: Bytes, n: nat, m: nat)
    requires n <= m <= 8 * |s|
    ensures FreeBits(s, n) <= FreeBits(s, m)
    ensures FreeBits(s, n) == FreeBits(s, m) <==> AllSet(s, n, m)
  {
    if n < m {
      FreeBitsBeyond(s, n, m - 1);
      assert AllSet(s, n, m) <==> AllSet(s, n, m - 1) && Bit(s, m - 1);
    }
  }

  /** A free cluster makes the free count positive, so the decrement cannot wrap. */
  lemma {:induction false} FreeBitCounts(s: Bytes, k: nat, n: nat)
    requires k < n <= 8 * |s| && !Bit(s, k)
    ensures FreeBits(s, n) > 0
  {
    if k < n - 1 {
      FreeBitCounts(s, k, n - 1);
    }
  }

  method TestBit(k: nat, data: array<bv8>) returns (isSet: bool)
    requires k < 8 * data.Length
    ensures isSet == Bit(data[..], k)
  {
    isSet := data[k / 8] & BitMask(k % 8) != 0;
  }

  /** Setting a bit inverts it if it was clear. */
  method SetBit(k: nat, data: array<bv8>)
    requires k < 8 * data.Length
    modifies data
    ensures data[..] == if old(Bit(data[..], k)) then old(data[..]) else Flipped(old(data[..]), k)
  {
    NonzeroMask(k % 8);
    SetOrFlip(data[k / 8], BitMask(k % 8));
    data[k / 8] := data[k / 8] | BitMask(k % 8);
  }

  /** Clearing a bit inverts it if it was set. */
  method ClearBit(k: nat, data: array<bv8>)
    requires k < 8 * data.Length
    modifies data
    ensures data[..] == if old(Bit(data[..], k)) then Flipped(old(data[..]), k) else old(data[..])
  {
    NonzeroMask(k % 8);
    ClearOrFlip(data[k / 8], BitMask(k % 8));
    data[k / 8] := data[k / 8] & !BitMask(k % 8);
  }

  lemma SetOrFlip(b: bv8, m: bv8)
    requires SingleBit(m)
    ensures b & m != 0 ==> b | m == b
    ensures b & m == 0 ==> b | m == b ^ m
  {
  }

  lemma ClearOrFlip(b: bv8, m: bv8)
    requires SingleBit(m)
    ensures b & m == 0 ==> b & !m == b
    ensures b & m != 0 ==> b & !m == b ^ m
  {
  }
}
