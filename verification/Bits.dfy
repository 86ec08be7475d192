/** One 64-bit chunk of the dispatcher's bitset of allocated identifiers. */
module Chunks {

  type BitIndex = k: bv7 | k < 64

  /** BitChunk(1) << k. */
  function Mask(k: BitIndex): bv64 {
    (1 as bv64) << k
  }

  function And(chunk: bv64, mask: bv64): bv64 {
    chunk & mask
  }

  predicate Hits(chunk: bv64, mask: bv64) {
    And(chunk, mask) != 0
  }

  function Or(chunk: bv64, mask: bv64): bv64 {
    chunk | mask
  }

  function AndNot(chunk: bv64, mask: bv64): bv64 {
    chunk & !mask
  }

  predicate Has(chunk: bv64, k: BitIndex) {
    Hits(chunk, Mask(k))
  }

  function With(chunk: bv64, k: BitIndex): bv64 {
    Or(chunk, Mask(k))
  }

  function Without(chunk: bv64, k: BitIndex): bv64 {
    AndNot(chunk, Mask(k))
  }

  lemma MasksDisjoint(k: BitIndex, j: BitIndex)
    requires k != j
    ensures Mask(k) & Mask(j) == 0
  {
  }

  lemma MaskNonZero(k: BitIndex)
    ensures Mask(k) != 0
  {
  }

  lemma OtherBitsSet(chunk: bv64, m: bv64, n: bv64)
    requires m & n == 0
    ensures And(Or(chunk, m), n) == And(chunk, n)
  {
  }

  lemma OtherBitsCleared(chunk: bv64, m: bv64, n: bv64)
    requires m & n == 0
    ensures And(AndNot(chunk, m), n) == And(chunk, n)
  {
  }

  lemma OwnBitChanged(chunk: bv64, m: bv64)
    ensures Or(chunk, m) & m == m && AndNot(chunk, m) & m == 0
  {
  }

  lemma HasChanged(chunk: bv64, k: BitIndex)
    ensures Has(With(chunk, k), k) && !Has(Without(chunk, k), k)
  {
    MaskNonZero(k);
    OwnBitChanged(chunk, Mask(k));
  }

  lemma HitsKept(chunk: bv64, k: BitIndex, j: BitIndex)
    requires j != k
    ensures And(Or(chunk, Mask(k)), Mask(j)) == And(chunk, Mask(j)) == And(AndNot(chunk, Mask(k)), Mask(j))
  {
    MasksDisjoint(k, j);
    OtherBitsSet(chunk, Mask(k), Mask(j));
    OtherBitsCleared(chunk, Mask(k), Mask(j));
  }

  lemma HasKept(chunk: bv64, k: BitIndex, j: BitIndex)
    requires j != k
    ensures Has(With(chunk, k), j) == Has(chunk, j) == Has(Without(chunk, k), j)
  {
    HitsKept(chunk, k, j);
  }

  const FULL: bv64 := 0xFFFF_FFFF_FFFF_FFFF

  /** Comparing with BitChunk(-1) tells whether every bit is set. */
  lemma FullHasAll(chunk: bv64)
    ensures chunk == FULL <==> forall k: BitIndex :: Has(chunk, k)
  {
    if chunk == FULL {
      forall k: BitIndex
        ensures Has(chunk, k)
      {
        MaskNonZero(k);
      }
    }
    if forall k: BitIndex :: Has(chunk, k) {
      AllHit(chunk);
    }
  }

  predicate Covers(chunk: bv64, mask: bv64) {
    And(chunk, mask) == mask
  }

  /** A mask has one bit. */
  lemma OneBit(chunk: bv64, k: BitIndex)
    requires Has(chunk, k)
    ensures Covers(chunk, Mask(k))
  {
  }

  /** The `n` lowest bits. */
  function Low(n: bv7): bv64
    requires n <= 64
  {
    FULL >> (64 - n)
  }

  lemma LowEnds()
    ensures Low(0) == 0 && Low(64) == FULL
  {
  }

  lemma LowGrows(n: bv7)
    requires 0 < n <= 64
    ensures Low(n) == Or(Low(n - 1), Mask(n - 1))
  {
  }

  lemma CoversBoth(chunk: bv64, m: bv64, n: bv64)
    requires Covers(chunk, m) && Covers(chunk, n)
    ensures Covers(chunk, Or(m, n))
  {
  }

  lemma CoversNothing(chunk: bv64)
    ensures Covers(chunk, 0)
  {
  }

  lemma {:induction false} CoversLow(chunk: bv64, n: bv7)
    requires n <= 64 && forall k: BitIndex :: k < n ==> Has(chunk, k)
    ensures Covers(chunk, Low(n))
    decreases n
  {
    if n == 0 {
      LowEnds();
      CoversNothing(chunk);
    } else {
      CoversLow(chunk, n - 1);
      OneBit(chunk, n - 1);
      LowGrows(n);
      CoversBoth(chunk, Low(n - 1), Mask(n - 1));
    }
  }

  lemma AllHit(chunk: bv64)
    requires forall k: BitIndex :: Has(chunk, k)
    ensures chunk == FULL
  {
    CoversLow(chunk, 64);
    LowEnds();
  }

  lemma ZeroHasNone(k: BitIndex)
    ensures !Has(0, k)
  {
  }
}

/** A bitset of such chunks. */
module Bits {
  import opened Chunks

  /** The bit of an identifier within its chunk. */
  function Bit(id: nat): BitIndex {
    BitInRange(id % 64);
    (id % 64) as bv7
  }

  lemma BitInRange(k: nat)
    requires k < 64
    ensures (k as bv7) as nat == k && (k as bv7) < 64
  {
  }

  lemma BitsDiffer(i: nat, j: nat)
    requires i % 64 != j % 64
    ensures Bit(i) != Bit(j)
  {
    BitInRange(i % 64);
    BitInRange(j % 64);
  }

  /** Whether the bit of `id` is set; bits past the end of the bitset are clear. */
  predicate BitSet(bits: seq<bv64>, id: nat) {
    id / 64 < |bits| && Has(bits[id / 64], Bit(id))
  }

  /** vector::resize, when the bitset has to grow. */
  function Resized(bits: seq<bv64>, size: nat): (r: seq<bv64>)
    ensures |r| == if |bits| < size then size else |bits|
    ensures forall id: nat :: BitSet(r, id) <==> BitSet(bits, id)
  {
    if |bits| < size then
      var r := bits + seq(size - |bits|, i => 0 as bv64);
      assert forall id: nat :: BitSet(r, id) <==> BitSet(bits, id) by {
        forall id: nat | |bits| <= id / 64 < size
          ensures !BitSet(r, id)
        {
          assert r[id / 64] == 0;
          ZeroHasNone(Bit(id));
        }
      }
      r
    else bits
  }

  /** SetFree on the bitset: exactly one bit changes. */
  function Marked(bits: seq<bv64>, id: nat, used: bool): (r: seq<bv64>)
    ensures |r| == if |bits| <= id / 64 then id / 64 + 1 else |bits|
    ensures forall j: nat :: BitSet(r, j) <==> if j == id then used else BitSet(bits, j)
  {
    var grown := Resized(bits, id / 64 + 1);
    var chunk := if used then With(grown[id / 64], Bit(id)) else Without(grown[id / 64], Bit(id));
    var r := grown[id / 64 := chunk];
    assert forall j: nat :: BitSet(r, j) <==> if j == id then used else BitSet(bits, j) by {
      forall j: nat
        ensures BitSet(r, j) <==> if j == id then used else BitSet(bits, j)
      {
        MarkedBit(grown, id, used, j);
        assert BitSet(grown, j) <==> BitSet(bits, j);
      }
    }
    r
  }

  lemma MarkedBit(bits: seq<bv64>, id: nat, used: bool, j: nat)
    requires id / 64 < |bits|
    ensures
      var chunk := if used then With(bits[id / 64], Bit(id)) else Without(bits[id / 64], Bit(id));
      BitSet(bits[id / 64 := chunk], j) <==> if j == id then used else BitSet(bits, j)
  {
    if j / 64 == id / 64 {
      assert j == 64 * (j / 64) + j % 64 && id == 64 * (id / 64) + id % 64;
      if j == id {
        HasChanged(bits[id / 64], Bit(id));
      } else {
        BitsDiffer(id, j);
        HasKept(bits[id / 64], Bit(id), Bit(j));
      }
    }
  }

  /** The identifiers whose bit is set. */
  ghost function Used(bits: seq<bv64>): set<nat> {
    set id: nat | id < 64 * |bits| && BitSet(bits, id)
  }

  lemma MarkedUsed(bits: seq<bv64>, id: nat, used: bool)
    ensures Used(Marked(bits, id, used)) == if used then Used(bits) + {id} else Used(bits) - {id}
  {
    var r := Marked(bits, id, used);
    forall j: nat
      ensures j in Used(r) <==> if j == id then used else j in Used(bits)
    {
      assert BitSet(r, j) <==> if j == id then used else BitSet(bits, j);
    }
  }
}
