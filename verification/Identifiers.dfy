/** Which identifier the dispatcher allocates, stated over the bitset without its scanning loops. */
module Identifiers {
  import opened Chunks
  import opened Bits

  const ID_LIMIT: nat := 0x1_0000_0000           // AudioObjectID is a UInt32
  const ID_MAX: nat := 0xFFFF_FFFF
  const SIZE_LIMIT: nat := 0x1_0000_0000_0000_0000 // size_t has 64 bits
  const CHUNK_LIMIT: nat := 0x400_0000           // ID_LIMIT / 64

  const UNKNOWN: nat := 0
  const PLUGIN: nat := 1

  predicate Reserved(id: nat) {
    id == UNKNOWN || id == PLUGIN
  }

  /** The identifier lies in the bitset, is not reserved and is not allocated. */
  predicate Candidate(bits: seq<bv64>, id: nat) {
    id < 64 * |bits| && !BitSet(bits, id) && !Reserved(id)
  }

  ghost predicate NoCandidate(bits: seq<bv64>) {
    forall id: nat :: !Candidate(bits, id)
  }

  /** IsFree. */
  predicate Free(bits: seq<bv64>, id: nat) {
    !Reserved(id) && !BitSet(bits, id)
  }

  /** Where the cyclic search for a free identifier begins: at `start` if that lies in the bitset, and else
      at the chunk after the one that `start` would fall into modulo the size of the bitset. */
  function SearchStart(bits: seq<bv64>, start: nat): (r: nat)
    requires bits != []
    ensures r < 64 * |bits|
  {
    if start < 64 * |bits| then start
    else
      var chunk := (start / 64) % |bits|;
      if chunk + 1 < |bits| then 64 * (chunk + 1) else 0
  }

  /** Walking up from `from` and wrapping around at the end of the bitset, `id` is the first candidate. */
  ghost predicate FirstCandidate(bits: seq<bv64>, from: nat, id: nat) {
    && Candidate(bits, id)
    && (from <= id ==> forall c: nat :: from <= c < id ==> !Candidate(bits, c))
    && (id < from ==> forall c: nat :: from <= c || c < id ==> !Candidate(bits, c))
  }

  /** The first identifier past the bitset that is not reserved. */
  function PastEnd(bits: seq<bv64>): nat {
    var id := (64 * |bits|) % ID_LIMIT;
    if Reserved(id) then 2 else id
  }

  /** What FindFreeID(start) returns. */
  ghost predicate Finds(bits: seq<bv64>, start: nat, id: nat) {
    if NoCandidate(bits) then id == PastEnd(bits)
    else bits != [] && FirstCandidate(bits, SearchStart(bits, start), id)
  }

  lemma FindsUnique(bits: seq<bv64>, start: nat, id1: nat, id2: nat)
    requires Finds(bits, start, id1) && Finds(bits, start, id2)
    ensures id1 == id2
  {
  }

  /** For every start, an identifier past the bitset is returned exactly when every non-reserved bit is set; a bitset
      that spans all identifiers has nothing past it, and then 2 is returned, whose bit is set. */
  lemma PastBitsetIffFull(bits: seq<bv64>, start: nat, id: nat)
    requires |bits| <= CHUNK_LIMIT && Finds(bits, start, id)
    ensures var full := forall j: nat | j < 64 * |bits| :: Reserved(j) || BitSet(bits, j);
      && (|bits| < CHUNK_LIMIT ==> (64 * |bits| <= id <==> full))
      && (|bits| == CHUNK_LIMIT ==> (BitSet(bits, id) <==> full) && (full ==> id == 2))
  {
    if forall j: nat | j < 64 * |bits| :: Reserved(j) || BitSet(bits, j) {
      assert NoCandidate(bits);
    }
    if NoCandidate(bits) {
      forall j: nat | j < 64 * |bits|
        ensures Reserved(j) || BitSet(bits, j)
      {
        assert !Candidate(bits, j);
      }
    }
  }

  // ---------------------------------------------------------------- the allocator

  /** The allocator's fields: the bitset, numAllocatedIDs_, lastAllocatedID_ and desiredMaximumID_. */
  datatype Ids = Ids(bits: seq<bv64>, count: nat, last: nat, limit: nat)
  {
    predicate Fits() {
      |bits| <= CHUNK_LIMIT && count < SIZE_LIMIT && last < ID_LIMIT && limit < ID_LIMIT
    }
  }

  function Next(ids: Ids): nat {
    (ids.last + 1) % ID_LIMIT
  }

  /** The soft maximum, doubled when the cursor has reached it and more than half of it is in use. */
  function RaisedLimit(ids: Ids): nat {
    if Next(ids) >= ids.limit && ids.count > ids.limit / 2 && ids.limit <= ID_MAX / 2 then ids.limit * 2 else ids.limit
  }

  /** The identifier AllocateID settles on. */
  ghost predicate Chooses(ids: Ids, id: nat) {
    if Next(ids) >= RaisedLimit(ids) then Finds(ids.bits, 0, id)
    else if !Free(ids.bits, Next(ids)) then Finds(ids.bits, (Next(ids) + 1) % ID_LIMIT, id)
    else id == Next(ids)
  }

  function Taken(ids: Ids, id: nat): Ids {
    Ids(Marked(ids.bits, id, true), (ids.count + 1) % SIZE_LIMIT, id, RaisedLimit(ids))
  }

  /** FreeID: the counter goes down whether or not the bit was set. */
  function Freed(ids: Ids, id: nat): Ids {
    ids.(bits := Marked(ids.bits, id, false), count := (ids.count + SIZE_LIMIT - 1) % SIZE_LIMIT)
  }

  /** Every identifier that could ever be allocated is allocated. */
  ghost predicate Exhausted(bits: seq<bv64>) {
    |bits| == CHUNK_LIMIT && NoCandidate(bits)
  }

  /** An allocated identifier is a new, non-reserved UInt32, unless all of them are in use. */
  lemma ChosenIsFresh(ids: Ids, id: nat)
    requires ids.Fits() && Chooses(ids, id)
    ensures !Reserved(id) && id < ID_LIMIT
    ensures !BitSet(ids.bits, id) <==> !Exhausted(ids.bits)
  {
    var bits := ids.bits;
    if NoCandidate(bits) {
      assert !Candidate(bits, Next(ids));
      if |bits| == CHUNK_LIMIT {
        assert !Candidate(bits, 2);
        assert PastEnd(bits) == 2;
      }
    }
  }

  lemma AllocationFits(ids: Ids, id: nat)
    requires ids.Fits() && Chooses(ids, id)
    ensures Taken(ids, id).Fits()
  {
    ChosenIsFresh(ids, id);
  }

  lemma FreeingFits(ids: Ids, id: nat)
    requires ids.Fits() && id < ID_LIMIT
    ensures Freed(ids, id).Fits()
  {
  }
}
