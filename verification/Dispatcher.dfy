/** Searching the bitset in the order FindFreeID visits its chunks. */
module FreeIdSearch {
  import opened Chunks
  import opened Bits
  import opened Identifiers

  /** The chunk visited in round `n`, without the remainder; `first` is the one visited in round 0. */
  function ChunkAt(size: nat, first: nat, n: nat): nat
    requires first < size && n <= size
  {
    if first + n < size then first + n else first + n - size
  }

  lemma ChunkAtIsRemainder(size: nat, startChunk: nat, n: nat)
    requires 0 < size && n <= size
    ensures (startChunk + n) % size == ChunkAt(size, startChunk % size, n)
  {
    var q, first := startChunk / size, startChunk % size;
    assert startChunk == q * size + first;
    var r := ChunkAt(size, first, n);
    if first + n < size {
      RemainderUnique(startChunk + n, size, q, r);
    } else {
      assert (q + 1) * size == q * size + size;
      RemainderUnique(startChunk + n, size, q + 1, r);
    }
  }

  lemma RemainderUnique(x: nat, size: nat, k: nat, r: nat)
    requires r < size && x == k * size + r
    ensures x % size == r
  {
    var d := k - x / size;
    assert x == (x / size) * size + x % size;
    assert d * size == k * size - (x / size) * size;
    SmallMultiple(d, size);
  }

  lemma SmallMultiple(d: int, size: nat)
    requires 0 - size < d * size < size
    ensures d == 0
  {
  }

  /** After `n` rounds the search has not come past identifier `c` yet. */
  predicate Ahead(size: nat, first: nat, start: nat, n: nat, c: nat) {
    if c / 64 == first then (if start <= c then n == 0 else n <= size)
    else n <= if first < c / 64 then c / 64 - first else c / 64 + size - first
  }

  /** The chunk of round `n` is searched, so what was ahead of it and is not in it stays ahead. */
  lemma StillAhead(size: nat, first: nat, start: nat, n: nat, c: nat)
    requires first < size && n <= size && c < 64 * size && Ahead(size, first, start, n, c)
    ensures (c / 64 == ChunkAt(size, first, n) && !(n == 0 && c < start)) || Ahead(size, first, start, n + 1, c)
  {
  }

  /** What the search meets first is first in cyclic order. */
  lemma FoundIsFirst(bits: seq<bv64>, start: nat, n: nat, id: nat)
    requires bits != [] && n <= |bits| && Candidate(bits, id)
    requires var first := (start / 64) % |bits|;
      && id / 64 == ChunkAt(|bits|, first, n) && !(n == 0 && id < start)
      && (forall c: nat :: Candidate(bits, c) ==> Ahead(|bits|, first, start, n, c))
    requires forall c: nat :: Candidate(bits, c) && c / 64 == id / 64 && c < id ==> n == 0 && c < start
    ensures FirstCandidate(bits, SearchStart(bits, start), id)
  {
    var from, first := SearchStart(bits, start), (start / 64) % |bits|;
    if start < 64 * |bits| {
      RemainderUnique(start / 64, |bits|, 0, start / 64);
    }
    assert Ahead(|bits|, first, start, n, id);
    forall c: nat | Candidate(bits, c)
      ensures from <= id ==> !(from <= c < id)
      ensures id < from ==> id <= c < from
    {
      assert Ahead(|bits|, first, start, n, c);
      BeforeFound(|bits|, first, start, n, id, c, from);
    }
  }

  lemma BeforeFound(size: nat, first: nat, start: nat, n: nat, id: nat, c: nat, from: nat)
    requires first < size && n <= size && id < 64 * size && c < 64 * size
    requires id / 64 == ChunkAt(size, first, n) && !(n == 0 && id < start)
    requires Ahead(size, first, start, n, id) && Ahead(size, first, start, n, c)
    requires c / 64 == id / 64 && c < id ==> n == 0 && c < start
    requires from == if start < 64 * size then start else if first + 1 < size then 64 * (first + 1) else 0
    requires start < 64 * size ==> first == start / 64
    ensures from <= id ==> !(from <= c < id)
    ensures id < from ==> id <= c < from
  {
  }
}

/** The dispatcher's registry and identifier allocator, as run under its registration mutex. */
module Dispatcher {
  import opened Chunks
  import opened Bits
  import opened Identifiers
  import opened FreeIdSearch

  /** The registry: the allocator and the objects by identifier. */
  datatype Registry<O> = Registry(ids: Ids, objects: map<nat, O>)

  /** RegisterObject(obj, requested) takes the registry to `r'` and returns `result`. */
  ghost predicate Registers<O>(r: Registry<O>, obj: O, requested: nat, result: nat, r': Registry<O>) {
    if requested == UNKNOWN then
      exists id: nat :: Chooses(r.ids, id)
        && r'.ids == Taken(r.ids, id)
        && result == (if id in r.objects then UNKNOWN else id)
        && r'.objects == (if id in r.objects then r.objects else r.objects[id := obj])
    else
      && r'.ids == r.ids
      && result == (if requested in r.objects then UNKNOWN else requested)
      && r'.objects == (if requested in r.objects then r.objects else r.objects[requested := obj])
  }

  /** UnregisterObject. */
  function Unregistered<O>(r: Registry<O>, id: nat): Registry<O> {
    if id == UNKNOWN || id !in r.objects then r
    else Registry(Freed(r.ids, id), r.objects - {id})
  }

  class Dispatcher<O> {
    var allocatedBits: seq<bv64>
    var numAllocatedIDs: nat
    var lastAllocatedID: nat
    var desiredMaximumID: nat
    var registeredObjects: map<nat, O>

    function AllocatorState(): Ids
      reads this
    {
      Ids(allocatedBits, numAllocatedIDs, lastAllocatedID, desiredMaximumID)
    }

    function View(): Registry<O>
      reads this
    {
      Registry(AllocatorState(), registeredObjects)
    }

    ghost predicate Valid()
      reads this
    {
      AllocatorState().Fits() && forall id :: id in registeredObjects ==> 0 < id < ID_LIMIT
    }

    constructor (hintMaximumID: nat)
      requires hintMaximumID < ID_LIMIT
      ensures Valid()
      ensures View() == Registry(Ids([], 0, 0, hintMaximumID), map[])
    {
      allocatedBits, numAllocatedIDs, lastAllocatedID := [], 0, 0;
      desiredMaximumID, registeredObjects := hintMaximumID, map[];
    }

    method IsFree(objectID: nat) returns (free: bool)
      ensures free == Free(allocatedBits, objectID)
    {
      if Reserved(objectID) {
        return false;
      }
      var chunk := objectID / 64;
      if |allocatedBits| <= chunk {
        return true;
      }
      free := !Has(allocatedBits[chunk], Bit(objectID));
    }

    method SetFree(objectID: nat, free: bool)
      modifies this`allocatedBits
      ensures allocatedBits == Marked(old(allocatedBits), objectID, !free)
    {
      var chunk := objectID / 64;
      allocatedBits := Resized(allocatedBits, chunk + 1);
      if free {
        allocatedBits := allocatedBits[chunk := Without(allocatedBits[chunk], Bit(objectID))];
      } else {
        allocatedBits := allocatedBits[chunk := With(allocatedBits[chunk], Bit(objectID))];
      }
    }

    /** Looks for a candidate in one chunk; in round 0 only from `startID` on. */
    method ScanChunk(chunk: nat, n: nat, startID: nat) returns (found: bool, objectID: nat)
      requires |allocatedBits| <= CHUNK_LIMIT && chunk < |allocatedBits|
      ensures found ==> Candidate(allocatedBits, objectID) && objectID / 64 == chunk && !(n == 0 && objectID < startID)
      ensures forall c: nat :: Candidate(allocatedBits, c) && c / 64 == chunk && (found ==> c < objectID)
                ==> n == 0 && c < startID
    {
      var chunkBits := allocatedBits[chunk];
      if chunkBits == FULL {
        FullChunk(allocatedBits, chunk);
        return false, 0;
      }
      var bit := 0;
      while bit < 64
        invariant bit <= 64
        invariant forall c: nat :: Candidate(allocatedBits, c) && c / 64 == chunk && c < 64 * chunk + bit
                    ==> n == 0 && c < startID
      {
        objectID := (chunk * 64 + bit) % ID_LIMIT;
        assert objectID == 64 * chunk + bit && objectID / 64 == chunk;
        if !Has(chunkBits, Bit(objectID)) && !(n == 0 && objectID < startID) && !Reserved(objectID) {
          return true, objectID;
        }
        bit := bit + 1;
      }
      found, objectID := false, 0;
    }

    /** The chunked scan, with its skipping of full chunks, finds what the plain description asks for. */
    method FindFreeID(startID: nat) returns (id: nat)
      requires |allocatedBits| <= CHUNK_LIMIT
      ensures Finds(allocatedBits, startID, id)
    {
      var size := |allocatedBits|;
      if size != 0 {
        var startChunk := startID / 64;
        ghost var first := startChunk % size;
        var n := 0;
        while n <= size
          invariant n <= size + 1
          invariant forall c: nat :: Candidate(allocatedBits, c) ==> Ahead(size, first, startID, n, c)
        {
          var chunk := (startChunk + n) % size;
          ChunkAtIsRemainder(size, startChunk, n);
          var found, objectID := ScanChunk(chunk, n, startID);
          if found {
            FoundIsFirst(allocatedBits, startID, n, objectID);
            return objectID;
          }
          forall c: nat | Candidate(allocatedBits, c)
            ensures Ahead(size, first, startID, n + 1, c)
          {
            StillAhead(size, first, startID, n, c);
          }
          n := n + 1;
        }
        NothingAhead(allocatedBits, first, startID);
      }
      id := (size * 64) % ID_LIMIT;
      while Reserved(id)
        invariant id <= 2 || id == (size * 64) % ID_LIMIT
        invariant Reserved((size * 64) % ID_LIMIT) || id == (size * 64) % ID_LIMIT
        decreases 2 - id
      {
        id := id + 1;
      }
    }

    method RaiseLimit(nextID: nat)
      requires nextID == Next(AllocatorState())
      modifies this`desiredMaximumID
      ensures desiredMaximumID == RaisedLimit(old(AllocatorState()))
    {
      if nextID >= desiredMaximumID && numAllocatedIDs > desiredMaximumID / 2 {
        if desiredMaximumID <= ID_MAX / 2 {
          desiredMaximumID := desiredMaximumID * 2;
        }
      }
    }

    /** The identifier to take, once the soft maximum has been raised if need be. */
    method SelectID(nextID: nat) returns (id: nat)
      requires |allocatedBits| <= CHUNK_LIMIT
      ensures if nextID >= desiredMaximumID then Finds(allocatedBits, 0, id)
              else if !Free(allocatedBits, nextID) then Finds(allocatedBits, (nextID + 1) % ID_LIMIT, id)
              else id == nextID
    {
      var isFree := IsFree(nextID);
      id := nextID;
      if nextID >= desiredMaximumID {
        id := FindFreeID(0);
      } else if !isFree {
        id := FindFreeID((nextID + 1) % ID_LIMIT);
      }
    }

    method AllocateID() returns (id: nat)
      requires AllocatorState().Fits()
      modifies this`allocatedBits, this`numAllocatedIDs, this`lastAllocatedID, this`desiredMaximumID
      ensures Chooses(old(AllocatorState()), id)
      ensures AllocatorState() == Taken(old(AllocatorState()), id)
    {
      var nextID := (lastAllocatedID + 1) % ID_LIMIT;
      RaiseLimit(nextID);
      id := SelectID(nextID);
      SetFree(id, false);
      numAllocatedIDs := (numAllocatedIDs + 1) % SIZE_LIMIT;
      lastAllocatedID := id;
    }

    method FreeID(objectID: nat)
      modifies this`allocatedBits, this`numAllocatedIDs
      ensures AllocatorState() == Freed(old(AllocatorState()), objectID)
    {
      SetFree(objectID, true);
      numAllocatedIDs := (numAllocatedIDs + SIZE_LIMIT - 1) % SIZE_LIMIT;
    }

    method RegisterObject(obj: O, requested: nat) returns (objectID: nat)
      requires Valid() && requested < ID_LIMIT
      modifies this
      ensures Valid()
      ensures Registers(old(View()), obj, requested, objectID, View())
    {
      objectID := requested;
      if objectID == UNKNOWN {
        objectID := AllocateID();
        AllocationFits(old(AllocatorState()), objectID);
        ChosenIsFresh(old(AllocatorState()), objectID);
      }
      if objectID in registeredObjects {
        return UNKNOWN;
      }
      registeredObjects := registeredObjects[objectID := obj];
    }

    method UnregisterObject(objectID: nat)
      requires Valid()
      modifies this
      ensures Valid()
      ensures View() == Unregistered(old(View()), objectID)
    {
      if objectID == UNKNOWN || objectID !in registeredObjects {
        return;
      }
      registeredObjects := registeredObjects - {objectID};
      FreeID(objectID);
    }
  }

  lemma NothingAhead(bits: seq<bv64>, first: nat, start: nat)
    requires first < |bits|
    requires forall c: nat :: Candidate(bits, c) ==> Ahead(|bits|, first, start, |bits| + 1, c)
    ensures NoCandidate(bits)
  {
    var rounds := |bits| + 1;
    forall c: nat | c < 64 * |bits|
      ensures !Ahead(|bits|, first, start, rounds, c)
    {
      NotAheadAtEnd(|bits|, first, start, c);
    }
  }

  lemma NotAheadAtEnd(size: nat, first: nat, start: nat, c: nat)
    requires first < size && c < 64 * size
    ensures !Ahead(size, first, start, size + 1, c)
  {
  }

  lemma FullChunk(bits: seq<bv64>, chunk: nat)
    requires chunk < |bits| && bits[chunk] == FULL
    ensures forall c: nat :: Candidate(bits, c) ==> c / 64 != chunk
  {
    FullHasAll(bits[chunk]);
  }
}
