/** The order in which identifiers are handed out: upwards from the cursor, and from the bottom again only at the soft
    maximum or when nothing is left above. */
module IdCursor {
  import opened Bits
  import opened Identifiers
  import opened Dispatcher
  import opened RegistryRuns

  /** The identifier after the cursor is below the soft maximum, or is once that has been doubled, which happens
      when more than half of it is in use. */
  predicate BelowMaximum(ids: Ids) {
    || ids.last + 1 < ids.limit
    || (ids.count > ids.limit / 2 && ids.limit <= ID_MAX / 2 && ids.last + 1 < 2 * ids.limit)
  }

  /** A non-reserved identifier with a clear bit, in the bitset. */
  predicate Clear(bits: seq<bv64>, id: nat) {
    1 < id < 64 * |bits| && !BitSet(bits, id)
  }

  /** There is one above the cursor, or the next one is past the bitset. */
  ghost predicate RoomAbove(ids: Ids) {
    || 64 * |ids.bits| <= ids.last + 1
    || exists id: nat :: ids.last < id && Clear(ids.bits, id)
  }

  lemma ClearIsCandidate(bits: seq<bv64>, id: nat)
    ensures Clear(bits, id) <==> Candidate(bits, id)
  {
  }

  lemma ClearFits(bits: seq<bv64>, id: nat)
    requires |bits| <= CHUNK_LIMIT && Clear(bits, id)
    ensures id < ID_LIMIT && Free(bits, id)
  {
  }

  lemma FoundAbove(bits: seq<bv64>, last: nat, id: nat, clear: nat)
    requires Finds(bits, last + 2, id) && !Free(bits, last + 1) && last < clear && Clear(bits, clear)
    ensures last < id && !BitSet(bits, id)
    ensures forall other: nat :: last < other < id && 1 < other ==> BitSet(bits, other)
  {
    ClearIsCandidate(bits, clear);
    assert SearchStart(bits, last + 2) == last + 2;
    forall other: nat | last < other < id && 1 < other
      ensures BitSet(bits, other)
    {
      assert last + 2 <= other ==> !Candidate(bits, other);
    }
  }

  lemma Unwrapped(id: nat)
    requires id < ID_LIMIT
    ensures id % ID_LIMIT == id
  {
  }

  lemma NextIsBelow(ids: Ids)
    requires ids.last < ID_MAX && BelowMaximum(ids)
    ensures Next(ids) == ids.last + 1 < RaisedLimit(ids)
  {
    Unwrapped(ids.last + 1);
  }

  lemma ChosenBelowMaximum(ids: Ids, id: nat)
    requires ids.Fits() && Chooses(ids, id) && ids.last < ID_MAX && BelowMaximum(ids)
    ensures if Free(ids.bits, ids.last + 1) then id == ids.last + 1
            else Finds(ids.bits, (ids.last + 2) % ID_LIMIT, id)
  {
    NextIsBelow(ids);
  }

  lemma NotFreePastEnd(bits: seq<bv64>, id: nat)
    requires 64 * |bits| <= id && 0 < id && !Free(bits, id)
    ensures bits == []
  {
  }

  lemma FoundInEmpty(bits: seq<bv64>, start: nat, id: nat)
    requires bits == [] && Finds(bits, start, id)
    ensures id == 2 && !BitSet(bits, id)
  {
  }

  lemma SearchedAbove(bits: seq<bv64>, last: nat, id: nat)
    requires |bits| <= CHUNK_LIMIT && !Free(bits, last + 1) && Finds(bits, (last + 2) % ID_LIMIT, id)
    requires 64 * |bits| <= last + 1 || exists clear: nat :: last < clear && Clear(bits, clear)
    ensures last < id && !BitSet(bits, id)
    ensures forall other: nat :: last < other < id && 1 < other ==> BitSet(bits, other)
  {
    if clear: nat :| last < clear && Clear(bits, clear) {
      ClearFits(bits, clear);
      Unwrapped(last + 2);
      FoundAbove(bits, last, id, clear);
    } else {
      NotFreePastEnd(bits, last + 1);
      FoundInEmpty(bits, (last + 2) % ID_LIMIT, id);
    }
  }

  /** Below the soft maximum, as long as there is one above the cursor, the identifier that is handed out is above the
      cursor, and everything in between is in use or reserved. */
  lemma ChosenAboveCursor(ids: Ids, id: nat)
    requires ids.Fits() && Chooses(ids, id) && ids.last < ID_MAX && BelowMaximum(ids) && RoomAbove(ids)
    ensures ids.last < id && !BitSet(ids.bits, id)
    ensures forall other: nat :: ids.last < other < id && 1 < other ==> BitSet(ids.bits, other)
  {
    ChosenBelowMaximum(ids, id);
    if !Free(ids.bits, ids.last + 1) {
      SearchedAbove(ids.bits, ids.last, id);
    }
  }

  lemma ChosenAtMaximum(ids: Ids, id: nat)
    requires Chooses(ids, id) && ids.last < ID_MAX && !BelowMaximum(ids)
    ensures Finds(ids.bits, 0, id)
  {
    Unwrapped(ids.last + 1);
  }

  lemma FoundLowest(bits: seq<bv64>, id: nat, clear: nat)
    requires Finds(bits, 0, id) && Clear(bits, clear)
    ensures Clear(bits, id) && forall other: nat :: 1 < other < id ==> BitSet(bits, other)
  {
    ClearIsCandidate(bits, clear);
    forall other: nat | 1 < other < id
      ensures BitSet(bits, other)
    {
      assert !Candidate(bits, other);
    }
  }

  /** At the soft maximum, it is the lowest one in the bitset, if there is any. */
  lemma ChosenFromTheBottom(ids: Ids, id: nat, clear: nat)
    requires Chooses(ids, id) && ids.last < ID_MAX && !BelowMaximum(ids) && Clear(ids.bits, clear)
    ensures Clear(ids.bits, id) && forall other: nat :: 1 < other < id ==> BitSet(ids.bits, other)
  {
    ChosenAtMaximum(ids, id);
    FoundLowest(ids.bits, id, clear);
  }

  lemma FoundWrapping(bits: seq<bv64>, last: nat, id: nat, clear: nat)
    requires Finds(bits, last + 2, id) && last + 2 < 64 * |bits| && Clear(bits, clear)
    requires forall other: nat :: last < other ==> !Clear(bits, other)
    ensures Clear(bits, id) && forall other: nat :: 1 < other < id ==> BitSet(bits, other)
  {
    ClearIsCandidate(bits, clear);
    ClearIsCandidate(bits, id);
    forall other: nat | 1 < other < id
      ensures BitSet(bits, other)
    {
      assert !Candidate(bits, other);
    }
  }

  /** Below it, when nothing is clear above the cursor, it is the lowest one too, unless the cursor is at the very
      end of the bitset. */
  lemma ChosenAfterWrapping(ids: Ids, id: nat, clear: nat)
    requires ids.Fits() && Chooses(ids, id) && ids.last < ID_MAX && BelowMaximum(ids) && !RoomAbove(ids)
    requires ids.last + 2 < 64 * |ids.bits| && Clear(ids.bits, clear)
    ensures Clear(ids.bits, id) && forall other: nat :: 1 < other < id ==> BitSet(ids.bits, other)
  {
    ChosenBelowMaximum(ids, id);
    if Free(ids.bits, ids.last + 1) {
      assert Clear(ids.bits, ids.last + 1);
    } else {
      Unwrapped(ids.last + 2);
      FoundWrapping(ids.bits, ids.last, id, clear);
    }
  }

  /** So the cursor goes back, to a lower identifier or to the same one, exactly in two cases: at the soft maximum when
      something is clear at or below the cursor, or when nothing above is. */
  lemma GoesBackIff(ids: Ids, id: nat, clear: nat)
    requires ids.Fits() && Chooses(ids, id) && ids.last < ID_MAX && Clear(ids.bits, clear)
    ensures id <= ids.last <==>
            if BelowMaximum(ids) then !RoomAbove(ids)
            else exists lower: nat :: lower <= ids.last && Clear(ids.bits, lower)
  {
    if !BelowMaximum(ids) {
      ChosenFromTheBottom(ids, id, clear);
    } else if RoomAbove(ids) {
      ChosenAboveCursor(ids, id);
    } else {
      ClearIsCandidate(ids.bits, clear);
      ClearIsCandidate(ids.bits, id);
    }
  }

  // ---------------------------------------------------------------- whole runs

  predicate Automatic<O>(call: Call<O>) {
    call.Register? && call.requested == UNKNOWN
  }

  /** Call `k` finds the allocator in a state in which it goes on upwards, if it is an automatic registration. */
  ghost predicate UpwardAt<O>(run: Run<O>, k: nat) {
    && k < |run.calls| && k < |run.states|
    && (Automatic(run.calls[k]) ==>
          var ids := run.states[k].reg.ids; ids.last < ID_MAX && BelowMaximum(ids) && RoomAbove(ids))
  }

  lemma CursorStep<O>(t: Tracked<O>, call: Call<O>, t': Tracked<O>)
    requires Inv(t) && Step(t, call, t')
    ensures !Automatic(call) ==> t'.reg.ids.last == t.reg.ids.last
    ensures Automatic(call) ==> Chooses(t.reg.ids, t'.reg.ids.last)
    ensures Automatic(call) ==> call.result == UNKNOWN || call.result == t'.reg.ids.last
  {
  }

  lemma {:induction false} CursorRises<O>(run: Run<O>, hint: nat, i: nat, k: nat)
    requires run.Valid(hint) && i <= k < |run.states|
    requires forall j: nat :: i <= j < k ==> UpwardAt(run, j)
    ensures run.states[i].reg.ids.last <= run.states[k].reg.ids.last
    decreases k
  {
    if i == k {
    } else {
      CursorRises(run, hint, i, k - 1);
      CallAt(run, hint, k - 1);
      var t, call, t' := run.states[k - 1], run.calls[k - 1], run.states[k];
      CursorStep(t, call, t');
      assert UpwardAt(run, k - 1);
      if Automatic(call) {
        ChosenAboveCursor(t.reg.ids, t'.reg.ids.last);
      }
    }
  }

  /** Over every run, an identifier at or below the cursor, such as one that has just been given back, is not handed out
      again before the cursor has gone back. */
  lemma NotAgainBeforeGoingBack<O>(run: Run<O>, hint: nat, i: nat, k: nat, id: nat)
    requires run.Valid(hint) && i <= k < |run.calls| && Automatic(run.calls[k])
    requires forall j: nat :: i <= j <= k ==> UpwardAt(run, j)
    requires UNKNOWN < id <= run.states[i].reg.ids.last
    ensures run.calls[k].result != id && id < run.states[k + 1].reg.ids.last
  {
    CursorRises(run, hint, i, k);
    CallAt(run, hint, k);
    var t, t' := run.states[k], run.states[k + 1];
    CursorStep(t, run.calls[k], t');
    assert UpwardAt(run, k);
    ChosenAboveCursor(t.reg.ids, t'.reg.ids.last);
  }
}
