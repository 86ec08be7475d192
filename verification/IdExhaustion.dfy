/** A run in which the identifiers are used up. */
module IdExhaustion {
  import opened Bits
  import opened Identifiers
  import opened Dispatcher
  import opened RegistryRuns
  import opened RegistryContinuations

  /** As many objects have been registered one after the other as there are identifiers from 2 to `n + 1`. */
  ghost predicate Filled<O>(t: Tracked<O>, n: nat) {
    && t.explicit == {} && t.clearFrees == 0 && t.setTakes == 0
    && (forall id: nat :: id in t.reg.objects <==> 2 <= id < n + 2)
    && FilledIds(t.reg.ids, n)
  }

  ghost predicate FilledIds(ids: Ids, n: nat) {
    && |ids.bits| == (if n == 0 then 0 else (n + 1) / 64 + 1)
    && (forall id: nat :: BitSet(ids.bits, id) <==> 2 <= id < n + 2)
    && ids.count == n && ids.limit == ID_MAX && ids.last == if n == 0 then 0 else n + 1
  }

  lemma FilledChooses(ids: Ids, n: nat)
    requires FilledIds(ids, n) && n + 2 < ID_LIMIT
    ensures Chooses(ids, n + 2) && RaisedLimit(ids) == ID_MAX
  {
    if n == 0 {
      assert NoCandidate(ids.bits);
    } else if n + 2 == ID_MAX {
      FilledLast(ids);
    } else {
      assert Next(ids) == n + 2 && Free(ids.bits, n + 2);
    }
  }

  /** The last of all comes when the cursor has reached the soft maximum, and is found inside the bitset. */
  lemma FilledLast(ids: Ids)
    requires FilledIds(ids, ID_MAX - 2)
    ensures Finds(ids.bits, 0, ID_MAX)
  {
    assert |ids.bits| == CHUNK_LIMIT;
    assert Candidate(ids.bits, ID_MAX);
    assert FirstCandidate(ids.bits, 0, ID_MAX);
  }

  lemma FilledBits(bits: seq<bv64>, n: nat)
    requires |bits| == if n == 0 then 0 else (n + 1) / 64 + 1
    requires forall id: nat :: BitSet(bits, id) <==> 2 <= id < n + 2
    ensures var up := Marked(bits, n + 2, true);
      |up| == (n + 2) / 64 + 1 && forall id: nat :: BitSet(up, id) <==> 2 <= id < n + 3
  {
    assert (n + 2) / 64 + 1 >= |bits|;
  }

  lemma FilledLimit(ids: Ids, n: nat)
    requires FilledIds(ids, n) && n + 2 < ID_LIMIT
    ensures RaisedLimit(ids) == ID_MAX
  {
  }

  lemma FilledTaken(ids: Ids, n: nat)
    requires FilledIds(ids, n) && n + 2 < ID_LIMIT
    ensures FilledIds(Taken(ids, n + 2), n + 1)
  {
    FilledLimit(ids, n);
    FilledBits(ids.bits, n);
  }

  lemma FilledStep<O>(t: Tracked<O>, obj: O, n: nat) returns (t': Tracked<O>)
    requires Filled(t, n) && n + 2 < ID_LIMIT
    ensures Step(t, Register(obj, UNKNOWN, n + 2), t') && Filled(t', n + 1)
  {
    FilledChooses(t.reg.ids, n);
    FilledTaken(t.reg.ids, n);
    t' := t.(reg := Registry(Taken(t.reg.ids, n + 2), t.reg.objects[n + 2 := obj]));
    assert Registers(t.reg, obj, UNKNOWN, n + 2, t'.reg);
  }

  lemma {:induction false} Fill<O>(obj: O, n: nat) returns (run: Run<O>)
    requires n + 2 <= ID_LIMIT
    ensures run.Valid(ID_MAX) && |run.calls| == n && Filled(End(run), n)
  {
    if n == 0 {
      run := Run([Initial(ID_MAX)], []);
    } else {
      var shorter := Fill(obj, n - 1);
      var t := FilledStep(End(shorter), obj, n - 1);
      run := Extended(shorter, ID_MAX, End(shorter), Register(obj, UNKNOWN, n + 1), t);
    }
  }

  lemma FullTakesTwo<O>(t: Tracked<O>, obj: O) returns (t': Tracked<O>)
    requires Filled(t, ID_LIMIT - 2)
    ensures Exhausted(t.reg.ids.bits) && BitSet(t.reg.ids.bits, 2)
    ensures Step(t, Register(obj, UNKNOWN, UNKNOWN), t') && t'.reg.ids.last == 2
  {
    var ids := t.reg.ids;
    assert |ids.bits| == CHUNK_LIMIT && NoCandidate(ids.bits);
    assert Next(ids) == 0 && Finds(ids.bits, 1, 2);
    t' := Tracked(Registry(Taken(ids, 2), t.reg.objects), {}, 0, 1);
    assert Registers(t.reg, obj, UNKNOWN, UNKNOWN, t'.reg);
  }

  /** A run in which the identifiers are used up: 2^32 - 2 objects register one after the other, and for the
      next one the allocator takes 2, which is in use, so that its registration fails. */
  lemma ExhaustedTakesTwo<O>(obj: O) returns (run: Run<O>)
    ensures run.Valid(ID_MAX) && |run.calls| == ID_LIMIT - 1
    ensures Exhausted(run.states[ID_LIMIT - 2].reg.ids.bits) && 2 in run.states[ID_LIMIT - 2].reg.objects
    ensures run.calls[ID_LIMIT - 2] == Register(obj, UNKNOWN, UNKNOWN) && End(run).reg.ids.last == 2
  {
    var full := Fill(obj, ID_LIMIT - 2);
    var t := FullTakesTwo(End(full), obj);
    run := Extended(full, ID_MAX, End(full), Register(obj, UNKNOWN, UNKNOWN), t);
  }
}
