/** Identifiers are reused before they grow: a bound on every identifier that is ever allocated. */
module IdGrowth {
  import opened Bits
  import opened Identifiers
  import opened Dispatcher
  import opened RegistryRuns

  function Max(a: nat, b: nat): nat {
    if a < b then b else a
  }

  /** The objects in use that have no reserved identifier. */
  ghost function Live<O>(reg: Registry<O>): nat {
    |reg.objects.Keys - {UNKNOWN, PLUGIN}|
  }

  /** The most there have been at once, up to state `k`. */
  ghost function Peak<O>(run: Run<O>, k: nat): nat
    requires k < |run.states|
  {
    if k == 0 then Live(run.states[0].reg) else Max(Live(run.states[k].reg), Peak(run, k - 1))
  }

  lemma {:induction false} PeakGrows<O>(run: Run<O>, i: nat, j: nat)
    requires i <= j < |run.states|
    ensures Live(run.states[i].reg) <= Peak(run, i) <= Peak(run, j)
    decreases j
  {
    if i == j {
    } else {
      PeakGrows(run, i, j - 1);
    }
  }

  /** The bound for a given hint and a given peak. */
  function Bound(hint: nat, peak: nat): nat {
    Max(hint, 4 * peak)
  }

  ghost predicate GrowthInv<O>(t: Tracked<O>, hint: nat, peak: nat) {
    && t.clearFrees == 0 && t.setTakes == 0
    && Live(t.reg) <= peak
    && Low(t.reg.ids, Bound(hint, peak))
  }

  ghost predicate Low(ids: Ids, bound: nat) {
    ids.limit <= bound && 64 * |ids.bits| < bound + 64 && ids.last < bound + 64
  }

  /** With no candidate left, all of the bitset but the reserved identifiers is in use. */
  lemma FullBitsetCount(bits: seq<bv64>)
    requires NoCandidate(bits)
    ensures 64 * |bits| <= |Used(bits)| + 2
  {
    BelowIs(64 * |bits|, 0);
    forall id: nat | id in Below(64 * |bits|)
      ensures id in Used(bits) + {UNKNOWN, PLUGIN}
    {
      BelowIs(64 * |bits|, id);
      assert !Candidate(bits, id);
    }
    SubsetSize(Below(64 * |bits|), Used(bits) + {UNKNOWN, PLUGIN});
  }

  /** The identifiers below `n`. */
  ghost function Below(n: nat): set<nat> {
    if n == 0 then {} else Below(n - 1) + {n - 1}
  }

  lemma {:induction false} BelowIs(n: nat, id: nat)
    ensures id in Below(n) <==> id < n
    ensures |Below(n)| == n
  {
    if n == 0 {
    } else {
      BelowIs(n - 1, id);
      BelowIs(n - 1, n - 1);
    }
  }

  lemma SubsetSize<T>(a: set<T>, b: set<T>)
    requires a <= b
    ensures |a| <= |b|
  {
    assert b == a + (b - a);
  }

  /** The set bits are those of live objects. */
  lemma UsedAreLive<O>(t: Tracked<O>)
    requires Inv(t)
    ensures |Used(t.reg.ids.bits)| <= Live(t.reg)
  {
    forall id | id in Used(t.reg.ids.bits)
      ensures id in t.reg.objects.Keys - {UNKNOWN, PLUGIN}
    {
      assert BitSet(t.reg.ids.bits, id);
    }
    SubsetSize(Used(t.reg.ids.bits), t.reg.objects.Keys - {UNKNOWN, PLUGIN});
  }

  lemma UsedIsSmall(bits: seq<bv64>)
    requires |bits| <= CHUNK_LIMIT
    ensures |Used(bits)| <= ID_LIMIT
  {
    forall id: nat | id in Used(bits)
      ensures id in Below(64 * |bits|)
    {
      BelowIs(64 * |bits|, id);
    }
    BelowIs(64 * |bits|, 0);
    SubsetSize(Used(bits), Below(64 * |bits|));
  }

  /** The identifier chosen is below the bound, or is reused from inside the bitset. */
  lemma ChosenIsLow(ids: Ids, id: nat, hint: nat, peak: nat)
    requires ids.Fits() && Chooses(ids, id)
    requires ids.count == |Used(ids.bits)| < peak
    requires Low(ids, Bound(hint, peak)) && Bound(hint, peak) + 64 <= ID_LIMIT
    ensures RaisedLimit(ids) <= Bound(hint, peak)
    ensures id < Bound(hint, peak) || id < 64 * |ids.bits|
  {
    if NoCandidate(ids.bits) {
      FullBitsetCount(ids.bits);
    }
  }

  lemma TakenIsLow(ids: Ids, id: nat, hint: nat, peak: nat)
    requires ids.Fits() && Chooses(ids, id)
    requires ids.count == |Used(ids.bits)| < peak
    requires Low(ids, Bound(hint, peak)) && Bound(hint, peak) + 64 <= ID_LIMIT
    ensures Low(Taken(ids, id), Bound(hint, peak))
  {
    ChosenIsLow(ids, id, hint, peak);
  }

  lemma CountIsUsed(ids: Ids)
    requires ids.Fits() && CountAgrees(ids, 0, 0)
    ensures ids.count == |Used(ids.bits)|
  {
    UsedIsSmall(ids.bits);
  }

  lemma TakeGrowth<O>(t: Tracked<O>, call: Call<O>, t': Tracked<O>, hint: nat, peak: nat)
    requires Inv(t) && Inv(t') && Step(t, call, t') && call.Register? && call.requested == UNKNOWN
    requires GrowthInv(t, hint, peak) && Live(t'.reg) <= peak && Bound(hint, peak) + 64 <= ID_LIMIT
    ensures GrowthInv(t', hint, peak)
    ensures t'.reg.ids.last < Bound(hint, peak) + 64 && call.result in {UNKNOWN, t'.reg.ids.last}
  {
    var ids := t.reg.ids;
    var id :| Chooses(ids, id) && t'.reg.ids == Taken(ids, id)
      && call.result == (if id in t.reg.objects then UNKNOWN else id);
    ChosenIsFresh(ids, id);
    UsedAreLive(t');
    TakenUsed(ids, id);
    CountIsUsed(ids);
    TakenIsLow(ids, id, hint, peak);
  }

  /** An unregistration whose bit is set clears it, and that is all. */
  lemma FreeGrowth<O>(t: Tracked<O>, id: nat, t': Tracked<O>, hint: nat, peak: nat)
    requires Step(t, Unregister(id), t') && t'.clearFrees == 0
    requires GrowthInv(t, hint, peak) && Live(t'.reg) <= peak
    ensures GrowthInv(t', hint, peak)
  {
    if id != UNKNOWN && id in t.reg.objects {
      assert BitSet(t.reg.ids.bits, id);
    }
  }

  lemma GrowthStep<O>(t: Tracked<O>, call: Call<O>, t': Tracked<O>, hint: nat, peak: nat)
    requires Inv(t) && Inv(t') && Step(t, call, t') && t'.clearFrees == 0
    requires GrowthInv(t, hint, peak) && Live(t'.reg) <= peak && Bound(hint, peak) + 64 <= ID_LIMIT
    ensures GrowthInv(t', hint, peak)
  {
    if call.Register? && call.requested == UNKNOWN {
      TakeGrowth(t, call, t', hint, peak);
    } else if call.Unregister? {
      FreeGrowth(t, call.id, t', hint, peak);
    }
  }

  lemma WidenPeak<O>(t: Tracked<O>, hint: nat, peak: nat, peak': nat)
    requires GrowthInv(t, hint, peak) && peak <= peak'
    ensures GrowthInv(t, hint, peak')
  {
  }

  lemma InitialGrowth<O>(hint: nat)
    ensures GrowthInv<O>(Initial(hint), hint, 0)
  {
  }

  lemma PeakCovers<O>(run: Run<O>, k: nat, peak: nat)
    requires k < |run.states| && Peak(run, k) <= peak
    ensures Live(run.states[k].reg) <= peak
    ensures 0 < k ==> Peak(run, k - 1) <= peak
  {
  }

  /** Once an unregistration has found its bit clear, it has. */
  lemma {:induction false} ClearFreesGrow<O>(run: Run<O>, hint: nat, i: nat, j: nat)
    requires run.Valid(hint) && i <= j < |run.states|
    ensures run.states[i].clearFrees <= run.states[j].clearFrees
    decreases j
  {
    if i == j {
    } else {
      ClearFreesGrow(run, hint, i, j - 1);
      assert run.StepAt(j - 1);
    }
  }

  lemma GrowthStarts<O>(run: Run<O>, hint: nat, peak: nat)
    requires run.Valid(hint)
    ensures GrowthInv(run.states[0], hint, peak)
  {
    InitialGrowth<O>(hint);
    WidenPeak(run.states[0], hint, 0, peak);
  }

  lemma {:induction false} GrowthHolds<O>(run: Run<O>, hint: nat, k: nat, peak: nat)
    requires run.Valid(hint) && k < |run.states| && run.states[k].clearFrees == 0
    requires Peak(run, k) <= peak && Bound(hint, peak) + 64 <= ID_LIMIT
    ensures GrowthInv(run.states[k], hint, peak)
  {
    if k == 0 {
      GrowthStarts(run, hint, peak);
    } else {
      PeakCovers(run, k, peak);
      ClearFreesGrow(run, hint, k - 1, k);
      GrowthHolds(run, hint, k - 1, peak);
      CallAt(run, hint, k - 1);
      GrowthStep(run.states[k - 1], run.calls[k - 1], run.states[k], hint, peak);
    }
  }

  /** As long as no unregistration has found its bit clear and the bound fits a UInt32, every automatically
      allocated identifier, whether or not it can be registered then, is below max(hint, 4 * peak) + 64,
      where the peak is the largest number of objects without reserved identifiers that have been
      alive together by the end of the registration. */
  lemma AllocatedIdsBounded<O>(run: Run<O>, hint: nat, k: nat)
    requires run.Valid(hint) && k < |run.calls| && run.states[k].clearFrees == 0
    requires run.calls[k].Register? && run.calls[k].requested == UNKNOWN
    requires Max(hint, 4 * Peak(run, k + 1)) + 64 <= ID_LIMIT
    ensures run.states[k + 1].reg.ids.last < Max(hint, 4 * Peak(run, k + 1)) + 64
    ensures run.calls[k].result in {UNKNOWN, run.states[k + 1].reg.ids.last}
  {
    var peak := Peak(run, k + 1);
    PeakCovers(run, k + 1, peak);
    GrowthHolds(run, hint, k, peak);
    CallAt(run, hint, k);
    TakeGrowth(run.states[k], run.calls[k], run.states[k + 1], hint, peak);
  }

  // ---------------------------------------------------------------- when the bound is sure to hold

  /** Callers choose only reserved identifiers, and do not give them back. */
  ghost predicate OnlyReservedChosen<O>(calls: seq<Call<O>>) {
    && (forall k :: 0 <= k < |calls| && calls[k].Register? ==> Reserved(calls[k].requested))
    && (forall k :: 0 <= k < |calls| && calls[k].Unregister? ==> !Reserved(calls[k].id))
  }

  /** Then no unregistration finds its bit clear. */
  lemma {:induction false} ReservedOnlyNoClearFrees<O>(run: Run<O>, hint: nat, k: nat)
    requires run.Valid(hint) && OnlyReservedChosen(run.calls) && k < |run.states|
    ensures run.states[k].clearFrees == 0 && run.states[k].explicit <= {PLUGIN}
  {
    if k == 0 {
    } else {
      ReservedOnlyNoClearFrees(run, hint, k - 1);
      CallAt(run, hint, k - 1);
      var t, call := run.states[k - 1], run.calls[k - 1];
      if call.Unregister? && call.id in t.reg.objects {
        assert BitSet(t.reg.ids.bits, call.id);
      }
    }
  }

  /** And no automatic registration fails. */
  lemma ReservedOnlySucceeds<O>(run: Run<O>, hint: nat, k: nat)
    requires run.Valid(hint) && OnlyReservedChosen(run.calls)
    requires k < |run.calls| && run.calls[k].Register? && run.calls[k].requested == UNKNOWN
    requires Max(hint, 4 * Peak(run, k + 1)) + 64 <= ID_LIMIT
    ensures run.calls[k].result != UNKNOWN && run.calls[k].result < Max(hint, 4 * Peak(run, k + 1)) + 64
  {
    ReservedOnlyNoClearFrees(run, hint, k);
    AllocatedIdsBounded(run, hint, k);
    var peak := Peak(run, k + 1);
    PeakCovers(run, k + 1, peak);
    GrowthHolds(run, hint, k, peak);
    CallAt(run, hint, k);
    AutoRegistrationIsFresh(run.states[k], run.calls[k], run.states[k + 1]);
  }
}
