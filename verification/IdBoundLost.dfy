/** How the bound on identifiers is lost: for good, by a single unregistration that finds its bit clear. */
module IdBoundLost {
  import opened Bits
  import opened Identifiers
  import opened Dispatcher
  import opened RegistryRuns
  import opened RegistryContinuations
  import opened IdGrowth

  const HUGE: nat := SIZE_LIMIT / 2
  const TOP: nat := ID_MAX / 2   // the largest soft maximum that is still doubled

  // ---------------------------------------------------------------- taking and giving back

  ghost predicate AllClear(bits: seq<bv64>) {
    forall id: nat :: !BitSet(bits, id)
  }

  /** No bit is set, and yet the counter stands at 2^63 or more. */
  ghost predicate Idle(ids: Ids) {
    ids.Fits() && ids.count >= HUGE && ids.limit >= 1 && AllClear(ids.bits)
  }

  /** What is taken next: the identifier after the cursor, below the soft maximum, and else 2. */
  function IdleChoice(ids: Ids): nat {
    if 2 <= Next(ids) < RaisedLimit(ids) then Next(ids) else 2
  }

  lemma IdleChooses(ids: Ids)
    requires Idle(ids)
    ensures Chooses(ids, IdleChoice(ids)) && 2 <= IdleChoice(ids) < ID_LIMIT
  {
    if 2 <= Next(ids) < RaisedLimit(ids) {
      assert Free(ids.bits, Next(ids));
    } else {
      var start := if Next(ids) >= RaisedLimit(ids) then 0 else Next(ids) + 1;
      FindsTwo(ids.bits, start);
    }
  }

  lemma FindsTwo(bits: seq<bv64>, start: nat)
    requires start <= 2 && AllClear(bits)
    ensures Finds(bits, start, 2)
  {
    if bits == [] {
      assert NoCandidate(bits);
    } else {
      assert Candidate(bits, 2);
      assert FirstCandidate(bits, start, 2);
    }
  }

  /** Taking an identifier and giving it back moves the cursor and the soft maximum, and nothing else. */
  lemma IdleAfter(ids: Ids, id: nat)
    requires Idle(ids) && 2 <= id < ID_LIMIT
    ensures var after := Freed(Taken(ids, id), id);
      Idle(after) && after.last == id && after.limit == RaisedLimit(ids)
  {
    var up := Marked(ids.bits, id, true);
    assert forall j: nat :: BitSet(up, j) <==> j == id;
    assert |up| <= CHUNK_LIMIT;
    assert Taken(ids, id).count == (ids.count + 1) % SIZE_LIMIT;
  }

  function Up<O>(t: Tracked<O>, obj: O, id: nat): Tracked<O> {
    t.(reg := Registry(Taken(t.reg.ids, id), if id in t.reg.objects then t.reg.objects else t.reg.objects[id := obj]))
  }

  function Down<O>(t: Tracked<O>, id: nat): Tracked<O> {
    t.(reg := Unregistered(t.reg, id), explicit := t.explicit - {id})
  }

  function Result<O>(t: Tracked<O>, id: nat): nat {
    if id in t.reg.objects then UNKNOWN else id
  }

  lemma UpStep<O>(t: Tracked<O>, obj: O, id: nat)
    requires Idle(t.reg.ids) && Chooses(t.reg.ids, id)
    ensures Step(t, Register(obj, UNKNOWN, Result(t, id)), Up(t, obj, id))
  {
    assert Registers(t.reg, obj, UNKNOWN, Result(t, id), Up(t, obj, id).reg);
  }

  lemma UpLive<O>(t: Tracked<O>, obj: O, id: nat)
    ensures Live(Up(t, obj, id).reg) <= Live(t.reg) + 1
  {
    var up := Up(t, obj, id);
    assert up.reg.objects.Keys - {UNKNOWN, PLUGIN} <= (t.reg.objects.Keys - {UNKNOWN, PLUGIN}) + {id};
    SubsetSize(up.reg.objects.Keys - {UNKNOWN, PLUGIN}, (t.reg.objects.Keys - {UNKNOWN, PLUGIN}) + {id});
  }

  lemma DownStep<O>(t: Tracked<O>, obj: O, id: nat)
    requires Idle(t.reg.ids) && 2 <= id < ID_LIMIT
    ensures var up := Up(t, obj, id); var down := Down(up, id);
      && Step(up, Unregister(id), down)
      && down.reg.ids == Freed(Taken(t.reg.ids, id), id)
      && down.reg.objects == t.reg.objects - {id}
      && down.clearFrees == t.clearFrees && Live(down.reg) <= Live(t.reg)
  {
    var up := Up(t, obj, id);
    var down := Down(up, id);
    assert BitSet(up.reg.ids.bits, id);
    assert up.reg.objects - {id} == t.reg.objects - {id};
    SubsetSize(down.reg.objects.Keys - {UNKNOWN, PLUGIN}, t.reg.objects.Keys - {UNKNOWN, PLUGIN});
  }

  // ---------------------------------------------------------------- continuing a run

  ghost predicate LiveWithin<O>(run: Run<O>, from: nat, most: nat) {
    forall k: nat :: from <= k < |run.states| ==> Live(run.states[k].reg) <= most
  }

  /** `run` continues `base` with at most so many objects alive. */
  ghost predicate Leads<O>(base: Run<O>, run: Run<O>, hint: nat, most: nat) {
    Continues(base, run, hint) && LiveWithin(run, |base.states| - 1, most)
  }

  lemma Grow<O>(base: Run<O>, run: Run<O>, hint: nat, most: nat, call: Call<O>, t: Tracked<O>) returns (longer: Run<O>)
    requires Leads(base, run, hint, most) && Step(End(run), call, t) && Live(t.reg) <= most
    ensures Leads(base, longer, hint, most) && End(longer) == t
    ensures longer.calls == run.calls + [call] && longer.states == run.states + [t]
  {
    longer := Extended(run, hint, End(run), call, t);
    StillWithin(run, longer, |base.states| - 1, most, t);
  }

  lemma StillWithin<O>(run: Run<O>, longer: Run<O>, from: nat, most: nat, t: Tracked<O>)
    requires LiveWithin(run, from, most) && longer.states == run.states + [t] && Live(t.reg) <= most
    ensures LiveWithin(longer, from, most)
  {
  }

  /** The last automatic registration, two calls before the end, took `id`, and returned it unless it was one of
      the identifiers that were in use. */
  ghost predicate JustTook<O>(run: Run<O>, obj: O, id: nat, inUse: set<nat>) {
    && |run.states| == |run.calls| + 1 >= 3
    && var k := |run.calls| - 2;
       && run.states[k + 1].reg.ids.last == id
       && (|| run.calls[k] == Register(obj, UNKNOWN, id)
           || (id in inUse && run.calls[k] == Register(obj, UNKNOWN, UNKNOWN)))
  }

  /** What a turn of taking and giving back keeps. */
  ghost predicate Turned<O>(t: Tracked<O>, t': Tracked<O>) {
    && Idle(t'.reg.ids) && t'.clearFrees == t.clearFrees
    && t'.reg.objects.Keys <= t.reg.objects.Keys && Live(t'.reg) <= Live(t.reg)
  }

  lemma TurnSteps<O>(t: Tracked<O>, obj: O, id: nat)
    requires Idle(t.reg.ids) && id == IdleChoice(t.reg.ids)
    ensures var up := Up(t, obj, id);
      && Step(t, Register(obj, UNKNOWN, Result(t, id)), up)
      && Step(up, Unregister(id), Down(up, id))
  {
    IdleChooses(t.reg.ids);
    UpStep(t, obj, id);
    DownStep(t, obj, id);
  }

  lemma TurnEnds<O>(t: Tracked<O>, obj: O, id: nat)
    requires Idle(t.reg.ids) && id == IdleChoice(t.reg.ids)
    ensures var up := Up(t, obj, id); var down := Down(up, id);
      && up.reg.ids.last == id && Live(up.reg) <= Live(t.reg) + 1 && Turned(t, down)
      && down.reg.ids.last == id && down.reg.ids.limit == RaisedLimit(t.reg.ids)
  {
    IdleChooses(t.reg.ids);
    IdleAfter(t.reg.ids, id);
    UpLive(t, obj, id);
    DownStep(t, obj, id);
  }

  lemma Turn<O>(base: Run<O>, run: Run<O>, hint: nat, most: nat, t: Tracked<O>, obj: O) returns (longer: Run<O>)
    requires Leads(base, run, hint, most) && End(run) == t && Idle(t.reg.ids) && Live(t.reg) < most
    ensures Leads(base, longer, hint, most) && |longer.calls| == |run.calls| + 2 && Turned(t, End(longer))
    ensures JustTook(longer, obj, IdleChoice(t.reg.ids), t.reg.objects.Keys)
    ensures End(longer).reg.ids.last == IdleChoice(t.reg.ids)
    ensures End(longer).reg.ids.limit == RaisedLimit(t.reg.ids)
  {
    var id := IdleChoice(t.reg.ids);
    var up := Up(t, obj, id);
    TurnSteps(t, obj, id);
    TurnEnds(t, obj, id);
    var higher := Grow(base, run, hint, most, Register(obj, UNKNOWN, Result(t, id)), up);
    longer := Grow(base, higher, hint, most, Unregister(id), Down(up, id));
  }

  /** The cursor comes back to 2 sooner or later. */
  lemma {:induction false} BackToTwo<O>(base: Run<O>, run: Run<O>, hint: nat, most: nat, t: Tracked<O>, obj: O)
    returns (longer: Run<O>)
    requires Leads(base, run, hint, most) && End(run) == t && Idle(t.reg.ids) && Live(t.reg) < most
    ensures Leads(base, longer, hint, most) && |longer.calls| >= |run.calls| + 2 && Turned(t, End(longer))
    ensures JustTook(longer, obj, 2, t.reg.objects.Keys) && End(longer).reg.ids.last == 2
    decreases ID_LIMIT - t.reg.ids.last
  {
    longer := Turn(base, run, hint, most, t, obj);
    var next := End(longer);
    if next.reg.ids.last != 2 {
      longer := BackToTwo(base, longer, hint, most, next, obj);
    }
  }

  /** From there it climbs; whenever it reaches the soft maximum, that doubles, and it starts again. */
  lemma {:induction false} ClimbTo<O>(base: Run<O>, run: Run<O>, hint: nat, most: nat, t: Tracked<O>, obj: O,
                                      target: nat)
    returns (longer: Run<O>)
    requires Leads(base, run, hint, most) && End(run) == t && Idle(t.reg.ids) && Live(t.reg) < most
    requires 2 <= t.reg.ids.last < target <= TOP
    ensures Leads(base, longer, hint, most) && |longer.calls| >= |run.calls| + 2 && Turned(t, End(longer))
    ensures JustTook(longer, obj, target, t.reg.objects.Keys)
    decreases ID_LIMIT - t.reg.ids.limit, target - t.reg.ids.last
  {
    longer := Turn(base, run, hint, most, t, obj);
    var next := End(longer);
    ClimbMeasure(t.reg.ids, target);
    if next.reg.ids.last != target {
      longer := ClimbTo(base, longer, hint, most, next, obj, target);
    }
  }

  lemma ClimbMeasure(ids: Ids, target: nat)
    requires Idle(ids) && 2 <= ids.last < target <= TOP
    ensures 2 <= IdleChoice(ids) <= target
    ensures RaisedLimit(ids) > ids.limit || (RaisedLimit(ids) == ids.limit && IdleChoice(ids) == ids.last + 1)
  {
  }

  lemma Reach<O>(base: Run<O>, run: Run<O>, hint: nat, most: nat, t: Tracked<O>, obj: O, target: nat)
    returns (longer: Run<O>)
    requires Leads(base, run, hint, most) && End(run) == t && Idle(t.reg.ids) && Live(t.reg) < most
    requires 2 <= target <= TOP
    ensures Leads(base, longer, hint, most) && |longer.calls| >= |run.calls| + 2 && Turned(t, End(longer))
    ensures JustTook(longer, obj, target, t.reg.objects.Keys)
  {
    longer := BackToTwo(base, run, hint, most, t, obj);
    var low := End(longer);
    if target > 2 {
      longer := ClimbTo(base, longer, hint, most, low, obj, target);
    }
  }

  // ---------------------------------------------------------------- clearing the bitset

  /** The soft maximum never sinks. */
  lemma {:induction false} LimitPositive<O>(run: Run<O>, hint: nat, k: nat)
    requires run.Valid(hint) && hint >= 1 && k < |run.states|
    ensures run.states[k].reg.ids.limit >= 1
  {
    if k == 0 {
    } else {
      LimitPositive(run, hint, k - 1);
      assert run.StepAt(k - 1);
    }
  }

  /** With all bits clear the counter is off by what it was off before. */
  lemma ClearIsIdle<O>(t: Tracked<O>)
    requires Inv(t) && t.reg.ids.limit >= 1 && AllClear(t.reg.ids.bits)
    requires t.setTakes < t.clearFrees <= HUGE
    ensures Idle(t.reg.ids)
  {
    assert Used(t.reg.ids.bits) == {};
    assert t.reg.ids.count == (t.setTakes - t.clearFrees) % SIZE_LIMIT == t.setTakes - t.clearFrees + SIZE_LIMIT;
  }

  lemma Prepared<O>(run: Run<O>, hint: nat, t: Tracked<O>)
    requires run.Valid(hint) && hint >= 1 && End(run) == t
    requires t.setTakes < t.clearFrees <= HUGE && AllClear(t.reg.ids.bits)
    ensures Idle(t.reg.ids)
  {
    RunInv(run, hint, |run.states| - 1);
    LimitPositive(run, hint, |run.states| - 1);
    ClearIsIdle(t);
  }

  /** Unregistering one of the objects; the free finds its bit clear exactly if it does. */
  function Less<O>(t: Tracked<O>, id: nat): Tracked<O> {
    Tracked(Unregistered(t.reg, id), t.explicit - {id},
            t.clearFrees + (if BitSet(t.reg.ids.bits, id) then 0 else 1), t.setTakes)
  }

  lemma LessStep<O>(run: Run<O>, hint: nat, t: Tracked<O>, id: nat)
    requires run.Valid(hint) && End(run) == t && id in t.reg.objects
    ensures Step(t, Unregister(id), Less(t, id)) && Less(t, id).reg.objects == t.reg.objects - {id}
    ensures |Less(t, id).reg.objects| == |t.reg.objects| - 1 && Live(Less(t, id).reg) <= Live(t.reg)
  {
    RunInv(run, hint, |run.states| - 1);
    assert (t.reg.objects - {id}).Keys == t.reg.objects.Keys - {id};
    SubsetSize(Less(t, id).reg.objects.Keys - {UNKNOWN, PLUGIN}, t.reg.objects.Keys - {UNKNOWN, PLUGIN});
  }

  /** Unregistering all objects. */
  lemma {:induction false} EmptyAll<O>(base: Run<O>, run: Run<O>, hint: nat, most: nat, t: Tracked<O>)
    returns (longer: Run<O>)
    requires Leads(base, run, hint, most) && End(run) == t
    ensures Leads(base, longer, hint, most) && |longer.calls| >= |run.calls|
    ensures End(longer).reg.objects == map[] && End(longer).setTakes == t.setTakes
    ensures t.clearFrees <= End(longer).clearFrees <= t.clearFrees + |t.reg.objects|
    decreases |t.reg.objects|
  {
    longer := run;
    if t.reg.objects != map[] {
      var id :| id in t.reg.objects;
      LessStep(run, hint, t, id);
      LiveNow(base, run, hint, most);
      longer := Grow(base, run, hint, most, Unregister(id), Less(t, id));
      longer := EmptyAll(base, longer, hint, most, Less(t, id));
    }
  }

  lemma LiveNow<O>(base: Run<O>, run: Run<O>, hint: nat, most: nat)
    requires Leads(base, run, hint, most)
    ensures Live(End(run).reg) <= most
  {
  }

  lemma SetIsUsed<O>(run: Run<O>, hint: nat, id: nat)
    requires run.Valid(hint) && BitSet(End(run).reg.ids.bits, id)
    ensures id in End(run).reg.objects
  {
    RunInv(run, hint, |run.states| - 1);
  }

  /** Unregistering those whose bit is set. */
  lemma {:induction false} EmptySet<O>(base: Run<O>, run: Run<O>, hint: nat, most: nat, t: Tracked<O>)
    returns (longer: Run<O>)
    requires Leads(base, run, hint, most) && End(run) == t
    ensures Leads(base, longer, hint, most) && |longer.calls| >= |run.calls| && AllClear(End(longer).reg.ids.bits)
    ensures End(longer).clearFrees == t.clearFrees && End(longer).setTakes == t.setTakes
    ensures Live(End(longer).reg) <= Live(t.reg)
    decreases |t.reg.objects|
  {
    longer := run;
    if id: nat :| BitSet(t.reg.ids.bits, id) {
      SetIsUsed(run, hint, id);
      LessStep(run, hint, t, id);
      LiveNow(base, run, hint, most);
      longer := Grow(base, run, hint, most, Unregister(id), Less(t, id));
      longer := EmptySet(base, longer, hint, most, Less(t, id));
    }
  }

  // ---------------------------------------------------------------- the bound lost

  lemma NothingSet<O>(run: Run<O>, hint: nat, t: Tracked<O>)
    requires run.Valid(hint) && End(run) == t && t.reg.objects == map[]
    ensures AllClear(t.reg.ids.bits) && Live(t.reg) == 0
  {
    RunInv(run, hint, |run.states| - 1);
    assert t.reg.objects.Keys - {UNKNOWN, PLUGIN} == {};
  }

  lemma Started<O>(run: Run<O>, hint: nat, most: nat)
    requires run.Valid(hint) && Live(End(run).reg) <= most
    ensures Leads(run, run, hint, most)
  {
  }

  /** Once more unregistrations have found their bit clear than allocations found it set, no bound holds any more: every
      identifier from 2 to 2^31 - 1 is returned by an automatic registration in some continuation, in which
      never more objects are alive than are now, or one. */
  lemma BoundLost<O>(run: Run<O>, hint: nat, obj: O, target: nat) returns (longer: Run<O>)
    requires run.Valid(hint) && hint >= 1 && 2 <= target <= TOP
    requires End(run).setTakes < End(run).clearFrees
    requires End(run).clearFrees + |End(run).reg.objects| <= HUGE
    ensures Leads(run, longer, hint, Max(Live(End(run).reg), 1)) && |run.calls| + 2 <= |longer.calls|
    ensures longer.calls[|longer.calls| - 2] == Register(obj, UNKNOWN, target)
  {
    var most := Max(Live(End(run).reg), 1);
    Started(run, hint, most);
    var empty := EmptyAll(run, run, hint, most, End(run));
    var t := End(empty);
    NothingSet(empty, hint, t);
    Prepared(empty, hint, t);
    longer := Reach(run, empty, hint, most, t, obj, target);
  }

  /** And without any further unregistration that finds its bit clear, such an identifier is allocated with at most
      one more object alive than now. */
  lemma BoundLostAsItIs<O>(run: Run<O>, hint: nat, obj: O, target: nat) returns (longer: Run<O>)
    requires run.Valid(hint) && hint >= 1 && 2 <= target <= TOP
    requires End(run).setTakes < End(run).clearFrees <= HUGE
    ensures Leads(run, longer, hint, Live(End(run).reg) + 1) && |run.calls| + 2 <= |longer.calls|
    ensures End(longer).clearFrees == End(run).clearFrees
    ensures exists inUse :: JustTook(longer, obj, target, inUse)
  {
    var most := Live(End(run).reg) + 1;
    Started(run, hint, most);
    var cleared := EmptySet(run, run, hint, most, End(run));
    var t := End(cleared);
    Prepared(cleared, hint, t);
    longer := Reach(run, cleared, hint, most, t, obj, target);
  }

  // ---------------------------------------------------------------- exactly when

  /** Every automatic registration from call `from` on takes an identifier below the bound for the peak so far. */
  ghost predicate BoundKept<O>(run: Run<O>, hint: nat, from: nat)
    requires |run.states| == |run.calls| + 1
  {
    forall k: nat :: from <= k < |run.calls| && run.calls[k].Register? && run.calls[k].requested == UNKNOWN ==>
      run.states[k + 1].reg.ids.last < Max(hint, 4 * Peak(run, k + 1)) + 64
  }

  /** A continuation without further unregistrations that find their bit clear, and with a peak for which the
      bound is low enough to be overrun. */
  ghost predicate Modest<O>(run: Run<O>, longer: Run<O>, hint: nat) {
    && Continues(run, longer, hint) && End(longer).clearFrees == End(run).clearFrees
    && Max(hint, 4 * Peak(longer, |longer.calls|)) + 64 <= TOP
  }

  lemma KeptAt<O>(run: Run<O>, hint: nat, k: nat, end: nat)
    requires run.Valid(hint) && end < |run.states| && run.states[end].clearFrees == 0
    requires Max(hint, 4 * Peak(run, end)) + 64 <= TOP
    requires k < end && run.calls[k].Register? && run.calls[k].requested == UNKNOWN
    ensures run.states[k + 1].reg.ids.last < Max(hint, 4 * Peak(run, k + 1)) + 64
  {
    ClearFreesGrow(run, hint, k, end);
    PeakGrows(run, k + 1, end);
    AllocatedIdsBounded(run, hint, k);
  }

  lemma KeptWhileClear<O>(run: Run<O>, longer: Run<O>, hint: nat)
    requires Modest(run, longer, hint) && End(run).clearFrees == 0
    ensures BoundKept(longer, hint, |run.calls|)
  {
    forall k: nat | |run.calls| <= k < |longer.calls|
                    && longer.calls[k].Register? && longer.calls[k].requested == UNKNOWN
      ensures longer.states[k + 1].reg.ids.last < Max(hint, 4 * Peak(longer, k + 1)) + 64
    {
      KeptAt(longer, hint, k, |longer.calls|);
    }
  }

  lemma {:induction false} PeakWithin<O>(run: Run<O>, k: nat, most: nat)
    requires k < |run.states| && forall i :: 0 <= i <= k ==> Live(run.states[i].reg) <= most
    ensures Peak(run, k) <= most
  {
    if k == 0 {
    } else {
      PeakWithin(run, k - 1, most);
    }
  }

  /** The peak of a continuation, from the one so far and how many are alive later. */
  lemma PeakOfLonger<O>(run: Run<O>, longer: Run<O>, hint: nat, most: nat, k: nat)
    requires Leads(run, longer, hint, most) && k < |longer.states|
    ensures Peak(longer, k) <= Max(Peak(run, |run.states| - 1), most)
  {
    var peak := Max(Peak(run, |run.states| - 1), most);
    forall i | 0 <= i <= k
      ensures Live(longer.states[i].reg) <= peak
    {
      if i < |run.states| {
        assert longer.states[i] == run.states[i];
        PeakGrows(run, i, |run.states| - 1);
      }
    }
    PeakWithin(longer, k, peak);
  }

  lemma OverrunAt<O>(run: Run<O>, hint: nat, obj: O, target: nat, inUse: set<nat>, from: nat)
    requires JustTook(run, obj, target, inUse) && from + 2 <= |run.calls|
    requires Max(hint, 4 * Peak(run, |run.calls| - 1)) + 64 <= target
    ensures !BoundKept(run, hint, from)
  {
    var k := |run.calls| - 2;
    assert run.calls[k].Register? && run.calls[k].requested == UNKNOWN;
  }

  lemma Overrun<O>(run: Run<O>, hint: nat, obj: O, peak: nat) returns (longer: Run<O>)
    requires run.Valid(hint) && hint >= 1 && 0 == End(run).setTakes < End(run).clearFrees <= HUGE
    requires peak == Peak(run, |run.states| - 1) && Max(hint, 4 * (peak + 1)) + 64 <= TOP
    ensures Modest(run, longer, hint) && !BoundKept(longer, hint, |run.calls|)
  {
    var target := Max(hint, 4 * (peak + 1)) + 64;
    longer := BoundLostAsItIs(run, hint, obj, target);
    LiveAtPeak(run, |run.states| - 1, End(run));
    var most := Live(End(run).reg) + 1;
    var inUse :| JustTook(longer, obj, target, inUse);
    PeaksOfLonger(run, longer, hint, most, peak + 1);
    ModestIf(run, longer, hint, peak + 1);
    OverrunAt(longer, hint, obj, target, inUse, |run.calls|);
  }

  lemma PeaksOfLonger<O>(run: Run<O>, longer: Run<O>, hint: nat, most: nat, peak: nat)
    requires Leads(run, longer, hint, most) && |run.calls| + 2 <= |longer.calls|
    requires Peak(run, |run.states| - 1) <= peak && most <= peak
    ensures Peak(longer, |longer.calls| - 1) <= peak && Peak(longer, |longer.calls|) <= peak
  {
    PeakOfLonger(run, longer, hint, most, |longer.calls| - 1);
    PeakOfLonger(run, longer, hint, most, |longer.calls|);
  }

  lemma ModestIf<O>(run: Run<O>, longer: Run<O>, hint: nat, peak: nat)
    requires Continues(run, longer, hint) && End(longer).clearFrees == End(run).clearFrees
    requires Peak(longer, |longer.calls|) <= peak && Max(hint, 4 * peak) + 64 <= TOP
    ensures Modest(run, longer, hint)
  {
  }

  lemma LiveAtPeak<O>(run: Run<O>, k: nat, t: Tracked<O>)
    requires k < |run.states| && run.states[k] == t
    ensures Live(t.reg) <= Peak(run, k)
  {
    PeakGrows(run, k, k);
  }

  /** As long as the identifiers have not been used up, the bound survives all modest continuations exactly if no
      unregistration has found its bit clear so far. */
  lemma BoundSurvivesIff<O>(run: Run<O>, hint: nat, obj: O)
    requires run.Valid(hint) && hint >= 1 && End(run).setTakes == 0 && End(run).clearFrees <= HUGE
    requires Max(hint, 4 * (Peak(run, |run.states| - 1) + 1)) + 64 <= TOP
    ensures End(run).clearFrees == 0 <==>
            forall longer: Run<O> :: Modest(run, longer, hint) ==> BoundKept(longer, hint, |run.calls|)
  {
    if End(run).clearFrees == 0 {
      forall longer: Run<O> | Modest(run, longer, hint)
        ensures BoundKept(longer, hint, |run.calls|)
      {
        KeptWhileClear(run, longer, hint);
      }
    } else {
      var longer := Overrun(run, hint, obj, Peak(run, |run.states| - 1));
    }
  }

  /** For instance after the plugin has come and gone. */
  lemma LostWithPlugin<O>(obj: O, hint: nat, target: nat) returns (run: Run<O>)
    requires 1 <= hint < ID_LIMIT && 2 <= target <= TOP
    ensures run.Valid(hint) && |run.calls| >= 4
    ensures run.calls[0] == Register(obj, PLUGIN, PLUGIN) && run.calls[1] == Unregister(PLUGIN)
    ensures run.calls[|run.calls| - 2] == Register(obj, UNKNOWN, target) && LiveWithin(run, 2, 1)
  {
    var short := PluginWrapsCounter(obj, hint);
    assert End(short).reg.objects.Keys - {UNKNOWN, PLUGIN} == {};
    run := BoundLost(short, hint, obj, target);
    assert run.calls[0] == short.calls[0] && run.calls[1] == short.calls[1];
  }
}
