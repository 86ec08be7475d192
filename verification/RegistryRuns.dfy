/** What holds of the registry over every run of registrations and unregistrations. */
module RegistryRuns {
  import opened Bits
  import opened Identifiers
  import opened Dispatcher

  /** A call and what it returned. */
  datatype Call<O> =
    | Register(obj: O, requested: nat, result: nat)
    | Unregister(id: nat)

  /** The registry with its history: the identifiers in use that were chosen by the caller, how many
      unregistrations found their bit already clear, and how many allocations found it already set. */
  datatype Tracked<O> = Tracked(reg: Registry<O>, explicit: set<nat>, clearFrees: nat, setTakes: nat)

  ghost predicate Step<O>(t: Tracked<O>, call: Call<O>, t': Tracked<O>) {
    match call
    case Register(obj, requested, result) =>
      && requested < ID_LIMIT
      && Registers(t.reg, obj, requested, result, t'.reg)
      && t'.explicit == t.explicit + (if requested != UNKNOWN && requested !in t.reg.objects then {requested} else {})
      && t'.clearFrees == t.clearFrees
      && t'.setTakes == t.setTakes
                        + (if requested == UNKNOWN && BitSet(t.reg.ids.bits, t'.reg.ids.last) then 1 else 0)
    case Unregister(id) =>
      var known := id != UNKNOWN && id in t.reg.objects;
      && t'.reg == Unregistered(t.reg, id)
      && t'.explicit == (if known then t.explicit - {id} else t.explicit)
      && t'.clearFrees == t.clearFrees + (if known && !BitSet(t.reg.ids.bits, id) then 1 else 0)
      && t'.setTakes == t.setTakes
  }

  /** Every set bit belongs to a registered, non-reserved identifier, and every registered identifier
      with a clear bit was chosen by the caller. */
  ghost predicate BitsAgree(bits: seq<bv64>, registered: set<nat>, explicit: set<nat>) {
    && (forall id: nat :: BitSet(bits, id) ==> id in registered && !Reserved(id))
    && (forall id: nat :: id in registered && !BitSet(bits, id) ==> id in explicit)
    && explicit <= registered
  }

  /** The counter is the number of set bits, less the unregistrations whose bit was clear, and with the allocations
      whose bit was set counted twice, modulo 2^64. */
  ghost predicate CountAgrees(ids: Ids, clearFrees: nat, setTakes: nat) {
    ids.count == (|Used(ids.bits)| + setTakes - clearFrees) % SIZE_LIMIT
  }

  ghost predicate Inv<O>(t: Tracked<O>) {
    && t.reg.ids.Fits()
    && (forall id :: id in t.reg.objects ==> UNKNOWN < id < ID_LIMIT)
    && BitsAgree(t.reg.ids.bits, t.reg.objects.Keys, t.explicit)
    && CountAgrees(t.reg.ids, t.clearFrees, t.setTakes)
  }

  function Initial<O>(hint: nat): Tracked<O> {
    Tracked(Registry(Ids([], 0, 0, hint), map[]), {}, 0, 0)
  }

  lemma InitialInv<O>(hint: nat)
    requires hint < ID_LIMIT
    ensures Inv<O>(Initial(hint))
  {
    assert Used([]) == {};
  }

  lemma CountUp(count: nat, before: int, after: int)
    requires count == before % SIZE_LIMIT && after == before + 1
    ensures (count + 1) % SIZE_LIMIT == after % SIZE_LIMIT
  {
  }

  lemma CountDown(count: nat, before: int, after: int)
    requires count == before % SIZE_LIMIT && after == before - 1
    ensures (count + SIZE_LIMIT - 1) % SIZE_LIMIT == after % SIZE_LIMIT
  {
  }

  lemma TakenBitsAgree(ids: Ids, id: nat, registered: set<nat>, explicit: set<nat>)
    requires BitsAgree(ids.bits, registered, explicit) && !Reserved(id)
    ensures BitsAgree(Taken(ids, id).bits, registered + {id}, explicit)
  {
  }

  lemma TakenUsed(ids: Ids, id: nat)
    ensures |Used(Taken(ids, id).bits)| == |Used(ids.bits)| + if BitSet(ids.bits, id) then 0 else 1
  {
    MarkedUsed(ids.bits, id, true);
    assert id in Used(ids.bits) <==> BitSet(ids.bits, id);
    assert BitSet(ids.bits, id) ==> Used(ids.bits) + {id} == Used(ids.bits);
  }

  lemma TakenCountAgrees(ids: Ids, id: nat, clearFrees: nat, setTakes: nat)
    requires CountAgrees(ids, clearFrees, setTakes)
    ensures CountAgrees(Taken(ids, id), clearFrees, setTakes + if BitSet(ids.bits, id) then 1 else 0)
  {
    var setTakes' := setTakes + if BitSet(ids.bits, id) then 1 else 0;
    TakenUsed(ids, id);
    CountUp(ids.count, |Used(ids.bits)| + setTakes - clearFrees,
            |Used(Taken(ids, id).bits)| + setTakes' - clearFrees);
  }

  lemma FreedBitsAgree(ids: Ids, id: nat, registered: set<nat>, explicit: set<nat>)
    requires BitsAgree(ids.bits, registered, explicit)
    ensures BitsAgree(Freed(ids, id).bits, registered - {id}, explicit - {id})
  {
  }

  lemma FreedUsed(ids: Ids, id: nat)
    ensures |Used(Freed(ids, id).bits)| == |Used(ids.bits)| - if BitSet(ids.bits, id) then 1 else 0
  {
    MarkedUsed(ids.bits, id, false);
    assert id in Used(ids.bits) <==> BitSet(ids.bits, id);
  }

  lemma FreedCountAgrees(ids: Ids, id: nat, clearFrees: nat, setTakes: nat)
    requires CountAgrees(ids, clearFrees, setTakes)
    ensures CountAgrees(Freed(ids, id), clearFrees + (if BitSet(ids.bits, id) then 0 else 1), setTakes)
  {
    var clearFrees' := clearFrees + if BitSet(ids.bits, id) then 0 else 1;
    FreedUsed(ids, id);
    CountDown(ids.count, |Used(ids.bits)| + setTakes - clearFrees,
              |Used(Freed(ids, id).bits)| + setTakes - clearFrees');
  }

  lemma ExplicitInv<O>(t: Tracked<O>, call: Call<O>, t': Tracked<O>)
    requires Inv(t) && call.Register? && call.requested != UNKNOWN && Step(t, call, t')
    ensures Inv(t')
  {
  }

  lemma AutoInv<O>(t: Tracked<O>, obj: O, id: nat, t': Tracked<O>)
    requires Inv(t) && Chooses(t.reg.ids, id) && t'.reg.ids == Taken(t.reg.ids, id)
    requires t'.reg.objects == if id in t.reg.objects then t.reg.objects else t.reg.objects[id := obj]
    requires t'.explicit == t.explicit && t'.clearFrees == t.clearFrees
    requires t'.setTakes == t.setTakes + if BitSet(t.reg.ids.bits, id) then 1 else 0
    ensures Inv(t')
  {
    var ids := t.reg.ids;
    ChosenIsFresh(ids, id);
    AllocationFits(ids, id);
    TakenBitsAgree(ids, id, t.reg.objects.Keys, t.explicit);
    TakenCountAgrees(ids, id, t.clearFrees, t.setTakes);
    assert t'.reg.objects.Keys == t.reg.objects.Keys + {id};
  }

  lemma RegisterInv<O>(t: Tracked<O>, call: Call<O>, t': Tracked<O>)
    requires Inv(t) && call.Register? && Step(t, call, t')
    ensures Inv(t')
  {
    if call.requested == UNKNOWN {
      var id :| Chooses(t.reg.ids, id) && t'.reg.ids == Taken(t.reg.ids, id)
        && t'.reg.objects == (if id in t.reg.objects then t.reg.objects else t.reg.objects[id := call.obj]);
      AutoInv(t, call.obj, id, t');
    } else {
      ExplicitInv(t, call, t');
    }
  }

  lemma UnregisterInv<O>(t: Tracked<O>, call: Call<O>, t': Tracked<O>)
    requires Inv(t) && call.Unregister? && Step(t, call, t')
    ensures Inv(t')
  {
    var ids, id := t.reg.ids, call.id;
    if id != UNKNOWN && id in t.reg.objects {
      FreeingFits(ids, id);
      FreedBitsAgree(ids, id, t.reg.objects.Keys, t.explicit);
      FreedCountAgrees(ids, id, t.clearFrees, t.setTakes);
      assert t'.reg.objects.Keys == t.reg.objects.Keys - {id};
    }
  }

  /** An automatic registration yields a new identifier, which is neither reserved nor in use, unless the allocator
      comes upon an identifier in use, which is one that a caller chose, or any when all are taken: then, and
      only then, it fails. */
  lemma AutoRegistrationIsFresh<O>(t: Tracked<O>, call: Call<O>, t': Tracked<O>)
    requires Inv(t) && call.Register? && call.requested == UNKNOWN && Step(t, call, t')
    ensures call.result != UNKNOWN ==>
      && !Reserved(call.result) && call.result < ID_LIMIT
      && call.result !in t.reg.objects
      && t'.reg.objects == t.reg.objects[call.result := call.obj]
    ensures call.result == UNKNOWN ==>
      && t'.reg.objects == t.reg.objects
      && !Reserved(t'.reg.ids.last) && (t'.reg.ids.last in t.explicit || Exhausted(t.reg.ids.bits))
    ensures call.result == UNKNOWN <==> t'.reg.ids.last in t.reg.objects
    ensures Exhausted(t.reg.ids.bits) ==> call.result == UNKNOWN && t'.setTakes == t.setTakes + 1
  {
    var id :| Chooses(t.reg.ids, id) && t'.reg.ids == Taken(t.reg.ids, id)
      && call.result == (if id in t.reg.objects then UNKNOWN else id)
      && t'.reg.objects == (if id in t.reg.objects then t.reg.objects else t.reg.objects[id := call.obj]);
    ChosenIsFresh(t.reg.ids, id);
  }

  // ---------------------------------------------------------------- whole runs

  datatype Run<O> = Run(states: seq<Tracked<O>>, calls: seq<Call<O>>)
  {
    /** Call `k` leads from one state to the next. */
    ghost predicate StepAt(k: nat) {
      && k < |calls| && k + 1 < |states|
      && Step(states[k], calls[k], states[k + 1])
    }

    ghost predicate Valid(hint: nat) {
      && hint < ID_LIMIT
      && |states| == |calls| + 1
      && states[0] == Initial(hint)
      && (forall k: nat :: k < |calls| ==> StepAt(k))
    }
  }

  lemma {:induction false} RunInv<O>(run: Run<O>, hint: nat, k: nat)
    requires run.Valid(hint) && k < |run.states|
    ensures Inv(run.states[k])
  {
    if k == 0 {
      InitialInv<O>(hint);
    } else {
      RunInv(run, hint, k - 1);
      assert run.StepAt(k - 1);
      var t, call, t' := run.states[k - 1], run.calls[k - 1], run.states[k];
      if call.Register? {
        RegisterInv(t, call, t');
      } else {
        UnregisterInv(t, call, t');
      }
    }
  }

  lemma CallAt<O>(run: Run<O>, hint: nat, k: nat)
    requires run.Valid(hint) && k < |run.calls|
    ensures Inv(run.states[k]) && Inv(run.states[k + 1]) && Step(run.states[k], run.calls[k], run.states[k + 1])
  {
    RunInv(run, hint, k);
    RunInv(run, hint, k + 1);
    assert run.StepAt(k);
  }

  lemma RegistrationMade<O>(t: Tracked<O>, call: Call<O>, t': Tracked<O>)
    requires Step(t, call, t') && call.Register? && call.result != UNKNOWN
    ensures call.result !in t.reg.objects && t'.reg.objects == t.reg.objects[call.result := call.obj]
  {
  }

  lemma RegistrationKept<O>(t: Tracked<O>, call: Call<O>, t': Tracked<O>, id: nat)
    requires Step(t, call, t') && id in t.reg.objects && call != Unregister(id)
    ensures id in t'.reg.objects && t'.reg.objects[id] == t.reg.objects[id]
  {
  }

  /** Over every run, a registration yields an identifier that is not in use, and whatever it returned stays in
      the registry, leading to the same object, until it is unregistered. */
  lemma {:induction false} RegistrationLasts<O>(run: Run<O>, hint: nat, i: nat, j: nat)
    requires run.Valid(hint) && i < j < |run.states|
    requires run.calls[i].Register? && run.calls[i].result != UNKNOWN
    requires forall k :: i < k < j ==> run.calls[k] != Unregister(run.calls[i].result)
    ensures run.calls[i].result !in run.states[i].reg.objects
    ensures run.calls[i].result in run.states[j].reg.objects
    ensures run.states[j].reg.objects[run.calls[i].result] == run.calls[i].obj
    decreases j
  {
    assert run.StepAt(j - 1);
    if i + 1 < j {
      RegistrationLasts(run, hint, i, j - 1);
      RegistrationKept(run.states[j - 1], run.calls[j - 1], run.states[j], run.calls[i].result);
    } else {
      RegistrationMade(run.states[i], run.calls[i], run.states[j]);
    }
  }
}
