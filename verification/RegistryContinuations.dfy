/** Continuing the runs of the registry, and where they can lead. */
module RegistryContinuations {
  import opened Bits
  import opened Identifiers
  import opened Dispatcher
  import opened RegistryRuns

  /** The state a run has come to. */
  ghost function End<O>(run: Run<O>): Tracked<O>
    requires run.states != []
  {
    run.states[|run.states| - 1]
  }

  ghost predicate Continues<O>(run: Run<O>, longer: Run<O>, hint: nat) {
    run.Valid(hint) && longer.Valid(hint) && run.calls <= longer.calls && run.states <= longer.states
  }

  /** One call more. */
  lemma Extended<O>(run: Run<O>, hint: nat, last: Tracked<O>, call: Call<O>, t: Tracked<O>) returns (longer: Run<O>)
    requires run.Valid(hint) && End(run) == last && Step(last, call, t)
    ensures Continues(run, longer, hint)
    ensures longer.calls == run.calls + [call] && longer.states == run.states + [t]
  {
    longer := Run(run.states + [t], run.calls + [call]);
    forall k: nat | k < |longer.calls|
      ensures longer.StepAt(k)
    {
      if k < |run.calls| {
        assert run.StepAt(k);
      }
    }
  }

  /** A plugin that is registered and unregistered leaves the counter at 2^64 - 1. */
  lemma PluginWrapsCounter<O>(obj: O, hint: nat) returns (run: Run<O>)
    requires hint < ID_LIMIT
    ensures run.Valid(hint) && run.calls == [Register(obj, PLUGIN, PLUGIN), Unregister(PLUGIN)]
    ensures run.states[0].reg.objects == map[] && run.states[1].reg.objects == map[PLUGIN := obj]
    ensures run.states[2] ==
            Tracked(Registry(Ids(Marked([], PLUGIN, false), SIZE_LIMIT - 1, 0, hint), map[]), {}, 1, 0)
  {
    var t0 := Initial<O>(hint);
    var t1 := Tracked(Registry(t0.reg.ids, map[PLUGIN := obj]), {PLUGIN}, 0, 0);
    var t2 := Tracked(Unregistered(t1.reg, PLUGIN), {}, 1, 0);
    run := Run([t0, t1, t2], [Register(obj, PLUGIN, PLUGIN), Unregister(PLUGIN)]);
    assert t2.reg.objects == map[];
    assert t1.explicit - {PLUGIN} == {};
    assert run.StepAt(0) && run.StepAt(1);
  }
}
