/** What Set of a non-trivial value leaves behind: nobody holds an older version any more. */
module DoubleBufferFresh {
  import opened DoubleBuffer
  import opened DoubleBufferRuns

  /** A new version is published and the setter has not yet found the old slot free of readers. */
  predicate ClearsOld<V>(setter: Setter<V>) {
    setter.Invalidating? || setter.WaitingOld?
  }

  /** A reader holds the current version, or the one before while the setter is waiting for it to let go. */
  ghost predicate FreshReader<V>(s: State<V>, reader: Reader) {
    reader.Holding? ==> reader.index == s.current || (reader.index + 1 == s.current && ClearsOld(s.setter))
  }

  ghost predicate Fresh<V>(s: State<V>) {
    && (s.SlotAt(s.current + 1).tag == s.current - 1 ==> s.setter.Invalidating?)
    && forall r :: 0 <= r < |s.readers| ==> FreshReader(s, s.readers[r])
  }

  /** The setter takes the old slot only when no reader holds it, so that nobody falls behind. */
  lemma SetterKeepsFresh<V>(s: State<V>)
    requires Inv(s) && !s.trivial && Fresh(s) && SetterCanAdvance(s)
    ensures Fresh(SetterStep(s))
  {
    var s' := SetterStep(s);
    forall r | 0 <= r < |s'.readers|
      ensures FreshReader(s', s'.readers[r])
    {
      assert FreshReader(s, s.readers[r]) && ReaderOk(s, s.readers[r]);
      if s.readers[r].Holding? {
        HolderCounted(s, r);
      }
    }
  }

  lemma ReaderKeepsFresh<V>(s: State<V>, step: Step<V>)
    requires Inv(s) && !s.trivial && Fresh(s) && Enabled(s, step)
    requires !step.Enter? && !step.Advance? && !step.Spawn?
    ensures Fresh(Do(s, step))
  {
    var s' := Do(s, step);
    ReaderKeepsSlots(s, step);
    assert FreshReader(s, s.readers[step.reader]) && ReaderOk(s, s.readers[step.reader]);
    forall r | 0 <= r < |s'.readers|
      ensures FreshReader(s', s'.readers[r])
    {
      if r != step.reader {
        assert FreshReader(s, s.readers[r]);
      }
    }
  }

  lemma StepKeepsFresh<V>(s: State<V>, step: Step<V>)
    requires Inv(s) && !s.trivial && Fresh(s) && Enabled(s, step)
    ensures Fresh(Do(s, step)) && !Do(s, step).trivial
  {
    if step.Advance? {
      SetterKeepsFresh(s);
    } else if step.Spawn? || step.Enter? {
      var s' := Do(s, step);
      forall r | 0 <= r < |s'.readers|
        ensures FreshReader(s', s'.readers[r])
      {
        if r < |s.readers| {
          assert FreshReader(s, s.readers[r]);
        }
      }
    } else {
      ReaderKeepsFresh(s, step);
    }
  }

  lemma FreshNext<V>(run: Run<V>, k: nat)
    requires run.Valid() && k < |run.steps| && Fresh(run.states[k]) && !run.states[k].trivial
    ensures Fresh(run.states[k + 1]) && !run.states[k + 1].trivial
  {
    RunInv(run, k);
    assert run.StepAt(k);
    StepKeepsFresh(run.states[k], run.steps[k]);
  }

  lemma {:induction false} RunFresh<V>(run: Run<V>, j: nat)
    requires run.Valid() && j < |run.states| && !run.states[0].trivial
    ensures Fresh(run.states[j]) && !run.states[j].trivial
  {
    if j == 0 {
    } else {
      RunFresh(run, j - 1);
      FreshNext(run, j - 1);
    }
  }

  lemma ClearsOnlyReplaced<V>(s: State<V>, step: Step<V>)
    requires Enabled(s, step) && (s.setter.Publishing? ==> s.setter.prev == s.current)
    ensures ClearsOld(Do(s, step).setter) ==> ClearsOld(s.setter) || s.current < Do(s, step).current
  {
    if !step.Advance? && !step.Enter? {
      ReaderKeepsSlots(s, step);
    }
  }

  lemma ClearsNext<V>(run: Run<V>, k: nat)
    requires run.Valid() && k < |run.steps|
    ensures run.states[k].current <= run.states[k + 1].current
    ensures ClearsOld(run.states[k + 1].setter) ==>
      ClearsOld(run.states[k].setter) || run.states[k].current < run.states[k + 1].current
  {
    PublishedNext(run, k);
    RunInv(run, k);
    assert run.StepAt(k);
    ClearsOnlyReplaced(run.states[k], run.steps[k]);
  }

  /** What is being cleared was replaced later than the version that was current at `i`. */
  lemma {:induction false} ClearsNothingNewer<V>(run: Run<V>, i: nat, j: nat)
    requires run.Valid() && i <= j < |run.states| && !ClearsOld(run.states[i].setter)
    ensures run.states[i].current <= run.states[j].current
    ensures ClearsOld(run.states[j].setter) ==> run.states[i].current < run.states[j].current
    decreases j
  {
    if i == j {
    } else {
      ClearsNothingNewer(run, i, j - 1);
      ClearsNext(run, j - 1);
    }
  }

  /** Once a call of Set has returned, nobody holds an older version than the one it published, then or in any
      later state: it has waited for all of them. */
  lemma NoOldHoldersAfterSet<V>(run: Run<V>, input: V, i: nat, j: nat, k: nat, r: nat)
    requires run.Valid() && !run.states[0].trivial && run.Setting(input, i, j) && j <= k < |run.states|
    requires r < |run.states[k].readers| && run.states[k].readers[r].Holding?
    ensures |run.states[i].published| + 1 <= run.states[k].readers[r].index
  {
    RunFresh(run, k);
    RunInv(run, j);
    SetPublishesOnce(run, input, i, j);
    ClearsNothingNewer(run, j, k);
    assert FreshReader(run.states[k], run.states[k].readers[r]);
  }
}
