/** What holds of whole runs of FindObject and UnregisterObject. */
module FindObjectRuns {
  import opened Options
  import opened FindObject
  import opened Tally

  datatype Run = Run(states: seq<State>, steps: seq<Step>)
  {
    ghost predicate StepAt(k: nat) {
      && k < |steps| && k + 1 < |states|
      && Enabled(states[k], steps[k]) && states[k + 1] == Do(states[k], steps[k])
    }

    ghost predicate Valid() {
      && |states| == |steps| + 1
      && states[0] == INITIAL
      && forall k: nat :: k < |steps| ==> StepAt(k)
    }

    /** Finder `f` is inside one call of FindObject(id), from its start at `i` to `j`. */
    ghost predicate Calling(f: nat, id: nat, i: nat, j: nat) {
      && i <= j < |states|
      && (forall m: nat :: i <= m <= j ==> f < |states[m].finders| && !states[m].finders[f].Idle?)
      && states[i].finders[f] == Called(id)
    }
  }

  lemma {:induction false} RunInv(run: Run, j: nat)
    requires run.Valid() && j < |run.states|
    ensures Inv(run.states[j])
  {
    if j == 0 {
    } else {
      RunInv(run, j - 1);
      assert run.StepAt(j - 1);
      StepInv(run.states[j - 1], run.steps[j - 1]);
    }
  }

  // ---------------------------------------------------------------- no use after UnregisterObject

  /** A raw pointer in use leads to an object whose UnregisterObject has not returned and whose memory is there. */
  lemma UsedObjectIsThere(s: State, f: nat)
    requires Inv(s) && f < |s.finders| && s.finders[f].Using?
    ensures s.finders[f].entry < |s.entries|
    ensures !s.entries[s.finders[f].entry].unregistered && !s.entries[s.finders[f].entry].phase.Freed?
  {
    assert FinderOk(s, s.finders[f]);
    assert EntryOk(s, s.finders[f].entry);
  }

  lemma UnregisteredStepStays(s: State, step: Step, k: nat)
    requires Enabled(s, step) && k < |s.entries|
    ensures k < |Do(s, step).entries|
    ensures Do(s, step).entries[k].id == s.entries[k].id
    ensures s.entries[k].unregistered ==> Do(s, step).entries[k].unregistered
  {
    if step.ByFinder() {
      FinderFrame(s, step);
    } else if IsLife(step) {
      LifeFrame(s, step);
    }
  }

  lemma {:induction false} UnregisteredStays(run: Run, k: nat, i: nat, j: nat)
    requires run.Valid() && i <= j < |run.states| && k < |run.states[i].entries|
    ensures k < |run.states[j].entries| && run.states[j].entries[k].id == run.states[i].entries[k].id
    ensures run.states[i].entries[k].unregistered ==> run.states[j].entries[k].unregistered
    decreases j
  {
    if i == j {
    } else {
      UnregisteredStays(run, k, i, j - 1);
      assert run.StepAt(j - 1);
      UnregisteredStepStays(run.states[j - 1], run.steps[j - 1], k);
    }
  }

  /** Once UnregisterObject has returned for an object, no FindObject, in any interleaving, is using the raw
      pointer to it or ever will. */
  lemma NoUseAfterUnregister(run: Run, k: nat, i: nat, j: nat, f: nat)
    requires run.Valid() && i <= j < |run.states|
    requires k < |run.states[i].entries| && run.states[i].entries[k].unregistered
    requires f < |run.states[j].finders| && run.states[j].finders[f].Using?
    ensures run.states[j].finders[f].entry != k
  {
    UnregisteredStays(run, k, i, j);
    RunInv(run, j);
    UsedObjectIsThere(run.states[j], f);
  }

  /** UnregisterObject has returned in the sense above as soon as the registrar leaves it. */
  lemma ReturnMarksUnregistered(s: State)
    requires Enabled(s, Advance) && s.registrar.Done?
    ensures Do(s, Advance).registrar.Free?
    ensures Do(s, Advance).entries[s.registrar.entry].unregistered
  {
  }

  // ---------------------------------------------------------------- what FindObject returns

  /** `id` led to registration `k` in the map at some instant from `i` to `j`. */
  ghost predicate MappedDuring(run: Run, i: nat, j: nat, id: nat, k: nat)
    requires j < |run.states|
  {
    exists m: nat :: i <= m <= j && id in run.states[m].table && run.states[m].table[id] == k
  }

  /** The object of registration `k` was owned, so that its destructor had not started, at some instant from
      `i` to `j`. */
  ghost predicate OwnedDuring(run: Run, i: nat, j: nat, k: nat)
    requires j < |run.states|
  {
    exists m: nat :: i <= m <= j && k < |run.states[m].entries| && run.states[m].entries[k].phase.Owned?
  }

  /** What the finder knows was true at some instant of its call. */
  ghost predicate Witnessed(run: Run, i: nat, j: nat, finder: Finder, id: nat)
    requires j < |run.states|
  {
    match finder
    case Idle => true
    case Called(x) => x == id
    case Snapped(x, _, table) =>
      x == id && (id in table ==> MappedDuring(run, i, j, id, table[id]))
    case Found(x, _, k) => x == id && MappedDuring(run, i, j, id, k)
    case Locked(x, _, k) => x == id && MappedDuring(run, i, j, id, k)
    case Using(x, _, k) => x == id && MappedDuring(run, i, j, id, k)
    case Leaving(x, _, k, found) => x == id && MappedDuring(run, i, j, id, k) && (found ==> OwnedDuring(run, i, j, k))
    case Returned(x, _, result) =>
      x == id && (result.Some? ==> MappedDuring(run, i, j, id, result.value) && OwnedDuring(run, i, j, result.value))
  }

  lemma WitnessesLast(run: Run, i: nat, j: nat, finder: Finder, id: nat)
    requires j + 1 < |run.states| && Witnessed(run, i, j, finder, id)
    ensures Witnessed(run, i, j + 1, finder, id)
  {
  }

  lemma OthersKeepFinder(s: State, step: Step, f: nat)
    requires Enabled(s, step) && f < |s.finders| && !(step.ByFinder() && step.f == f)
    ensures f < |Do(s, step).finders| && Do(s, step).finders[f] == s.finders[f]
  {
    if step.ByFinder() {
      FinderFrame(s, step);
    } else if IsLife(step) {
      LifeFrame(s, step);
    }
  }

  lemma WitnessStep(run: Run, f: nat, id: nat, i: nat, j: nat)
    requires run.StepAt(j) && i <= j
    requires f < |run.states[j].finders| && run.steps[j].ByFinder() && run.steps[j].f == f && !run.steps[j].Call?
    requires Witnessed(run, i, j, run.states[j].finders[f], id)
    ensures f < |run.states[j + 1].finders|
    ensures Witnessed(run, i, j + 1, run.states[j + 1].finders[f], id)
  {
    WitnessesLast(run, i, j, run.states[j].finders[f], id);
    var s := run.states[j];
    FinderFrame(s, run.steps[j]);
    if run.steps[j].Snapshot? && id in s.table {
      assert MappedDuring(run, i, j + 1, id, s.table[id]);
    }
    if run.steps[j].Promote? && s.entries[s.finders[f].entry].phase.Owned? {
      assert OwnedDuring(run, i, j + 1, s.finders[f].entry);
    }
  }

  lemma {:induction false} CallWitnessed(run: Run, f: nat, id: nat, i: nat, j: nat)
    requires run.Valid() && run.Calling(f, id, i, j)
    ensures Witnessed(run, i, j, run.states[j].finders[f], id)
    decreases j
  {
    if i == j {
    } else {
      assert f < |run.states[j - 1].finders| && !run.states[j - 1].finders[f].Idle?;
      assert run.Calling(f, id, i, j - 1);
      CallWitnessed(run, f, id, i, j - 1);
      assert run.StepAt(j - 1);
      var step := run.steps[j - 1];
      if step.ByFinder() && step.f == f {
        WitnessStep(run, f, id, i, j - 1);
      } else {
        OthersKeepFinder(run.states[j - 1], step, f);
        WitnessesLast(run, i, j - 1, run.states[j].finders[f], id);
      }
    }
  }

  /** FindObject(id) returns only an object that was registered under `id`, and whose destructor had not started,
      during the call. */
  lemma FoundWasRegistered(run: Run, f: nat, id: nat, i: nat, j: nat, k: nat)
    requires run.Valid() && run.Calling(f, id, i, j)
    requires run.states[j].finders[f].Returned? && run.states[j].finders[f].result == Some(k)
    ensures MappedDuring(run, i, j, id, k)
    ensures OwnedDuring(run, i, j, k)
  {
    CallWitnessed(run, f, id, i, j);
  }

  /** All through the states from `i` to `j`, `id` leads to `k`, nobody removes it and its object is owned. */
  ghost predicate SteadyFrom(run: Run, i: nat, j: nat, id: nat, k: nat)
    requires j < |run.states|
  {
    forall m: nat :: i <= m <= j ==> Steady(run.states[m], id, k)
  }

  ghost predicate Steady(s: State, id: nat, k: nat) {
    && id in s.table && s.table[id] == k && !s.BeingRemoved(k)
    && k < |s.entries| && s.entries[k].phase.Owned?
  }

  /** A finder that is on its way to find `k`. */
  predicate OnTheWay(finder: Finder, id: nat, k: nat) {
    match finder
    case Idle => false
    case Called(x) => x == id
    case Snapped(x, _, table) => x == id && id in table && table[id] == k
    case Found(x, _, e) => x == id && e == k
    case Locked(x, _, e) => x == id && e == k
    case Using(x, _, e) => x == id && e == k
    case Leaving(x, _, e, found) => x == id && e == k && found
    case Returned(x, _, result) => x == id && result == Some(k)
  }

  lemma SteadyStep(s: State, step: Step, f: nat, id: nat, k: nat)
    requires Inv(s) && Enabled(s, step) && Steady(s, id, k)
    requires f < |s.finders| && OnTheWay(s.finders[f], id, k)
    ensures f < |Do(s, step).finders|
    ensures OnTheWay(Do(s, step).finders[f], id, k) || Do(s, step).finders[f].Idle?
  {
    if step.ByFinder() && step.f == f {
      FinderFrame(s, step);
      assert EntryOk(s, k);
      assert FinderOk(s, s.finders[f]);
    } else {
      OthersKeepFinder(s, step, f);
    }
  }

  lemma {:induction false} SteadyCall(run: Run, f: nat, id: nat, i: nat, j: nat, k: nat)
    requires run.Valid() && run.Calling(f, id, i, j) && SteadyFrom(run, i, j, id, k)
    ensures OnTheWay(run.states[j].finders[f], id, k)
    decreases j
  {
    if i == j {
    } else {
      assert f < |run.states[j - 1].finders| && !run.states[j - 1].finders[f].Idle?;
      assert run.Calling(f, id, i, j - 1);
      SteadyCall(run, f, id, i, j - 1, k);
      RunInv(run, j - 1);
      assert run.StepAt(j - 1);
      assert Steady(run.states[j - 1], id, k);
      assert f < |run.states[j].finders| && !run.states[j].finders[f].Idle?;
      SteadyStep(run.states[j - 1], run.steps[j - 1], f, id, k);
    }
  }

  /** FindObject does not miss: when the object stays registered and owned all through the call, it is returned,
      whatever other registrations come and go. */
  lemma RegisteredIsFound(run: Run, f: nat, id: nat, i: nat, j: nat, k: nat)
    requires run.Valid() && run.Calling(f, id, i, j) && SteadyFrom(run, i, j, id, k)
    requires run.states[j].finders[f].Returned?
    ensures run.states[j].finders[f].result == Some(k)
  {
    SteadyCall(run, f, id, i, j, k);
  }

  // ---------------------------------------------------------------- the lock of the registration

  /** The finder has the registration in hand, or a map that leads to it. */
  ghost predicate Reaches(finder: Finder, k: nat) {
    || (finder.HasEntry() && finder.entry == k)
    || (finder.Snapped? && exists id :: id in finder.table && finder.table[id] == k)
  }

  /** By the time UnregisterObject comes to lock the registration, no finder can reach it any more: those with
      an older map have returned, as Set has waited for them, and the current map does not lead there. */
  lemma NobodyReachesRemoved(s: State, k: nat, f: nat)
    requires Inv(s) && (s.registrar == Waiting(k) || s.registrar == Exclusive(k) || s.registrar == Done(k))
    requires f < |s.finders|
    ensures !Reaches(s.finders[f], k)
  {
    assert MapOk(s, s.finders[f]);
    assert EntryOk(s, k);
    assert s.entries[k].id !in s.table || s.table[s.entries[k].id] != k;
  }

  /** So the exclusive lock is free at once, whatever interleaving led there, and the wait that the comment in
      UnregisterObject describes at that place does not occur. */
  lemma LockIsFreeAtOnce(run: Run, j: nat, k: nat)
    requires run.Valid() && j < |run.states| && run.states[j].registrar == Waiting(k)
    ensures Enabled(run.states[j], Advance)
  {
    var s := run.states[j];
    RunInv(run, j);
    assert EntryOk(s, k);
    forall f | 0 <= f < |s.finders|
      ensures s.finders[f].HasEntry() ==> s.finders[f].entry != k
    {
      NobodyReachesRemoved(s, k, f);
    }
    NoHolders(s.finders, k);
  }

  /** And in no run does FindObject ever fail to lock a registration: the branch that reports it is not taken. */
  lemma TryLockNeverFails(run: Run, j: nat, f: nat)
    requires run.Valid() && j < |run.states|
    ensures !Enabled(run.states[j], TryLock(f, false))
  {
    var s := run.states[j];
    RunInv(run, j);
    if f < |s.finders| && s.finders[f].Found? {
      var k := s.finders[f].entry;
      assert FinderOk(s, s.finders[f]);
      assert EntryOk(s, k);
      if s.registrar == Waiting(k) || s.registrar == Exclusive(k) {
        NobodyReachesRemoved(s, k, f);
      }
    }
  }

  // ---------------------------------------------------------------- the wait inside Set

  /** The steps a finder may still take before it lets go of a map older than `version`. */
  function Weight(finder: Finder, version: nat): nat {
    if !finder.HasMap() || finder.version >= version then 0
    else
      match finder
      case Snapped(_, _, _) => 6
      case Found(_, _, _) => 5
      case Locked(_, _, _) => 4
      case Using(_, _, _) => 3
      case Leaving(_, _, _, _) => 2
      case Returned(_, _, _) => 1
  }

  function WeightOf(version: nat): Finder -> nat {
    (finder: Finder) => Weight(finder, version)
  }

  function Blockers(finders: seq<Finder>, version: nat): nat {
    Sum(finders, WeightOf(version))
  }

  /** A finder's step while the registrar waits for the finders with older maps: none of them comes to use the
      raw pointer to an object that is being unregistered any more. */
  lemma FinderStepWhileWaiting(s: State, step: Step)
    requires Inv(s) && Enabled(s, step) && step.ByFinder() && s.registrar.Sets()
    ensures step.f < |s.finders|
    ensures var before, after := s.finders[step.f], Do(s, step).finders[step.f];
      && Weight(after, s.version) <= Weight(before, s.version)
      && (0 < Weight(before, s.version) ==> Weight(after, s.version) < Weight(before, s.version))
      && !(after.Using? && s.BeingRemoved(after.entry))
  {
    FinderFrame(s, step);
    if s.registrar.Replacing? {
      assert EntryOk(s, s.registrar.entry);
    }
  }

  /** While the registrar waits, calls that begin later do not prolong the wait, and every step of a finder
      it waits for shortens it. */
  lemma WaitGetsShorter(s: State, step: Step)
    requires Inv(s) && Enabled(s, step) && s.registrar.Sets() && !step.Advance?
    ensures var s' := Do(s, step);
      && s'.registrar == s.registrar && s'.version == s.version
      && Blockers(s'.finders, s.version) <= Blockers(s.finders, s.version)
      && (ByBlocker(s, step) ==> Blockers(s'.finders, s.version) < Blockers(s.finders, s.version))
  {
    if step.ByFinder() {
      FinderFrame(s, step);
      FinderStepWhileWaiting(s, step);
      SumUpdate(s.finders, step.f, Do(s, step).finders[step.f], WeightOf(s.version));
    } else if step.Spawn? {
      SumAppend(s.finders, Idle, WeightOf(s.version));
    } else if IsLife(step) {
      LifeFrame(s, step);
    }
  }

  /** When those finders are gone, Set returns. */
  lemma WaitEnds(s: State)
    requires Inv(s) && s.registrar.Sets() && Blockers(s.finders, s.version) == 0
    ensures Enabled(s, Advance)
  {
    forall f | 0 <= f < |s.finders| && s.finders[f].HasMap()
      ensures s.finders[f].version == s.version
    {
      assert MapOk(s, s.finders[f]);
      SumUpdate(s.finders, f, Idle, WeightOf(s.version));
    }
  }

  /** Over every run, the wait of RegisterObject or UnregisterObject lasts for at most six steps of each of the
      finders that were there when it began. */
  lemma {:induction false} WaitIsBounded(run: Run, i: nat, j: nat)
    requires run.Valid() && i <= j < |run.states| && run.states[i].registrar.Sets()
    requires forall m: nat :: i <= m < j ==> !run.steps[m].Advance?
    ensures run.states[j].registrar == run.states[i].registrar && run.states[j].version == run.states[i].version
    ensures BlockerSteps(run, i, j) + Blockers(run.states[j].finders, run.states[j].version)
         <= Blockers(run.states[i].finders, run.states[i].version)
    ensures BlockerSteps(run, i, j) <= 6 * |run.states[i].finders|
    decreases j
  {
    BlockersAtMostSixEach(run.states[i].finders, run.states[i].version);
    if i == j {
    } else {
      WaitIsBounded(run, i, j - 1);
      RunInv(run, j - 1);
      assert run.StepAt(j - 1);
      WaitGetsShorter(run.states[j - 1], run.steps[j - 1]);
    }
  }

  /** The step is one of a finder that the registrar waits for. */
  ghost predicate ByBlocker(s: State, step: Step) {
    step.ByFinder() && step.f < |s.finders| && 0 < Weight(s.finders[step.f], s.version)
  }

  ghost function BlockerSteps(run: Run, i: nat, j: nat): nat
    requires |run.states| == |run.steps| + 1 && i <= j < |run.states|
    decreases j
  {
    if i == j then 0
    else BlockerSteps(run, i, j - 1) + (if ByBlocker(run.states[j - 1], run.steps[j - 1]) then 1 else 0)
  }

  lemma BlockersAtMostSixEach(finders: seq<Finder>, version: nat)
    ensures Blockers(finders, version) <= 6 * |finders|
  {
    SumAtMost(finders, WeightOf(version), 6);
  }
}
