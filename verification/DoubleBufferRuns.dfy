/** What holds of whole runs of the DoubleBuffer protocol: linearizability, bounded retries, bounded waiting. */
module DoubleBufferRuns {
  import opened Options
  import opened DoubleBuffer
  import opened DoubleBufferSteps
  import opened Tally

  /** A run is the states the buffer goes through and the steps between them. */
  datatype Run<V> = Run(states: seq<State<V>>, steps: seq<Step<V>>)
  {
    ghost predicate StepAt(k: nat) {
      && k < |steps| && k + 1 < |states|
      && Enabled(states[k], steps[k]) && states[k + 1] == Do(states[k], steps[k])
    }

    ghost predicate Connected() {
      |states| == |steps| + 1 && forall k: nat :: k < |steps| ==> StepAt(k)
    }

    /** A run from a freshly constructed buffer. */
    ghost predicate Valid() {
      && Connected()
      && |states[0].published| == 1
      && states[0] == Constructed(states[0].published[0], states[0].trivial)
    }

    /** Reader `r` is inside one call of the read lock constructor, or holds the lock it got there,
        in every state from `i` to `j`. */
    ghost predicate Reading(r: nat, i: nat, j: nat)
      requires |states| == |steps| + 1
    {
      && i <= j < |states|
      && (forall k :: i <= k <= j ==> r < |states[k].readers| && !states[k].readers[r].Idle?)
      && states[i].readers[r].Looping?
    }

    /** One call of Set with `input` spans the states from `i`, where the setter enters, to `j`, where it has left. */
    ghost predicate Setting(input: V, i: nat, j: nat)
      requires |states| == |steps| + 1
    {
      && i < j < |states|
      && steps[i] == Enter(input)
      && (forall k :: i < k < j ==> !states[k].setter.Unlocked?)
      && states[j].setter.Unlocked?
    }
  }

  lemma {:induction false} RunInv<V>(run: Run<V>, j: nat)
    requires run.Valid() && j < |run.states|
    ensures Inv(run.states[j])
  {
    if j == 0 {
      ConstructedInv(run.states[0].published[0], run.states[0].trivial);
    } else {
      RunInv(run, j - 1);
      assert run.StepAt(j - 1);
      StepInv(run.states[j - 1], run.steps[j - 1]);
    }
  }

  lemma PublishedNext<V>(run: Run<V>, k: nat)
    requires run.Valid() && k < |run.steps|
    ensures run.states[k].published <= run.states[k + 1].published
    ensures run.states[k].current <= run.states[k + 1].current
  {
    RunInv(run, k);
    assert run.StepAt(k);
    StepPublishes(run.states[k], run.steps[k]);
  }

  /** What has been published stays published: versions only grow. */
  lemma {:induction false} PublishedGrows<V>(run: Run<V>, i: nat, j: nat)
    requires run.Valid() && i <= j < |run.states|
    ensures run.states[i].published <= run.states[j].published
    ensures run.states[i].current <= run.states[j].current
    decreases j
  {
    if i == j {
    } else {
      PublishedGrows(run, i, j - 1);
      PublishedNext(run, j - 1);
    }
  }

  /** The register had version `index` and value `value` at some instant from `i` to `j`. */
  ghost predicate CurrentDuring<V>(run: Run<V>, i: nat, j: nat, index: nat, value: V)
    requires i <= j < |run.states|
  {
    exists k :: i <= k <= j && SlotsOk(run.states[k])
                && run.states[k].current == index && Current(run.states[k]) == value
  }

  lemma {:induction false} LoadedDuringCall<V>(run: Run<V>, r: nat, i: nat, j: nat) returns (k: nat)
    requires run.Valid() && run.Reading(r, i, j) && run.states[j].readers[r].HasIndex()
    ensures i <= k <= j && run.states[k].current == run.states[j].readers[r].index
    decreases j
  {
    if i == j {
      assert false;
    }
    assert run.StepAt(j - 1);
    var s, step := run.states[j - 1], run.steps[j - 1];
    IndexComesFromLoad(s, step, r);
    if step == Load(r) {
      k := j - 1;
    } else {
      assert run.Reading(r, i, j - 1);
      k := LoadedDuringCall(run, r, i, j - 1);
    }
  }

  /** Linearizability of reads: what a reader holds was the value of the register at an instant of its call. */
  lemma ReadIsLinearizable<V>(run: Run<V>, r: nat, i: nat, j: nat)
    requires run.Valid() && run.Reading(r, i, j) && run.states[j].readers[r].Holding?
    ensures var index := run.states[j].readers[r].index;
      && run.states[j].SlotAt(index).value.Some?
      && CurrentDuring(run, i, j, index, run.states[j].SlotAt(index).value.value)
  {
    var k := LoadedDuringCall(run, r, i, j);
    RunInv(run, k);
    RunInv(run, j);
    PublishedGrows(run, k, j);
    var index := run.states[j].readers[r].index;
    assert ReaderOk(run.states[j], run.states[j].readers[r]);
    assert Current(run.states[k]) == run.states[k].published[index - 1] == run.states[j].published[index - 1];
  }

  lemma HeldNext<V>(run: Run<V>, r: nat, k: nat, index: nat)
    requires run.Valid() && k < |run.steps| && run.steps[k] != Release(r)
    requires r < |run.states[k].readers| && run.states[k].readers[r] == Holding(index)
    ensures r < |run.states[k + 1].readers| && run.states[k + 1].readers[r] == Holding(index)
    ensures run.states[k + 1].SlotAt(index).value == run.states[k].SlotAt(index).value
  {
    RunInv(run, k);
    assert run.StepAt(k);
    HeldValueStays(run.states[k], run.steps[k], r);
    IndexComesFromLoad(run.states[k], run.steps[k], r);
  }

  /** From the instant it gets the lock until it releases it, a reader sees the one value that was published
      under its index, whatever setters do meanwhile. */
  lemma {:induction false} HeldUntilRelease<V>(run: Run<V>, r: nat, i: nat, j: nat)
    requires run.Valid() && i <= j < |run.states|
    requires r < |run.states[i].readers| && run.states[i].readers[r].Holding?
    requires forall k :: i <= k < j ==> run.steps[k] != Release(r)
    ensures var index := run.states[i].readers[r].index;
      && r < |run.states[j].readers| && run.states[j].readers[r] == Holding(index)
      && 1 <= index <= |run.states[i].published|
      && run.states[j].SlotAt(index).value == Some(run.states[i].published[index - 1])
    decreases j
  {
    if i == j {
      RunInv(run, i);
      assert ReaderOk(run.states[i], run.states[i].readers[r]);
    } else {
      HeldUntilRelease(run, r, i, j - 1);
      HeldNext(run, r, j - 1, run.states[i].readers[r].index);
    }
  }

  /** A version that was current by state `p` is not overtaken by a read begun later. */
  lemma ReadSeesEarlierVersions<V>(run: Run<V>, p: nat, r: nat, i: nat, j: nat)
    requires run.Valid() && p <= i && run.Reading(r, i, j) && run.states[j].readers[r].Holding?
    ensures run.states[p].current <= run.states[j].readers[r].index <= run.states[j].current
  {
    var k := LoadedDuringCall(run, r, i, j);
    PublishedGrows(run, p, k);
    PublishedGrows(run, k, j);
  }

  /** Reads that do not overlap never go back in version. */
  lemma ReadsNeverGoBack<V>(run: Run<V>, r1: nat, i1: nat, j1: nat, r2: nat, i2: nat, j2: nat)
    requires run.Valid() && j1 <= i2
    requires run.Reading(r1, i1, j1) && run.states[j1].readers[r1].Holding?
    requires run.Reading(r2, i2, j2) && run.states[j2].readers[r2].Holding?
    ensures run.states[j1].readers[r1].index <= run.states[j2].readers[r2].index
  {
    ReadSeesEarlierVersions(run, i1, r1, i1, j1);
    ReadSeesEarlierVersions(run, j1, r2, i2, j2);
  }

  // ---------------------------------------------------------------- calls of Set

  /** How far a call of Set with `input`, begun when `before` had been published, has got. */
  ghost predicate InsideSet<V>(s: State<V>, input: V, before: seq<V>) {
    match s.setter
    case Unlocked => false
    case Entered(v) => v == input && s.published == before
    case Tagging(v, _) => v == input && s.published == before
    case WaitingNew(v, _) => v == input && s.published == before
    case WritingNew(v, _) => v == input && s.published == before
    case LeavingNew(v, _) => v == input && s.published == before
    case Publishing(v, _) => v == input && s.published == before
    case _ => s.published == before + [input]
  }

  lemma InsideSetStep<V>(s: State<V>, step: Step<V>, input: V, before: seq<V>)
    requires Enabled(s, step) && InsideSet(s, input, before)
    ensures Do(s, step).setter.Unlocked? || InsideSet(Do(s, step), input, before)
    ensures Do(s, step).setter.Unlocked? ==> Do(s, step).published == before + [input]
  {
    if !step.Advance? {
      ReaderKeepsSlots(s, step);
    }
  }

  lemma InsideSetNext<V>(run: Run<V>, input: V, before: seq<V>, k: nat)
    requires run.Connected() && k < |run.steps| && InsideSet(run.states[k], input, before)
    ensures run.states[k + 1].setter.Unlocked? || InsideSet(run.states[k + 1], input, before)
    ensures run.states[k + 1].setter.Unlocked? ==> run.states[k + 1].published == before + [input]
  {
    assert run.StepAt(k);
    InsideSetStep(run.states[k], run.steps[k], input, before);
  }

  lemma SetBegun<V>(run: Run<V>, input: V, i: nat)
    requires run.Connected() && i < |run.steps| && run.steps[i] == Enter(input)
    ensures InsideSet(run.states[i + 1], input, run.states[i].published)
  {
    assert run.StepAt(i);
  }

  lemma {:induction false} SetProgress<V>(run: Run<V>, input: V, i: nat, j: nat)
    requires run.Connected() && i < j < |run.states| && run.steps[i] == Enter(input)
    requires forall k :: i < k <= j ==> !run.states[k].setter.Unlocked?
    ensures InsideSet(run.states[j], input, run.states[i].published)
    decreases j
  {
    if i + 1 == j {
      SetBegun(run, input, i);
    } else {
      SetProgress(run, input, i, j - 1);
      InsideSetNext(run, input, run.states[i].published, j - 1);
    }
  }

  lemma SetPublished<V>(run: Run<V>, input: V, i: nat, j: nat)
    requires run.Connected() && run.Setting(input, i, j)
    ensures run.states[j].published == run.states[i].published + [input]
  {
    SetBegun(run, input, i);
    assert i + 1 < j;
    SetProgress(run, input, i, j - 1);
    InsideSetNext(run, input, run.states[i].published, j - 1);
  }

  lemma CurrentIsLatest<V>(s: State<V>)
    requires SlotsOk(s)
    ensures s.published != [] && Current(s) == s.published[|s.published| - 1]
  {
  }

  /** A call of Set publishes its value, under the next version, and nothing else is published meanwhile. */
  lemma SetPublishesOnce<V>(run: Run<V>, input: V, i: nat, j: nat)
    requires run.Valid() && run.Setting(input, i, j)
    ensures run.states[j].published == run.states[i].published + [input]
    ensures Inv(run.states[j]) && Current(run.states[j]) == input
  {
    SetPublished(run, input, i, j);
    RunInv(run, j);
    CurrentIsLatest(run.states[j]);
  }

  /** A read begun after a Set has returned gets the value of that Set, unless a later one published
      before the read was over, and never an older version. */
  lemma ReadAfterSet<V>(run: Run<V>, input: V, a: nat, b: nat, r: nat, i: nat, j: nat)
    requires run.Valid() && run.Setting(input, a, b) && b <= i
    requires run.Reading(r, i, j) && run.states[j].readers[r].Holding?
    ensures var s := run.states[j];
      && s.readers[r].index > run.states[a].current
      && s.SlotAt(s.readers[r].index).value.Some?
      && (s.SlotAt(s.readers[r].index).value == Some(input) || run.states[j].current > run.states[b].current)
  {
    SetPublishesOnce(run, input, a, b);
    RunInv(run, a);
    RunInv(run, j);
    ReadSeesEarlierVersions(run, b, r, i, j);
    PublishedGrows(run, b, j);
    assert ReaderOk(run.states[j], run.states[j].readers[r]);
  }

  // ---------------------------------------------------------------- retries

  /** How many attempts of reader `r` fail between the states `i` and `j`. */
  ghost function Failures<V>(run: Run<V>, r: nat, i: nat, j: nat): nat
    requires run.Connected() && i <= j < |run.states|
    decreases j
  {
    if i == j then 0
    else
      assert run.StepAt(j - 1);
      Failures(run, r, i, j - 1) +
      (if run.steps[j - 1].ByReader(r) && AttemptFails(run.states[j - 1], run.steps[j - 1]) then 1 else 0)
  }

  /** What `failures` failed attempts have cost by state `s`, in a read that began at version `start`. */
  ghost predicate FailuresPaid<V>(s: State<V>, r: nat, start: nat, failures: nat)
    requires r < |s.readers|
  {
    && start + failures <= s.current
    && (s.readers[r].Loaded? || s.readers[r].Locked? ==> start + failures <= s.readers[r].index)
  }

  lemma FailuresPaidStep<V>(s: State<V>, step: Step<V>, r: nat, start: nat, failures: nat)
    requires Inv(s) && Enabled(s, step) && r < |s.readers| && FailuresPaid(s, r, start, failures)
    ensures r < |Do(s, step).readers|
    ensures FailuresPaid(Do(s, step), r, start,
                         failures + if step.ByReader(r) && AttemptFails(s, step) then 1 else 0)
  {
    StepPublishes(s, step);
    IndexComesFromLoad(s, step, r);
    if step.ByReader(r) && AttemptFails(s, step) {
      FailureMeansIndexMoved(s, step);
    }
  }

  /** The retries of a read are at most the number of Sets that published while it ran. */
  lemma RetriesBoundedBySets<V>(run: Run<V>, r: nat, i: nat, j: nat)
    requires run.Valid() && run.Reading(r, i, j)
    ensures Failures(run, r, i, j) <= |run.states[j].published| - |run.states[i].published|
  {
    FailuresPaidThroughout(run, r, i, j);
    RunInv(run, i);
    RunInv(run, j);
  }

  lemma {:induction false} FailuresPaidThroughout<V>(run: Run<V>, r: nat, i: nat, j: nat)
    requires run.Valid() && run.Reading(r, i, j)
    ensures FailuresPaid(run.states[j], r, run.states[i].current, Failures(run, r, i, j))
    decreases j
  {
    if i == j {
    } else {
      assert run.Reading(r, i, j - 1);
      FailuresPaidThroughout(run, r, i, j - 1);
      RunInv(run, j - 1);
      assert run.StepAt(j - 1);
      FailuresPaidStep(run.states[j - 1], run.steps[j - 1], r, run.states[i].current, Failures(run, r, i, j - 1));
    }
  }

  /** With every setter and every other reader stopped, wherever they are, a reader gets its lock
      within six of its own steps after it has begun. */
  lemma {:induction false} SoloReaderFinishes<V>(run: Run<V>, r: nat)
    requires run.Connected() && Inv(run.states[0]) && r < |run.states[0].readers| && !run.states[0].readers[r].Idle?
    requires forall k :: 0 <= k < |run.steps| ==>
               run.steps[k].ByReader(r) && r < |run.states[k].readers| && !run.states[k].readers[r].Holding?
    ensures |run.steps| <= 6
  {
    var s := run.states[|run.steps|];
    SoloRankFalls(run, r, |run.steps|);
    assert Rank(run.states[0], run.states[0].readers[r]) <= 6;
  }

  lemma {:induction false} SoloRankFalls<V>(run: Run<V>, r: nat, j: nat)
    requires run.Connected() && Inv(run.states[0]) && r < |run.states[0].readers| && !run.states[0].readers[r].Idle?
    requires forall k :: 0 <= k < |run.steps| ==>
               run.steps[k].ByReader(r) && r < |run.states[k].readers| && !run.states[k].readers[r].Holding?
    requires j < |run.states|
    ensures Inv(run.states[j]) && r < |run.states[j].readers|
    ensures Rank(run.states[j], run.states[j].readers[r]) + j <= Rank(run.states[0], run.states[0].readers[r])
  {
    if j == 0 {
    } else {
      SoloRankFalls(run, r, j - 1);
      assert run.StepAt(j - 1);
      StepInv(run.states[j - 1], run.steps[j - 1]);
      SoloStepRank(run.states[j - 1], r, run.steps[j - 1]);
    }
  }

  // ---------------------------------------------------------------- the setter's wait

  /** The step is one of a reader that is in the way of the setter. */
  ghost predicate ByBlocker<V>(s: State<V>, step: Step<V>, index: nat) {
    exists r: nat | r < |s.readers| && step.ByReader(r) :: 0 < Weight(s.readers[r], index)
  }

  /** How many of the steps between the states `i` and `j` are taken by readers that are in the way of the setter. */
  ghost function BlockerSteps<V>(run: Run<V>, index: nat, i: nat, j: nat): nat
    requires run.Connected() && i <= j < |run.states|
    decreases j
  {
    if i == j then 0
    else BlockerSteps(run, index, i, j - 1) +
         (if ByBlocker(run.states[j - 1], run.steps[j - 1], index) then 1 else 0)
  }

  lemma WaitStep<V>(s: State<V>, step: Step<V>, index: nat)
    requires Inv(s) && Enabled(s, step) && s.Awaited() == Some(index) && !step.Advance?
    ensures Do(s, step).Awaited() == Some(index)
    ensures (if ByBlocker(s, step, index) then 1 else 0) + Blockers(Do(s, step).readers, index)
            <= Blockers(s.readers, index)
  {
    WaitGetsShorter(s, step);
  }

  lemma BlockersAtMostThreeEach(readers: seq<Reader>, index: nat)
    ensures Blockers(readers, index) <= 3 * |readers|
  {
    SumAtMost(readers, WeightAt(index), 3);
  }

  lemma WaitNext<V>(run: Run<V>, index: nat, k: nat)
    requires run.Valid() && k < |run.steps| && run.states[k].Awaited() == Some(index) && !run.steps[k].Advance?
    ensures run.states[k + 1].Awaited() == Some(index)
    ensures (if ByBlocker(run.states[k], run.steps[k], index) then 1 else 0)
            + Blockers(run.states[k + 1].readers, index) <= Blockers(run.states[k].readers, index)
  {
    RunInv(run, k);
    assert run.StepAt(k);
    WaitStep(run.states[k], run.steps[k], index);
  }

  lemma {:induction false} WaitPaysBlockers<V>(run: Run<V>, index: nat, i: nat, j: nat)
    requires run.Valid() && i <= j < |run.states| && run.states[i].Awaited() == Some(index)
    requires forall k :: i <= k < j ==> !run.steps[k].Advance?
    ensures run.states[j].Awaited() == Some(index)
    ensures BlockerSteps(run, index, i, j) + Blockers(run.states[j].readers, index)
            <= Blockers(run.states[i].readers, index)
    decreases j
  {
    if i == j {
    } else {
      WaitPaysBlockers(run, index, i, j - 1);
      WaitNext(run, index, j - 1);
    }
  }

  /** However the others interleave, a waiting setter is held up by at most three steps per reader that was in
      its way when the wait began: readers that come later do not prolong it. */
  lemma WaitIsBounded<V>(run: Run<V>, index: nat, i: nat, j: nat)
    requires run.Valid() && i <= j < |run.states| && run.states[i].Awaited() == Some(index)
    requires forall k :: i <= k < j ==> !run.steps[k].Advance?
    ensures run.states[j].Awaited() == Some(index)
    ensures BlockerSteps(run, index, i, j) <= Blockers(run.states[i].readers, index) <= 3 * |run.states[i].readers|
  {
    WaitPaysBlockers(run, index, i, j);
    BlockersAtMostThreeEach(run.states[i].readers, index);
  }
}
