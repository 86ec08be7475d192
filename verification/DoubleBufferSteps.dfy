/** What a single step of the DoubleBuffer protocol can and cannot do, in any state that satisfies the invariant. */
module DoubleBufferSteps {
  import opened Options
  import opened DoubleBuffer
  import opened Tally

  /** The slot of an index is the one the source picks, buffers_[index % 2]. */
  lemma {:induction false} OddIsRemainder(index: nat)
    ensures Odd(index) <==> index % 2 == 1
  {
    if index == 0 {
    } else {
      OddIsRemainder(index - 1);
    }
  }

  /** The value readers get: the register that the protocol implements. */
  function Current<V>(s: State<V>): V
    requires SlotsOk(s)
  {
    s.SlotAt(s.current).value.value
  }

  /** The protocol refines an atomic register: its value changes only when a setter publishes, to what that
      setter was given. */
  lemma StepRefinesRegister<V>(s: State<V>, step: Step<V>)
    requires Inv(s) && Enabled(s, step)
    ensures SlotsOk(Do(s, step))
    ensures Current(Do(s, step)) ==
            if step.Advance? && s.setter.Publishing? then s.setter.input else Current(s)
    ensures Do(s, step).published ==
            if step.Advance? && s.setter.Publishing? then s.published + [s.setter.input] else s.published
  {
    StepInv(s, step);
    if !step.Advance? && !step.Enter? {
      ReaderKeepsSlots(s, step);
    }
  }

  /** While a reader holds the read lock, whatever else happens, its slot keeps the value that was published
      under the index the reader loaded, and nobody has the slot to themselves. */
  lemma HeldValueStays<V>(s: State<V>, step: Step<V>, r: nat)
    requires Inv(s) && Enabled(s, step) && r < |s.readers| && s.readers[r].Holding?
    requires step != Release(r)
    ensures var s', i := Do(s, step), s.readers[r].index;
      && s'.readers[r] == Holding(i)
      && s.SlotAt(i).value == s'.SlotAt(i).value == Some(s.published[i - 1])
      && !s.SlotAt(i).exclusive && !s'.SlotAt(i).exclusive
  {
    var i := s.readers[r].index;
    assert ReaderOk(s, s.readers[r]);
    HolderCounted(s, r);
    if step.Advance? {
      SetterKeepsReader(s, r);
      SetterKeepsShared(s);
    } else if !step.Enter? {
      ReaderKeepsSlots(s, step);
    }
  }

  /** Versions only grow, and what has been published is never revised. */
  lemma StepPublishes<V>(s: State<V>, step: Step<V>)
    requires Inv(s) && Enabled(s, step)
    ensures s.published <= Do(s, step).published
    ensures s.current <= Do(s, step).current
  {
    StepRefinesRegister(s, step);
    StepInv(s, step);
  }

  /** A reader's index comes from its own load; nobody else moves a reader. */
  lemma IndexComesFromLoad<V>(s: State<V>, step: Step<V>, r: nat)
    requires Enabled(s, step) && r < |s.readers|
    ensures r < |Do(s, step).readers|
    ensures !step.ByReader(r) ==> Do(s, step).readers[r] == s.readers[r]
    ensures var after := Do(s, step).readers[r];
      step != Load(r) && after.HasIndex() ==> s.readers[r].HasIndex() && after.index == s.readers[r].index
    ensures step == Load(r) ==> Do(s, step).readers[r] == Loaded(s.current)
  {
    if step.Advance? {
      SetterKeepsShared(s);
    }
  }

  /** The step is one where a read attempt fails: the lock is refused, or the tag has changed. */
  predicate AttemptFails<V>(s: State<V>, step: Step<V>)
    requires Enabled(s, step)
  {
    || (step.TryLock? && !step.ok)
    || (step.Check? && Do(s, step).readers[step.reader].Rejected?)
  }

  /** A read attempt fails only if the current index has moved on since the attempt loaded it. */
  lemma FailureMeansIndexMoved<V>(s: State<V>, step: Step<V>)
    requires Inv(s) && Enabled(s, step) && AttemptFails(s, step)
    ensures s.readers[step.reader].HasIndex()
    ensures s.readers[step.reader].index < s.current
  {
    assert ReaderOk(s, s.readers[step.reader]);
  }

  /** When no Set is running, exactly one slot holds a value of a non-trivial type: the current one. */
  lemma AtRestOneValue<V>(s: State<V>)
    requires Inv(s) && s.setter.Unlocked? && !s.trivial
    ensures s.SlotAt(s.current).value.Some?
    ensures s.SlotAt(s.current + 1).value.None?
    ensures s.even.value.Some? != s.odd.value.Some?
  {
  }

  // ---------------------------------------------------------------- the setter's wait

  /** The steps a reader may still spend on the slot of `index` before it lets go of it. */
  function Weight(reader: Reader, index: nat): nat {
    if !reader.HasIndex() || Odd(reader.index) != Odd(index) then 0
    else match reader
      case Loaded(_) => 3
      case Locked(_) => 2
      case _ => 1
  }

  function WeightAt(index: nat): Reader -> nat {
    (reader: Reader) => Weight(reader, index)
  }

  function Blockers(readers: seq<Reader>, index: nat): nat {
    Sum(readers, WeightAt(index))
  }

  /** A step of a reader while the setter waits for the slot of `index`. */
  lemma ReaderStepWhileAwaited<V>(s: State<V>, step: Step<V>, index: nat)
    requires Inv(s) && Enabled(s, step) && s.Awaited() == Some(index)
    requires !step.Advance? && !step.Enter? && !step.Spawn?
    ensures var before, after := s.readers[step.reader], Do(s, step).readers[step.reader];
      && Weight(after, index) <= Weight(before, index)
      && (0 < Weight(before, index) ==> Weight(after, index) < Weight(before, index))
      && !(after.Holding? && Odd(after.index) == Odd(index))
  {
    assert ReaderOk(s, s.readers[step.reader]);
  }

  lemma ReaderStepBlockers<V>(s: State<V>, step: Step<V>, index: nat)
    requires Inv(s) && Enabled(s, step) && s.Awaited() == Some(index)
    requires !step.Advance? && !step.Enter? && !step.Spawn?
    ensures Blockers(Do(s, step).readers, index) <= Blockers(s.readers, index)
    ensures 0 < Weight(s.readers[step.reader], index) ==>
              Blockers(Do(s, step).readers, index) < Blockers(s.readers, index)
  {
    ReaderStepWhileAwaited(s, step, index);
    SumUpdate(s.readers, step.reader, Do(s, step).readers[step.reader], WeightAt(index));
  }

  /** While the setter waits for a slot, nothing adds to the readers it waits for, and every step of such
      a reader brings the wait closer to its end. */
  lemma WaitGetsShorter<V>(s: State<V>, step: Step<V>)
    requires Inv(s) && Enabled(s, step) && s.Awaited().Some? && !step.Advance?
    ensures var s', index := Do(s, step), s.Awaited().value;
      && s'.Awaited() == s.Awaited()
      && Blockers(s'.readers, index) <= Blockers(s.readers, index)
      && (forall r :: 0 <= r < |s.readers| && step.ByReader(r) && 0 < Weight(s.readers[r], index)
            ==> Blockers(s'.readers, index) < Blockers(s.readers, index))
  {
    var index := s.Awaited().value;
    if step.Spawn? {
      SumAppend(s.readers, Idle, WeightAt(index));
    } else if !step.Enter? {
      ReaderKeepsSlots(s, step);
      ReaderStepBlockers(s, step, index);
    }
  }

  /** While the setter waits for a slot, no further reader comes to hold it. */
  lemma NoNewHolderWhileAwaited<V>(s: State<V>, step: Step<V>, r: nat)
    requires Inv(s) && Enabled(s, step) && s.Awaited().Some? && !step.Advance?
    requires r < |Do(s, step).readers| && Do(s, step).readers[r].Holding?
    requires Odd(Do(s, step).readers[r].index) == Odd(s.Awaited().value)
    ensures r < |s.readers| && s.readers[r] == Do(s, step).readers[r]
  {
    if !step.Spawn? && !step.Enter? {
      ReaderStepWhileAwaited(s, step, s.Awaited().value);
    }
  }

  /** Once the readers the setter waits for are gone, it can take the lock. */
  lemma WaitEnds<V>(s: State<V>)
    requires Inv(s) && s.Awaited().Some? && Blockers(s.readers, s.Awaited().value) == 0
    ensures SetterCanAdvance(s)
  {
    var slot := if Odd(s.Awaited().value) then 1 else 0;
    SumOrder(s.readers, HoldsAt(slot), WeightAt(s.Awaited().value));
  }

  // ---------------------------------------------------------------- a reader running alone

  /** An upper bound on the steps a reader needs to get the lock when nothing else moves. */
  function Rank<V>(s: State<V>, reader: Reader): nat {
    match reader
    case Idle => 4
    case Looping => 3
    case Loaded(i) => if i == s.current then 2 else 6
    case Locked(i) => if i == s.current then 1 else 5
    case Rejected(_) => 4
    case Holding(_) => 0
  }

  /** Wherever the setter is stopped, a reader can always take a step of its own, and each such step
      brings it closer to the lock. */
  lemma SoloStepProgress<V>(s: State<V>, r: nat)
    requires Inv(s) && r < |s.readers| && !s.readers[r].Holding?
    ensures exists step: Step<V> :: step.ByReader(r) && Enabled(s, step)
    ensures forall step: Step<V> :: step.ByReader(r) && Enabled(s, step) ==>
              Rank(Do(s, step), Do(s, step).readers[r]) < Rank(s, s.readers[r])
  {
    var reader := s.readers[r];
    assert ReaderOk(s, reader);
    var step := match reader
      case Idle => Begin(r)
      case Looping => Load(r)
      case Loaded(i) => TryLock(r, !s.SlotAt(i).exclusive)
      case Locked(_) => Check(r)
      case Rejected(_) => Unlock(r)
      case Holding(_) => Release(r);
    if reader.Rejected? {
      HolderCounted(s, r);
    }
    assert step.ByReader(r) && Enabled(s, step);
    forall other: Step<V> | other.ByReader(r) && Enabled(s, other)
      ensures Rank(Do(s, other), Do(s, other).readers[r]) < Rank(s, reader)
    {
      SoloStepRank(s, r, other);
    }
  }

  lemma SoloStepRank<V>(s: State<V>, r: nat, step: Step<V>)
    requires Inv(s) && r < |s.readers| && !s.readers[r].Holding? && step.ByReader(r) && Enabled(s, step)
    ensures Rank(Do(s, step), Do(s, step).readers[r]) < Rank(s, s.readers[r])
    ensures !Do(s, step).readers[r].Idle?
  {
    assert ReaderOk(s, s.readers[r]);
    if AttemptFails(s, step) {
      FailureMeansIndexMoved(s, step);
    }
  }
}
