/** The protocol of DoubleBuffer: lock-free readers and blocking setters over two slots.

    One step is one atomic access, one lock operation or one access to a slot's value.
    Any number of readers and at most one setter (the holder of writeMutex_) interleave freely. */
module DoubleBuffer {
  import opened Options
  import opened Tally

  /** One of the two buffers: the value, the version tag, and the shared mutex, which is the number
      of shared holders and whether it is held exclusively. A tag of -1 marks an unusable slot. */
  datatype Slot<V> = Slot(value: Option<V>, tag: int, shared: nat, exclusive: bool)

  /** Which of the two buffers serves an index: buffers_[index % 2]. */
  predicate Odd(index: nat)
  {
    if index == 0 then false else !Odd(index - 1)
  }

  /** Where a reader stands in the constructor or destructor of ReadLock. */
  datatype Reader =
    | Idle                  // not inside a read
    | Looping               // at the top of the retry loop
    | Loaded(index: nat)    // has loaded the current index
    | Locked(index: nat)    // has locked the slot, has not re-checked its tag yet
    | Rejected(index: nat)  // saw another tag, is about to unlock and retry
    | Holding(index: nat)   // owns the read lock
  {
    predicate HasIndex() { Loaded? || Locked? || Rejected? || Holding? }

    predicate HoldsLock() { Locked? || Rejected? || Holding? }
  }

  /** Where the setter stands in Set. The phase named WaitingX is the call to lock. */
  datatype Setter<V> =
    | Unlocked                           // writeMutex_ is free
    | Entered(input: V)
    | Tagging(input: V, prev: nat)        // has loaded the current index
    | WaitingNew(input: V, prev: nat)
    | WritingNew(input: V, prev: nat)
    | LeavingNew(input: V, prev: nat)
    | Publishing(input: V, prev: nat)
    | Invalidating(prev: nat)
    | WaitingOld(prev: nat)
    | ClearingOld(prev: nat)
    | LeavingOld(prev: nat)
    | Returning

  /** `published` is a history variable: `published[i - 1]` is the value that was published under index `i`.
      `trivial` tells whether the value type is trivial, in which case the old slot is not cleared. */
  datatype State<V> = State(
    even: Slot<V>, odd: Slot<V>, current: nat,
    readers: seq<Reader>, setter: Setter<V>,
    published: seq<V>, trivial: bool)
  {
    /** GetBufferAt. */
    function SlotAt(index: nat): Slot<V> {
      if Odd(index) then odd else even
    }

    function WithSlot(index: nat, slot: Slot<V>): State<V> {
      if Odd(index) then this.(odd := slot) else this.(even := slot)
    }

    function WithReader(r: nat, reader: Reader): State<V>
      requires r < |readers|
    {
      this.(readers := readers[r := reader])
    }

    /** The slot the setter is waiting to lock, by the index it is used under. */
    function Awaited(): Option<nat> {
      match setter
      case WaitingNew(_, prev) => Some(prev + 1)
      case WaitingOld(prev) => Some(prev)
      case _ => None
    }
  }

  datatype Step<V> =
    | Spawn                          // one more reader thread appears
    | Begin(reader: nat)
    | Load(reader: nat)
    | TryLock(reader: nat, ok: bool)
    | Check(reader: nat)
    | Unlock(reader: nat)
    | Release(reader: nat)
    | Enter(input: V)
    | Advance                        // the setter's next step
  {
    predicate ByReader(r: nat) {
      (Begin? || Load? || TryLock? || Check? || Unlock? || Release?) && reader == r
    }
  }

  predicate SetterCanAdvance<V>(s: State<V>) {
    match s.setter
    case Unlocked => false
    case WaitingNew(_, prev) => s.SlotAt(prev + 1).shared == 0 && !s.SlotAt(prev + 1).exclusive
    case WaitingOld(prev) => s.SlotAt(prev).shared == 0 && !s.SlotAt(prev).exclusive
    case _ => true
  }

  /** try_lock_shared must fail while the slot is held exclusively and may also fail while a setter waits for it. */
  predicate TryLockCan<V>(s: State<V>, index: nat, ok: bool) {
    if ok then !s.SlotAt(index).exclusive
    else s.SlotAt(index).exclusive || (s.Awaited().Some? && Odd(s.Awaited().value) == Odd(index))
  }

  predicate Enabled<V>(s: State<V>, step: Step<V>) {
    match step
    case Spawn => true
    case Begin(r) => r < |s.readers| && s.readers[r].Idle?
    case Load(r) => r < |s.readers| && s.readers[r].Looping?
    case TryLock(r, ok) => r < |s.readers| && s.readers[r].Loaded? && TryLockCan(s, s.readers[r].index, ok)
    case Check(r) => r < |s.readers| && s.readers[r].Locked?
    case Unlock(r) => r < |s.readers| && s.readers[r].Rejected? && 0 < s.SlotAt(s.readers[r].index).shared
    case Release(r) => r < |s.readers| && s.readers[r].Holding? && 0 < s.SlotAt(s.readers[r].index).shared
    case Enter(_) => s.setter.Unlocked?
    case Advance => SetterCanAdvance(s)
  }

  function SetterStep<V>(s: State<V>): State<V>
    requires SetterCanAdvance(s)
  {
    match s.setter
    case Entered(input) =>
      s.(setter := Tagging(input, s.current))
    case Tagging(input, prev) =>
      s.WithSlot(prev + 1, s.SlotAt(prev + 1).(tag := prev + 1)).(setter := WaitingNew(input, prev))
    case WaitingNew(input, prev) =>
      s.WithSlot(prev + 1, s.SlotAt(prev + 1).(exclusive := true)).(setter := WritingNew(input, prev))
    case WritingNew(input, prev) =>
      s.WithSlot(prev + 1, s.SlotAt(prev + 1).(value := Some(input))).(setter := LeavingNew(input, prev))
    case LeavingNew(input, prev) =>
      s.WithSlot(prev + 1, s.SlotAt(prev + 1).(exclusive := false)).(setter := Publishing(input, prev))
    case Publishing(input, prev) =>
      s.(current := prev + 1, published := s.published + [input],
         setter := if s.trivial then Returning else Invalidating(prev))
    case Invalidating(prev) =>
      s.WithSlot(prev, s.SlotAt(prev).(tag := -1)).(setter := WaitingOld(prev))
    case WaitingOld(prev) =>
      s.WithSlot(prev, s.SlotAt(prev).(exclusive := true)).(setter := ClearingOld(prev))
    case ClearingOld(prev) =>
      s.WithSlot(prev, s.SlotAt(prev).(value := None)).(setter := LeavingOld(prev))
    case LeavingOld(prev) =>
      s.WithSlot(prev, s.SlotAt(prev).(exclusive := false)).(setter := Returning)
    case Returning =>
      s.(setter := Unlocked)
  }

  function Do<V>(s: State<V>, step: Step<V>): State<V>
    requires Enabled(s, step)
  {
    match step
    case Spawn => s.(readers := s.readers + [Idle])
    case Begin(r) => s.WithReader(r, Looping)
    case Load(r) => s.WithReader(r, Loaded(s.current))
    case TryLock(r, ok) =>
      var i := s.readers[r].index;
      if ok then s.WithSlot(i, s.SlotAt(i).(shared := s.SlotAt(i).shared + 1)).WithReader(r, Locked(i))
      else s.WithReader(r, Looping)
    case Check(r) =>
      var i := s.readers[r].index;
      s.WithReader(r, if s.SlotAt(i).tag == i then Holding(i) else Rejected(i))
    case Unlock(r) =>
      var i := s.readers[r].index;
      s.WithSlot(i, s.SlotAt(i).(shared := s.SlotAt(i).shared - 1)).WithReader(r, Looping)
    case Release(r) =>
      var i := s.readers[r].index;
      s.WithSlot(i, s.SlotAt(i).(shared := s.SlotAt(i).shared - 1)).WithReader(r, Idle)
    case Enter(input) => s.(setter := Entered(input))
    case Advance => SetterStep(s)
  }

  /** A buffer before its constructor has called Set for the first time. */
  function Blank<V>(trivial: bool): State<V> {
    var slot := Slot(None, -1, 0, false);
    State(slot, slot, 0, [], Unlocked, [], trivial)
  }

  /** A buffer right after its constructor, with no reader yet. */
  function Constructed<V>(value: V, trivial: bool): State<V> {
    State(Slot(None, -1, 0, false), Slot(Some(value), 1, 0, false), 1, [], Unlocked, [value], trivial)
  }

  // ---------------------------------------------------------------- the invariant

  /** One for a reader that holds the shared lock of the slot that serves `index`. */
  function HoldsAt(index: nat): Reader -> nat {
    (reader: Reader) => if reader.HoldsLock() && Odd(reader.index) == Odd(index) then 1 else 0
  }

  /** The number of such readers. */
  function Holders(readers: seq<Reader>, index: nat): nat {
    Sum(readers, HoldsAt(index))
  }

  ghost predicate ReaderOk<V>(s: State<V>, reader: Reader) {
    && (reader.HasIndex() ==> 1 <= reader.index <= s.current <= |s.published|)
    && (reader.Holding? ==> s.SlotAt(reader.index).value == Some(s.published[reader.index - 1]))
  }

  ghost predicate SetterOk<V>(s: State<V>) {
    var other := s.SlotAt(s.current + 1);
    match s.setter
    case Unlocked => !s.trivial ==> other.value.None?
    case Entered(_) => !s.trivial ==> other.value.None?
    case Tagging(_, prev) => prev == s.current && (!s.trivial ==> other.value.None?)
    case WaitingNew(_, prev) => prev == s.current && other.tag == prev + 1
    case WritingNew(_, prev) => prev == s.current && other.tag == prev + 1
    case LeavingNew(v, prev) => prev == s.current && other.tag == prev + 1 && other.value == Some(v)
    case Publishing(v, prev) => prev == s.current && other.tag == prev + 1 && other.value == Some(v)
    case Invalidating(prev) => prev + 1 == s.current && !s.trivial
    case WaitingOld(prev) => prev + 1 == s.current && other.tag == -1 && !s.trivial
    case ClearingOld(prev) => prev + 1 == s.current && other.tag == -1 && !s.trivial
    case LeavingOld(prev) => prev + 1 == s.current && other.tag == -1 && other.value.None? && !s.trivial
    case Returning => !s.trivial ==> other.value.None?
  }

  /** The tag of the slot that is not current. */
  ghost predicate OtherTagOk<V>(s: State<V>) {
    var other := s.SlotAt(s.current + 1);
    || other.tag == -1
    || (1 <= other.tag == s.current - 1 && 1 < |s.published| == s.current
        && other.value == Some(s.published[s.current - 2]) && !other.exclusive)
    || (other.tag == s.current + 1
        && (s.setter.WaitingNew? || s.setter.WritingNew? || s.setter.LeavingNew? || s.setter.Publishing?))
  }

  ghost predicate SlotsOk<V>(s: State<V>) {
    && 1 <= s.current == |s.published|
    && s.SlotAt(s.current).tag == s.current
    && s.SlotAt(s.current).value == Some(s.published[s.current - 1])
    && !s.SlotAt(s.current).exclusive
    && s.SlotAt(s.current + 1).exclusive ==
       (s.setter.WritingNew? || s.setter.LeavingNew? || s.setter.ClearingOld? || s.setter.LeavingOld?)
    && SetterOk(s)
    && OtherTagOk(s)
  }

  ghost predicate CountsOk<V>(s: State<V>) {
    && s.even.shared == Holders(s.readers, 0)
    && s.odd.shared == Holders(s.readers, 1)
    && (s.even.exclusive ==> s.even.shared == 0)
    && (s.odd.exclusive ==> s.odd.shared == 0)
  }

  ghost predicate ReadersOk<V>(s: State<V>) {
    forall r :: 0 <= r < |s.readers| ==> ReaderOk(s, s.readers[r])
  }

  ghost predicate Inv<V>(s: State<V>) {
    SlotsOk(s) && CountsOk(s) && ReadersOk(s)
  }

  /** A slot has at least the holders one comes across. */
  lemma HolderCounted<V>(s: State<V>, r: nat)
    requires CountsOk(s) && r < |s.readers| && s.readers[r].HoldsLock()
    ensures 1 <= s.SlotAt(s.readers[r].index).shared && !s.SlotAt(s.readers[r].index).exclusive
  {
    SumUpdate(s.readers, r, Idle, HoldsAt(if Odd(s.readers[r].index) then 1 else 0));
  }

  lemma ConstructedInv<V>(value: V, trivial: bool)
    ensures Inv(Constructed(value, trivial))
  {
  }

  lemma ReaderKeepsCount<V>(s: State<V>, step: Step<V>, index: nat)
    requires Enabled(s, step) && !step.Enter? && !step.Advance? && !step.Spawn?
    requires s.SlotAt(index).shared == Holders(s.readers, index)
    ensures Do(s, step).SlotAt(index).shared == Holders(Do(s, step).readers, index)
    ensures s.SlotAt(index).exclusive && s.SlotAt(index).shared == 0 ==> Do(s, step).SlotAt(index).shared == 0
  {
    SumUpdate(s.readers, step.reader, Do(s, step).readers[step.reader], HoldsAt(index));
  }

  lemma ReaderKeepsCounts<V>(s: State<V>, step: Step<V>)
    requires CountsOk(s) && Enabled(s, step) && !step.Enter? && !step.Advance? && !step.Spawn?
    ensures CountsOk(Do(s, step))
  {
    ReaderKeepsCount(s, step, 0);
    ReaderKeepsCount(s, step, 1);
    ReaderKeepsSlots(s, step);
  }

  /** A reader changes nothing in a slot but its number of shared holders. */
  lemma ReaderKeepsSlots<V>(s: State<V>, step: Step<V>)
    requires Enabled(s, step) && !step.Enter? && !step.Advance?
    ensures var s' := Do(s, step);
      && s'.even == s.even.(shared := s'.even.shared)
      && s'.odd == s.odd.(shared := s'.odd.shared)
      && s' == s.(even := s'.even, odd := s'.odd, readers := s'.readers)
  {
  }

  lemma ReaderKeepsReaders<V>(s: State<V>, step: Step<V>)
    requires Inv(s) && Enabled(s, step) && !step.Enter? && !step.Advance? && !step.Spawn?
    ensures ReadersOk(Do(s, step))
  {
    var s' := Do(s, step);
    ReaderKeepsSlots(s, step);
    assert ReaderOk(s, s.readers[step.reader]);
    forall q | 0 <= q < |s'.readers|
      ensures ReaderOk(s', s'.readers[q])
    {
      assert ReaderOk(s, s.readers[q]);
    }
  }

  lemma SetterKeepsSlots<V>(s: State<V>)
    requires SlotsOk(s) && SetterCanAdvance(s)
    ensures SlotsOk(SetterStep(s))
  {
  }

  lemma SetterKeepsShared<V>(s: State<V>)
    requires SetterCanAdvance(s)
    ensures var s' := SetterStep(s);
      && s'.readers == s.readers && s'.even.shared == s.even.shared && s'.odd.shared == s.odd.shared
      && (s'.even.exclusive ==> s.even.exclusive || s.even.shared == 0)
      && (s'.odd.exclusive ==> s.odd.exclusive || s.odd.shared == 0)
  {
  }

  /** The setter never touches the value a reader holds. */
  lemma SetterKeepsReader<V>(s: State<V>, r: nat)
    requires Inv(s) && SetterCanAdvance(s) && r < |s.readers|
    ensures ReaderOk(SetterStep(s), s.readers[r])
  {
    assert ReaderOk(s, s.readers[r]);
    if s.readers[r].Holding? {
      HolderCounted(s, r);
    }
  }

  lemma SetterStepInv<V>(s: State<V>)
    requires Inv(s) && SetterCanAdvance(s)
    ensures Inv(SetterStep(s))
  {
    SetterKeepsSlots(s);
    SetterKeepsShared(s);
    forall r | 0 <= r < |s.readers|
      ensures ReaderOk(SetterStep(s), s.readers[r])
    {
      SetterKeepsReader(s, r);
    }
  }

  lemma ReaderStepInv<V>(s: State<V>, step: Step<V>)
    requires Inv(s) && Enabled(s, step) && !step.Enter? && !step.Advance? && !step.Spawn?
    ensures Inv(Do(s, step))
  {
    var s' := Do(s, step);
    ReaderKeepsSlots(s, step);
    ReaderKeepsCounts(s, step);
    ReaderKeepsReaders(s, step);
    assert SlotsOk(s');
  }

  /** Every step keeps the invariant. */
  lemma StepInv<V>(s: State<V>, step: Step<V>)
    requires Inv(s) && Enabled(s, step)
    ensures Inv(Do(s, step))
  {
    if step.Spawn? {
      SumAppend(s.readers, Idle, HoldsAt(0));
      SumAppend(s.readers, Idle, HoldsAt(1));
    } else if step.Advance? {
      SetterStepInv(s);
    } else if !step.Enter? {
      ReaderStepInv(s, step);
    }
  }
}
