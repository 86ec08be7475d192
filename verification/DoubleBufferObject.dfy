/** The DoubleBuffer object itself, as one thread runs it, tied to the steps of the protocol. */
module DoubleBufferObject {
  import opened Options
  import opened DoubleBuffer
  import opened DoubleBufferSteps

  /** How many steps Set has left. */
  function Remaining<V>(setter: Setter<V>): nat {
    match setter
    case Unlocked => 0
    case Entered(_) => 11
    case Tagging(_, _) => 10
    case WaitingNew(_, _) => 9
    case WritingNew(_, _) => 8
    case LeavingNew(_, _) => 7
    case Publishing(_, _) => 6
    case Invalidating(_) => 5
    case WaitingOld(_) => 4
    case ClearingOld(_) => 3
    case LeavingOld(_) => 2
    case Returning => 1
  }

  /** Lets the setter run on, alone, until it has left Set or has to wait. */
  function Finish<V>(s: State<V>): State<V>
    decreases Remaining(s.setter)
  {
    if SetterCanAdvance(s) then Finish(SetterStep(s)) else s
  }

  /** No reader and no setter is inside, and the slot that is not current is unlocked. */
  ghost predicate Quiet<V>(s: State<V>) {
    && s.readers == [] && s.setter.Unlocked?
    && s.even.shared == 0 && s.odd.shared == 0 && !s.even.exclusive && !s.odd.exclusive
  }

  /** The outcome of a Set that nothing interrupts. */
  function AfterSet<V>(s: State<V>, input: V): State<V> {
    var next := s.current + 1;
    var published := s.WithSlot(next, Slot(Some(input), next, 0, false))
                      .(current := next, published := s.published + [input]);
    if s.trivial then published else published.WithSlot(s.current, Slot(None, -1, 0, false))
  }

  /** The state in which the setter has just published. */
  function Published<V>(s: State<V>, input: V): State<V> {
    s.WithSlot(s.current + 1, Slot(Some(input), s.current + 1, 0, false))
     .(current := s.current + 1, published := s.published + [input],
       setter := if s.trivial then Returning else Invalidating(s.current))
  }

  /** The steps of Set, taken one after the other, lead to that outcome. */
  lemma SetAlone<V>(s: State<V>, input: V)
    requires Quiet(s)
    ensures Finish(s.(setter := Entered(input))) == AfterSet(s, input)
  {
    FillAlone(s, input);
    PublishAlone(s, input);
    ClearAlone(s, input);
  }

  lemma FillAlone<V>(s: State<V>, input: V)
    requires Quiet(s)
    ensures Finish(s.(setter := Entered(input)))
         == Finish(s.WithSlot(s.current + 1, Slot(Some(input), s.current + 1, 0, true))
                    .(setter := LeavingNew(input, s.current)))
  {
    var prev, next := s.current, s.current + 1;
    var s1 := s.(setter := Tagging(input, prev));
    var s2 := s1.WithSlot(next, s.SlotAt(next).(tag := next)).(setter := WaitingNew(input, prev));
    var s3 := s2.WithSlot(next, s2.SlotAt(next).(exclusive := true)).(setter := WritingNew(input, prev));
    assert Finish(s.(setter := Entered(input))) == Finish(s1) == Finish(s2) == Finish(s3);
  }

  lemma PublishAlone<V>(s: State<V>, input: V)
    requires Quiet(s)
    ensures Finish(s.WithSlot(s.current + 1, Slot(Some(input), s.current + 1, 0, true))
                    .(setter := LeavingNew(input, s.current)))
         == Finish(Published(s, input))
  {
    var prev, next := s.current, s.current + 1;
    var s1 := s.WithSlot(next, Slot(Some(input), next, 0, true)).(setter := LeavingNew(input, prev));
    var s2 := s1.WithSlot(next, s1.SlotAt(next).(exclusive := false)).(setter := Publishing(input, prev));
    assert Finish(s1) == Finish(s2) == Finish(Published(s, input));
  }

  lemma ClearAlone<V>(s: State<V>, input: V)
    requires Quiet(s)
    ensures Finish(Published(s, input)) == AfterSet(s, input)
  {
    var prev, published := s.current, Published(s, input);
    if s.trivial {
      assert Finish(published) == Finish(published.(setter := Unlocked));
    } else {
      var s1 := published.WithSlot(prev, published.SlotAt(prev).(tag := -1)).(setter := WaitingOld(prev));
      var s2 := s1.WithSlot(prev, s1.SlotAt(prev).(exclusive := true)).(setter := ClearingOld(prev));
      var s3 := s2.WithSlot(prev, Slot(None, -1, 0, true)).(setter := LeavingOld(prev));
      assert Finish(published) == Finish(s1) == Finish(s2) == Finish(s3);
      LeaveAlone(s3);
    }
  }

  lemma LeaveAlone<V>(s: State<V>)
    requires s.setter.LeavingOld?
    ensures var prev := s.setter.prev;
      Finish(s) == s.WithSlot(prev, s.SlotAt(prev).(exclusive := false)).(setter := Unlocked)
  {
    var prev := s.setter.prev;
    var s1 := s.WithSlot(prev, s.SlotAt(prev).(exclusive := false)).(setter := Returning);
    assert Finish(s) == Finish(s1) == Finish(s1.(setter := Unlocked));
  }

  lemma AfterSetInv<V>(s: State<V>, input: V)
    requires Quiet(s) && (Inv(s) || s == Blank(s.trivial))
    ensures Quiet(AfterSet(s, input)) && Inv(AfterSet(s, input)) && Current(AfterSet(s, input)) == input
    ensures s == Blank(s.trivial) ==> AfterSet(s, input) == Constructed(input, s.trivial)
  {
  }

  class Buffer<V> {
    var even: Slot<V>
    var odd: Slot<V>
    var currentIndex: nat
    const trivial: bool
    ghost var published: seq<V>

    /** The protocol state the object is in when no call is running. */
    ghost function Snapshot(): State<V>
      reads this
    {
      State(even, odd, currentIndex, [], Unlocked, published, trivial)
    }

    ghost predicate Valid()
      reads this
    {
      Quiet(Snapshot()) && Inv(Snapshot())
    }

    constructor (value: V, trivial: bool)
      ensures Valid() && Snapshot() == Constructed(value, trivial)
    {
      this.trivial := trivial;
      even, odd := Slot(None, -1, 0, false), Slot(None, -1, 0, false);
      currentIndex, published := 0, [];
      new;
      Set(value);
    }

    method Put(index: nat, slot: Slot<V>)
      modifies this`even, this`odd
      ensures Snapshot() == old(Snapshot()).WithSlot(index, slot)
    {
      if Odd(index) {
        odd := slot;
      } else {
        even := slot;
      }
    }

    method At(index: nat) returns (slot: Slot<V>)
      ensures slot == Snapshot().SlotAt(index)
    {
      slot := if Odd(index) then odd else even;
    }

    /** Tags the slot, locks it for the setter alone, writes the value and unlocks it. */
    method Fill(index: nat, value: V)
      requires Snapshot().SlotAt(index).shared == 0 && !Snapshot().SlotAt(index).exclusive
      modifies this`even, this`odd
      ensures Snapshot() == old(Snapshot()).WithSlot(index, Slot(Some(value), index, 0, false))
    {
      var buffer := At(index);
      Put(index, buffer.(tag := index));
      Put(index, buffer.(tag := index, exclusive := true));
      Put(index, buffer.(tag := index, exclusive := true, value := Some(value)));
      Put(index, buffer.(tag := index, value := Some(value)));
    }

    /** The same for a slot that is to be empty and unusable. */
    method Clear(index: nat)
      requires Snapshot().SlotAt(index).shared == 0 && !Snapshot().SlotAt(index).exclusive
      modifies this`even, this`odd
      ensures Snapshot() == old(Snapshot()).WithSlot(index, Slot(None, -1, 0, false))
    {
      var buffer := At(index);
      Put(index, buffer.(tag := -1));
      Put(index, buffer.(tag := -1, exclusive := true));
      Put(index, buffer.(tag := -1, exclusive := true, value := None));
      Put(index, buffer.(tag := -1, value := None));
    }

    /** What Set does while it holds the write mutex. */
    method Replace(value: V)
      requires Quiet(Snapshot())
      modifies this
      ensures Snapshot() == AfterSet(old(Snapshot()), value)
    {
      var oldIndex := currentIndex;
      var newIndex := oldIndex + 1;
      Fill(newIndex, value);
      currentIndex := newIndex;
      published := published + [value];
      if !trivial {
        Clear(oldIndex);
      }
    }

    method Set(value: V)
      requires Valid() || Snapshot() == Blank(trivial)
      modifies this
      ensures Valid()
      ensures Snapshot() == AfterSet(old(Snapshot()), value) == Finish(old(Snapshot()).(setter := Entered(value)))
      ensures Current(Snapshot()) == value
    {
      ghost var before := Snapshot();
      AfterSetInv(before, value);
      SetAlone(before, value);
      Replace(value);
    }

    /** One pass of the retry loop of ReadLock, and the release. */
    method Attempt() returns (value: Option<V>)
      modifies this`even, this`odd
      ensures Snapshot() == old(Snapshot())
      ensures var buffer := Snapshot().SlotAt(currentIndex);
        value == if buffer.exclusive || buffer.tag != currentIndex then None else buffer.value
    {
      var buffer := At(currentIndex);
      if buffer.exclusive {
        return None;
      }
      Put(currentIndex, buffer.(shared := buffer.shared + 1));
      value := if buffer.tag == currentIndex then buffer.value else None;
      Put(currentIndex, buffer);
    }

    /** With no setter running, the first pass succeeds. */
    method Get() returns (value: V)
      requires Valid()
      modifies this`even, this`odd
      ensures Valid() && Snapshot() == old(Snapshot())
      ensures value == Current(Snapshot())
    {
      var read := Attempt();
      value := read.value;
    }
  }
}
