/** The protocol between FindObject and UnregisterObject: no finder touches an object once it is unregistered.

    The map of registrations is in a DoubleBuffer. Here it is a register with a version: reading it is one step,
    and a finder holds the read lock of the version it read until it returns; replacing it publishes a new version
    in one step and then waits until nobody holds an older one. DoubleBufferRuns and DoubleBufferFresh justify
    both. Any number of finders and the one holder of the registration mutex interleave freely, one atomic access or
    lock operation at a time. */
module FindObject {
  import opened Options
  import opened Tally

  /** The life of an object: its constructor runs (no shared_ptr exists yet), it is owned by some shared_ptrs,
      its destructor runs, its memory is gone. */
  datatype Phase = Building | Owned(refs: nat) | Dying | Freed

  /** One registration, and the object it was made for. The raw pointer is null once `pointer` is false;
      the shared mutex is the number of shared holders and whether it is held exclusively. */
  datatype Entry = Entry(id: nat, pointer: bool, shared: nat, exclusive: bool, phase: Phase, unregistered: bool)

  datatype Finder =
    | Idle
    | Called(id: nat)
    | Snapped(id: nat, version: nat, table: map<nat, nat>)      // has the read lock of the map of registrations
    | Found(id: nat, version: nat, entry: nat)                  // has a registration in hand
    | Locked(id: nat, version: nat, entry: nat)                 // holds its shared lock
    | Using(id: nat, version: nat, entry: nat)                  // has the raw pointer, is calling shared_from_this
    | Leaving(id: nat, version: nat, entry: nat, found: bool)   // has its answer, still holds the lock
    | Returned(id: nat, version: nat, result: Option<nat>)      // still holds the read lock of the map
  {
    predicate HasMap() { Snapped? || HasEntry() || Returned? }

    predicate HasEntry() { Found? || Locked? || Using? || Leaving? }

    predicate HoldsLock() { Locked? || Using? || Leaving? }
  }

  /** The holder of the registration mutex; `entry` is the registration it is removing. */
  datatype Registrar =
    | Free
    | Adding                    // RegisterObject has published the map, is still inside Set
    | Removing(entry: nat)      // has the registration in hand
    | Nulled(entry: nat)        // has stored null
    | Replacing(entry: nat)     // has published the map, is still inside Set
    | Waiting(entry: nat)       // has replaced the map, is about to lock the registration
    | Exclusive(entry: nat)
    | Done(entry: nat)
  {
    predicate Unregisters() { !Free? && !Adding? }

    /** Inside Set, which waits for those who hold older maps. */
    predicate Sets() { Adding? || Replacing? }
  }

  datatype State = State(
    entries: seq<Entry>, table: map<nat, nat>, version: nat, finders: seq<Finder>, registrar: Registrar)
  {
    function WithEntry(k: nat, entry: Entry): State
      requires k < |entries|
    {
      this.(entries := entries[k := entry])
    }

    function WithFinder(f: nat, finder: Finder): State
      requires f < |finders|
    {
      this.(finders := finders[f := finder])
    }

    /** UnregisterObject is at work on registration `k`. */
    predicate BeingRemoved(k: nat) {
      registrar.Unregisters() && registrar.entry == k
    }

    /** Nobody holds an older version of the map. */
    predicate NoneOlder() {
      forall f :: 0 <= f < |finders| && finders[f].HasMap() ==> finders[f].version == version
    }
  }

  datatype Step =
    | Spawn
    | Call(f: nat, id: nat)
    | Snapshot(f: nat)
    | Lookup(f: nat)
    | TryLock(f: nat, ok: bool)
    | LoadPointer(f: nat)
    | Promote(f: nat)           // shared_from_this
    | Unlock(f: nat)
    | Finish(f: nat)
    | Register(id: nat)
    | Unregister(id: nat)
    | Advance                   // the next step of RegisterObject or UnregisterObject
    | Adopt(k: nat)             // make_shared has finished
    | Retain(k: nat)
    | Drop(k: nat)
    | Destroy(k: nat)           // the destructor has run, the memory is released
  {
    predicate ByFinder() {
      Call? || Snapshot? || Lookup? || TryLock? || LoadPointer? || Promote? || Unlock? || Finish?
    }
  }

  predicate Enabled(s: State, step: Step) {
    match step
    case Spawn => true
    case Call(f, id) => f < |s.finders| && s.finders[f].Idle?
    case Snapshot(f) => f < |s.finders| && s.finders[f].Called?
    case Lookup(f) => f < |s.finders| && s.finders[f].Snapped?
    case TryLock(f, ok) =>
      && f < |s.finders| && s.finders[f].Found? && s.finders[f].entry < |s.entries|
      && var k := s.finders[f].entry;
         if ok then !s.entries[k].exclusive else s.entries[k].exclusive || s.registrar == Waiting(k)
    case LoadPointer(f) => f < |s.finders| && s.finders[f].Locked? && s.finders[f].entry < |s.entries|
    case Promote(f) => f < |s.finders| && s.finders[f].Using? && s.finders[f].entry < |s.entries|
    case Unlock(f) =>
      && f < |s.finders| && s.finders[f].Leaving?
      && s.finders[f].entry < |s.entries| && 0 < s.entries[s.finders[f].entry].shared
    case Finish(f) => f < |s.finders| && s.finders[f].Returned?
    case Register(id) => s.registrar.Free? && id !in s.table
    case Unregister(id) => s.registrar.Free? && id in s.table && s.table[id] < |s.entries|
    case Advance =>
      && !s.registrar.Free? && (s.registrar.Unregisters() ==> s.registrar.entry < |s.entries|)
      && (s.registrar.Sets() ==> s.NoneOlder())
      && (s.registrar.Waiting? ==>
            s.entries[s.registrar.entry].shared == 0 && !s.entries[s.registrar.entry].exclusive)
    case Adopt(k) => k < |s.entries| && s.entries[k].phase.Building?
    case Retain(k) => k < |s.entries| && s.entries[k].phase.Owned?
    case Drop(k) => k < |s.entries| && s.entries[k].phase.Owned? && 0 < s.entries[k].phase.refs
    // The destructor calls UnregisterObject, so the memory goes only after that has returned.
    case Destroy(k) => k < |s.entries| && s.entries[k].phase.Dying? && s.entries[k].unregistered
  }

  function RegistrarStep(s: State): State
    requires Enabled(s, Advance)
  {
    match s.registrar
    case Adding => s.(registrar := Free)
    case Removing(k) => s.WithEntry(k, s.entries[k].(pointer := false)).(registrar := Nulled(k))
    case Nulled(k) => s.(table := s.table - {s.entries[k].id}, version := s.version + 1, registrar := Replacing(k))
    case Replacing(k) => s.(registrar := Waiting(k))
    case Waiting(k) => s.WithEntry(k, s.entries[k].(exclusive := true)).(registrar := Exclusive(k))
    case Exclusive(k) => s.WithEntry(k, s.entries[k].(exclusive := false)).(registrar := Done(k))
    case Done(k) => s.WithEntry(k, s.entries[k].(unregistered := true)).(registrar := Free)
  }

  function FinderStep(s: State, step: Step): State
    requires Enabled(s, step) && step.ByFinder()
  {
    var f, finder := step.f, s.finders[step.f];
    match step
    case Call(_, id) => s.WithFinder(f, Called(id))
    case Snapshot(_) => s.WithFinder(f, Snapped(finder.id, s.version, s.table))
    case Lookup(_) =>
      s.WithFinder(f, if finder.id in finder.table then Found(finder.id, finder.version, finder.table[finder.id])
                      else Returned(finder.id, finder.version, None))
    case TryLock(_, ok) =>
      var k, e := finder.entry, s.entries[finder.entry];
      if ok then s.WithEntry(k, e.(shared := e.shared + 1)).WithFinder(f, Locked(finder.id, finder.version, k))
      else s.WithFinder(f, Returned(finder.id, finder.version, None))
    case LoadPointer(_) =>
      s.WithFinder(f, if s.entries[finder.entry].pointer then Using(finder.id, finder.version, finder.entry)
                      else Leaving(finder.id, finder.version, finder.entry, false))
    case Promote(_) =>
      var k, e := finder.entry, s.entries[finder.entry];
      if e.phase.Owned? then
        s.WithEntry(k, e.(phase := Owned(e.phase.refs + 1)))
         .WithFinder(f, Leaving(finder.id, finder.version, k, true))
      else s.WithFinder(f, Leaving(finder.id, finder.version, k, false))
    case Unlock(_) =>
      var k, e := finder.entry, s.entries[finder.entry];
      s.WithEntry(k, e.(shared := e.shared - 1))
       .WithFinder(f, Returned(finder.id, finder.version, if finder.found then Some(k) else None))
    case Finish(_) => s.WithFinder(f, Idle)
  }

  function Do(s: State, step: Step): State
    requires Enabled(s, step)
  {
    if step.ByFinder() then FinderStep(s, step)
    else
      match step
      case Spawn => s.(finders := s.finders + [Idle])
      case Register(id) =>
        s.(entries := s.entries + [Entry(id, true, 0, false, Building, false)],
           table := s.table[id := |s.entries|], version := s.version + 1, registrar := Adding)
      case Unregister(id) => s.(registrar := Removing(s.table[id]))
      case Advance => RegistrarStep(s)
      case Adopt(k) => s.WithEntry(k, s.entries[k].(phase := Owned(1)))
      case Retain(k) => s.WithEntry(k, s.entries[k].(phase := Owned(s.entries[k].phase.refs + 1)))
      case Drop(k) =>
        s.WithEntry(k, s.entries[k].(phase :=
          if s.entries[k].phase.refs == 1 then Dying else Owned(s.entries[k].phase.refs - 1)))
      case Destroy(k) => s.WithEntry(k, s.entries[k].(phase := Freed))
  }

  const INITIAL := State([], map[], 1, [], Free)

  // ---------------------------------------------------------------- the invariant

  /** One for a finder that holds the shared lock of registration `k`. */
  function HoldsOf(k: nat): Finder -> nat {
    (finder: Finder) => if finder.HoldsLock() && finder.entry == k then 1 else 0
  }

  function Holders(finders: seq<Finder>, k: nat): nat {
    Sum(finders, HoldsOf(k))
  }

  /** How far the removal of registration `k` has got. */
  ghost predicate EntryOk(s: State, k: nat)
    requires k < |s.entries|
  {
    var e := s.entries[k];
    && e.shared == Holders(s.finders, k)
    && e.exclusive == (s.registrar == Exclusive(k))
    && (e.exclusive ==> e.shared == 0)
    && e.pointer == (!e.unregistered && (s.BeingRemoved(k) ==> s.registrar.Removing?))
    && (e.unregistered ==> !s.BeingRemoved(k))
    && (e.phase.Freed? ==> e.unregistered)
  }

  ghost predicate EntriesOk(s: State) {
    && (forall k: nat :: k < |s.entries| ==> EntryOk(s, k))
    && (s.registrar.Unregisters() ==> s.registrar.entry < |s.entries|)
  }

  /** The map holds exactly the registrations that are not, or not yet, removed from it. */
  ghost predicate TableOk(s: State) {
    && (forall id :: id in s.table ==> s.table[id] < |s.entries| && s.entries[s.table[id]].id == id)
    && (forall k: nat :: k < |s.entries| ==>
          ((s.entries[k].id in s.table && s.table[s.entries[k].id] == k) <==>
           (!s.entries[k].unregistered && (s.BeingRemoved(k) ==> s.registrar.Removing? || s.registrar.Nulled?))))
  }

  ghost predicate FinderOk(s: State, finder: Finder) {
    && (finder.Snapped? ==> forall id :: id in finder.table ==>
          finder.table[id] < |s.entries| && s.entries[finder.table[id]].id == id)
    && (finder.HasEntry() ==> finder.entry < |s.entries| && s.entries[finder.entry].id == finder.id)
    // A raw pointer in use belongs to a registration whose exclusive lock has not been taken.
    && (finder.Using? ==> !s.entries[finder.entry].unregistered
                          && (s.BeingRemoved(finder.entry) ==> !s.registrar.Exclusive? && !s.registrar.Done?))
  }

  ghost predicate FindersOk(s: State) {
    forall f :: 0 <= f < |s.finders| ==> FinderOk(s, s.finders[f])
  }

  /** A finder holds the current map, or, while the registrar is inside Set, an older one; and what it has from
      the current map is in there. */
  ghost predicate MapOk(s: State, finder: Finder) {
    finder.HasMap() ==>
      && finder.version <= s.version
      && (finder.version < s.version ==> s.registrar.Sets())
      && (finder.version == s.version ==>
            && (finder.Snapped? ==> finder.table == s.table)
            && (finder.HasEntry() ==> finder.id in s.table && s.table[finder.id] == finder.entry))
  }

  ghost predicate MapsOk(s: State) {
    forall f :: 0 <= f < |s.finders| ==> MapOk(s, s.finders[f])
  }

  ghost predicate LocksOk(s: State) {
    EntriesOk(s) && TableOk(s) && FindersOk(s)
  }

  ghost predicate Inv(s: State) {
    LocksOk(s) && MapsOk(s)
  }

  /** A registration nobody has come across has no holders. */
  lemma NoHolders(finders: seq<Finder>, k: nat)
    requires forall f :: 0 <= f < |finders| ==> finders[f].HasEntry() ==> finders[f].entry != k
    ensures Holders(finders, k) == 0
  {
    SumAtMost(finders, HoldsOf(k), 0);
  }

  /** And one of which there is a holder has some. */
  lemma HolderCounted(finders: seq<Finder>, f: nat, k: nat)
    requires f < |finders| && finders[f].HoldsLock() && finders[f].entry == k
    ensures 1 <= Holders(finders, k)
  {
    SumUpdate(finders, f, Idle, HoldsOf(k));
  }

  /** What a finder can change: the shared count and the references of one registration, and itself. */
  lemma FinderFrame(s: State, step: Step)
    requires Enabled(s, step) && step.ByFinder()
    ensures var s' := FinderStep(s, step);
      && s'.table == s.table && s'.version == s.version && s'.registrar == s.registrar
      && |s'.entries| == |s.entries|
      && step.f < |s.finders| && s'.finders == s.finders[step.f := s'.finders[step.f]]
    ensures var s' := FinderStep(s, step);
      forall k: nat :: k < |s.entries| ==>
        && s'.entries[k] == s.entries[k].(shared := s'.entries[k].shared, phase := s'.entries[k].phase)
        && (s'.entries[k].phase.Freed? <==> s.entries[k].phase.Freed?)
  {
  }

  lemma FinderShared(s: State, step: Step, k: nat)
    requires Enabled(s, step) && step.ByFinder() && k < |s.entries|
    requires EntryOk(s, k)
    ensures FinderStep(s, step).entries[k].shared == Holders(FinderStep(s, step).finders, k)
    ensures s.entries[k].exclusive ==> FinderStep(s, step).entries[k].shared == 0
  {
    var s' := FinderStep(s, step);
    FinderFrame(s, step);
    SumUpdate(s.finders, step.f, s'.finders[step.f], HoldsOf(k));
    if s.finders[step.f].HoldsLock() && s.finders[step.f].entry == k {
      HolderCounted(s.finders, step.f, k);
    }
  }

  lemma FinderKeepsSelf(s: State, step: Step)
    requires LocksOk(s) && Enabled(s, step) && step.ByFinder()
    ensures FinderOk(FinderStep(s, step), FinderStep(s, step).finders[step.f])
  {
    assert FinderOk(s, s.finders[step.f]);
    if step.Snapshot? || step.Lookup? || step.Call? || step.Finish? {
    } else {
      assert EntryOk(s, s.finders[step.f].entry);
    }
  }

  lemma FinderKeepsLocks(s: State, step: Step)
    requires LocksOk(s) && Enabled(s, step) && step.ByFinder()
    ensures LocksOk(FinderStep(s, step))
  {
    var s' := FinderStep(s, step);
    FinderFrame(s, step);
    FinderKeepsSelf(s, step);
    forall k: nat | k < |s.entries|
      ensures EntryOk(s', k)
    {
      FinderShared(s, step, k);
      assert EntryOk(s, k);
    }
    forall f | 0 <= f < |s'.finders|
      ensures FinderOk(s', s'.finders[f])
    {
      if f != step.f {
        assert FinderOk(s, s.finders[f]);
      }
    }
  }

  lemma RegistrarKeepsEntries(s: State)
    requires EntriesOk(s) && Enabled(s, Advance)
    ensures EntriesOk(RegistrarStep(s))
  {
    forall k: nat | k < |s.entries|
      ensures EntryOk(RegistrarStep(s), k)
    {
      assert EntryOk(s, k);
    }
  }

  lemma RegistrarKeepsTable(s: State)
    requires LocksOk(s) && Enabled(s, Advance)
    ensures TableOk(RegistrarStep(s))
  {
    if s.registrar.Unregisters() {
      assert EntryOk(s, s.registrar.entry);
    }
    if s.registrar.Nulled? {
      var e := s.entries[s.registrar.entry];
      assert e.id in s.table && s.table[e.id] == s.registrar.entry;
    }
  }

  lemma RegistrarKeepsFinders(s: State)
    requires LocksOk(s) && Enabled(s, Advance)
    ensures FindersOk(RegistrarStep(s))
  {
    var s' := RegistrarStep(s);
    if s.registrar.Unregisters() {
      assert EntryOk(s, s.registrar.entry);
    }
    forall f | 0 <= f < |s.finders|
      ensures FinderOk(s', s.finders[f])
    {
      assert FinderOk(s, s.finders[f]);
      if s.finders[f].Using? {
        HolderCounted(s.finders, f, s.finders[f].entry);
      }
    }
  }

  lemma RegisterKeepsLocks(s: State, id: nat)
    requires LocksOk(s) && Enabled(s, Register(id))
    ensures LocksOk(Do(s, Register(id)))
  {
    var s' := Do(s, Register(id));
    forall f | 0 <= f < |s.finders|
      ensures FinderOk(s', s.finders[f])
      ensures s.finders[f].HasEntry() ==> s.finders[f].entry != |s.entries|
    {
      assert FinderOk(s, s.finders[f]);
    }
    NoHolders(s.finders, |s.entries|);
    forall k: nat | k < |s'.entries|
      ensures EntryOk(s', k)
    {
      if k < |s.entries| {
        assert EntryOk(s, k);
      }
    }
  }

  lemma UnregisterKeepsLocks(s: State, id: nat)
    requires LocksOk(s) && Enabled(s, Unregister(id))
    ensures LocksOk(Do(s, Unregister(id)))
  {
    var s' := Do(s, Unregister(id));
    forall k: nat | k < |s'.entries|
      ensures EntryOk(s', k)
    {
      assert EntryOk(s, k);
    }
    forall f | 0 <= f < |s.finders|
      ensures FinderOk(s', s.finders[f])
    {
      assert FinderOk(s, s.finders[f]);
    }
  }

  /** The registration a step in the life of an object is about. */
  predicate IsLife(step: Step) {
    step.Adopt? || step.Retain? || step.Drop? || step.Destroy?
  }

  lemma LifeFrame(s: State, step: Step)
    requires Enabled(s, step) && IsLife(step)
    ensures step.k < |s.entries|
    ensures var s' := Do(s, step);
      && s' == s.WithEntry(step.k, s.entries[step.k].(phase := s'.entries[step.k].phase))
      && (s'.entries[step.k].phase.Freed? ==> s.entries[step.k].unregistered)
  {
  }

  lemma LifeKeepsLocks(s: State, step: Step)
    requires LocksOk(s) && Enabled(s, step) && IsLife(step)
    ensures LocksOk(Do(s, step))
  {
    LifeFrame(s, step);
    PhaseKeepsLocks(s, step.k, Do(s, step).entries[step.k].phase);
  }

  lemma PhaseKeepsLocks(s: State, j: nat, phase: Phase)
    requires LocksOk(s) && j < |s.entries| && (phase.Freed? ==> s.entries[j].unregistered)
    ensures LocksOk(s.WithEntry(j, s.entries[j].(phase := phase)))
  {
    var s' := s.WithEntry(j, s.entries[j].(phase := phase));
    forall k: nat | k < |s'.entries|
      ensures EntryOk(s', k)
    {
      assert EntryOk(s, k);
    }
    forall f | 0 <= f < |s.finders|
      ensures FinderOk(s', s.finders[f])
    {
      assert FinderOk(s, s.finders[f]);
    }
  }

  lemma SpawnKeepsLocks(s: State)
    requires LocksOk(s)
    ensures LocksOk(Do(s, Spawn))
  {
    var s' := Do(s, Spawn);
    forall k: nat | k < |s'.entries|
      ensures EntryOk(s', k)
    {
      SumAppend(s.finders, Idle, HoldsOf(k));
      assert EntryOk(s, k);
    }
    forall f | 0 <= f < |s'.finders|
      ensures FinderOk(s', s'.finders[f])
    {
      if f < |s.finders| {
        assert FinderOk(s, s.finders[f]);
      }
    }
  }

  lemma StepKeepsLocks(s: State, step: Step)
    requires LocksOk(s) && Enabled(s, step)
    ensures LocksOk(Do(s, step))
  {
    if step.ByFinder() {
      FinderKeepsLocks(s, step);
    } else if step.Advance? {
      RegistrarKeepsEntries(s);
      RegistrarKeepsTable(s);
      RegistrarKeepsFinders(s);
    } else if step.Spawn? {
      SpawnKeepsLocks(s);
    } else if step.Register? {
      RegisterKeepsLocks(s, step.id);
    } else if step.Unregister? {
      UnregisterKeepsLocks(s, step.id);
    } else {
      LifeKeepsLocks(s, step);
    }
  }

  lemma FinderKeepsMaps(s: State, step: Step)
    requires MapsOk(s) && Enabled(s, step) && step.ByFinder()
    ensures MapsOk(FinderStep(s, step))
  {
    var s' := FinderStep(s, step);
    FinderFrame(s, step);
    forall f | 0 <= f < |s'.finders|
      ensures MapOk(s', s'.finders[f])
    {
      assert MapOk(s, s.finders[f]);
    }
  }

  lemma StepKeepsMaps(s: State, step: Step)
    requires MapsOk(s) && Enabled(s, step)
    ensures MapsOk(Do(s, step))
  {
    if step.ByFinder() {
      FinderKeepsMaps(s, step);
    } else {
      var s' := Do(s, step);
      forall f | 0 <= f < |s'.finders|
        ensures MapOk(s', s'.finders[f])
      {
        if f < |s.finders| {
          assert MapOk(s, s.finders[f]);
        }
      }
    }
  }

  /** Every step keeps the invariant. */
  lemma StepInv(s: State, step: Step)
    requires Inv(s) && Enabled(s, step)
    ensures Inv(Do(s, step))
  {
    StepKeepsLocks(s, step);
    StepKeepsMaps(s, step);
  }
}
