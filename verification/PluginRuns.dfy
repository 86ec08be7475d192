/** The plugin's indexes over whole runs. */
module PluginRuns {
  import opened Ownership
  import opened OwnershipForest
  import R = OwnershipRuns
  import opened Plugin

  datatype State = State(forest: Forest, indexes: Indexes)

  datatype Op =
    | AddDevice(device: Object)
    | RemoveDevice(device: Object)
    | Other(op: R.Op)   // anything else that owners do

  ghost function OwnedBy(f: Forest, o: Object): set<Object> {
    set x | x in f.owner && f.owner[x] == o
  }

  ghost predicate Step(plugin: Object, s: State, op: Op, t: State) {
    match op
    case AddDevice(d) =>
      && d in s.forest.owner && d != plugin
      && if s.forest.owner[d] != null then t == s
         else Added(s.forest, plugin, d, GLOBAL, t.forest) && t.indexes == IndexesAdded(s.indexes, d)
    case RemoveDevice(d) =>
      && d in s.forest.owner && d != plugin
      && if s.forest.owner[d] == null then t == s
         else Removed(s.forest, plugin, d.id, t.forest) && t.indexes == IndexesRemoved(s.indexes, d)
    case Other(op) =>
      && (op.AddOwned? || op.RemoveOwned? ==> op.o != plugin)
      && R.Step(s.forest, op, t.forest) && t.indexes == s.indexes
  }

  ghost predicate Inv(plugin: Object, s: State) {
    && R.Sound(s.forest) && plugin in s.forest.owner
    && IndexesAgree(s.indexes, OwnedBy(s.forest, plugin), s.forest.owner.Keys)
  }

  lemma AddDeviceKeeps(plugin: Object, s: State, d: Object, t: State)
    requires Inv(plugin, s) && Step(plugin, s, AddDevice(d), t) && s.forest.owner[d] == null
    ensures Inv(plugin, t)
  {
    R.AddedSound(s.forest, plugin, d, GLOBAL, t.forest);
    var owned := OwnedBy(s.forest, plugin);
    AddedAgree(s.indexes, owned, d, s.forest.owner.Keys);
    OwnedAfterAddition(plugin, s.forest, plugin, d, t.forest);
    assert t.forest.owner.Keys == s.forest.owner.Keys;
  }

  lemma OwnedAfterRemoval(p: Object, f: Forest, o: Object, x: Object, g: Forest)
    requires x in f.owner && g.owner == if f.owner[x] == o then f.owner[x := null] else f.owner
    ensures OwnedBy(g, p) == if o == p then OwnedBy(f, p) - {x} else OwnedBy(f, p)
  {
  }

  lemma OwnedAfterAddition(p: Object, f: Forest, o: Object, x: Object, g: Forest)
    requires x in f.owner && f.owner[x] == null && g.owner == f.owner[x := o]
    ensures OwnedBy(g, p) == if o == p then OwnedBy(f, p) + {x} else OwnedBy(f, p)
  {
  }

  lemma RemoveDeviceKeeps(plugin: Object, s: State, d: Object, t: State)
    requires Inv(plugin, s) && Step(plugin, s, RemoveDevice(d), t) && s.forest.owner[d] != null
    ensures Inv(plugin, t)
  {
    R.RemovedSound(s.forest, plugin, d, t.forest);
    RemovedIndexes(plugin, s, d, t);
  }

  lemma RemovedIndexes(plugin: Object, s: State, d: Object, t: State)
    requires IndexesAgree(s.indexes, OwnedBy(s.forest, plugin), s.forest.owner.Keys)
    requires d in s.forest.owner && DistinctIds(s.forest.owner.Keys) && t.indexes == IndexesRemoved(s.indexes, d)
    requires t.forest.owner == if s.forest.owner[d] == plugin then s.forest.owner[d := null] else s.forest.owner
    ensures t.forest.owner.Keys == s.forest.owner.Keys
    ensures IndexesAgree(t.indexes, OwnedBy(t.forest, plugin), t.forest.owner.Keys)
  {
    var owned := OwnedBy(s.forest, plugin);
    OwnedAfterRemoval(plugin, s.forest, plugin, d, t.forest);
    assert t.forest.owner.Keys == s.forest.owner.Keys;
    RemovedAgree(s.indexes, owned, d, s.forest.owner.Keys);
  }

  /** What others own and give up is not the plugin's. */
  lemma OthersKeepOwned(plugin: Object, f: Forest, op: R.Op, g: Forest)
    requires R.Sound(f) && R.Step(f, op, g)
    requires op.AddOwned? || op.RemoveOwned? ==> op.o != plugin
    ensures OwnedBy(g, plugin) == OwnedBy(f, plugin) && f.owner.Keys <= g.owner.Keys
  {
    match op
    case Create(x) => NewcomerUnowned(plugin, f, x, g);
    case AddOwned(o, x, _) =>
      if x != null && x != o {
        OwnedAfterAddition(plugin, f, o, x, g);
      }
    case RemoveOwned(o, x) =>
      R.RemovedSound(f, o, x, g);
      OwnedAfterRemoval(plugin, f, o, x, g);
  }

  lemma NewcomerUnowned(plugin: Object, f: Forest, x: Object, g: Forest)
    requires Joined(f, x, g)
    ensures OwnedBy(g, plugin) == OwnedBy(f, plugin) && f.owner.Keys <= g.owner.Keys
  {
  }

  lemma OtherKeeps(plugin: Object, s: State, op: R.Op, t: State)
    requires Inv(plugin, s) && Step(plugin, s, Other(op), t)
    ensures Inv(plugin, t)
  {
    R.StepSound(s.forest, op, t.forest);
    OthersKeepOwned(plugin, s.forest, op, t.forest);
    DistinctWithin(s.forest.owner.Keys, t.forest.owner.Keys);
  }

  lemma StepInv(plugin: Object, s: State, op: Op, t: State)
    requires Inv(plugin, s) && Step(plugin, s, op, t)
    ensures Inv(plugin, t)
  {
    match op
    case AddDevice(d) =>
      if s.forest.owner[d] == null {
        AddDeviceKeeps(plugin, s, d, t);
      }
    case RemoveDevice(d) =>
      if s.forest.owner[d] != null {
        RemoveDeviceKeeps(plugin, s, d, t);
      }
    case Other(op) => OtherKeeps(plugin, s, op, t);
  }

  /** The call adds no device with the UID of one of the plugin's, and removes none of another owner with such a UID. */
  ghost predicate KeepsUIDs(plugin: Object, s: State, op: Op) {
    var owned := OwnedBy(s.forest, plugin);
    match op
    case AddDevice(d) => d in s.forest.owner && s.forest.owner[d] == null ==> NoneWithUID(owned, d.uid)
    case RemoveDevice(d) =>
      d in s.forest.owner && s.forest.owner[d] != null ==> d in owned || NoneWithUID(owned, d.uid)
    case Other(_) => true
  }

  /** A call keeps every device of the plugin that has a UID in the index by UID exactly if it is such a call. */
  lemma StepKeepsUIDsIff(plugin: Object, s: State, op: Op, t: State)
    requires Inv(plugin, s) && Step(plugin, s, op, t) && UIDsFound(s.indexes, OwnedBy(s.forest, plugin))
    ensures UIDsFound(t.indexes, OwnedBy(t.forest, plugin)) <==> KeepsUIDs(plugin, s, op)
  {
    match op
    case AddDevice(d) =>
      if s.forest.owner[d] == null {
        OwnedAfterAddition(plugin, s.forest, plugin, d, t.forest);
        AddedUIDs(s.indexes, OwnedBy(s.forest, plugin), d);
      }
    case RemoveDevice(d) =>
      if s.forest.owner[d] != null {
        R.RemovedSound(s.forest, plugin, d, t.forest);
        OwnedAfterRemoval(plugin, s.forest, plugin, d, t.forest);
        if s.forest.owner[d] != plugin {
          NotOwned(s.forest, plugin, d);
        }
        RemovedUIDs(s.indexes, OwnedBy(s.forest, plugin), d);
      }
    case Other(op) => OthersKeepOwned(plugin, s.forest, op, t.forest);
  }

  lemma NotOwned(f: Forest, plugin: Object, d: Object)
    requires d in f.owner && f.owner[d] != plugin
    ensures OwnedBy(f, plugin) - {d} == OwnedBy(f, plugin)
  {
  }

  ghost predicate StepAt(plugin: Object, states: seq<State>, ops: seq<Op>, k: nat) {
    k < |ops| && k + 1 < |states| && Step(plugin, states[k], ops[k], states[k + 1])
  }

  /** Runs from where the plugin object has been made, in a world where nothing is owned yet. */
  ghost predicate IsRun(plugin: Object, states: seq<State>, ops: seq<Op>) {
    && |states| == |ops| + 1
    && states[0] == State(Forest(map[plugin := null], map[plugin := map[]]), NO_DEVICES)
    && forall k: nat :: k < |ops| ==> StepAt(plugin, states, ops, k)
  }

  lemma {:induction false} RunInv(plugin: Object, states: seq<State>, ops: seq<Op>, k: nat)
    requires IsRun(plugin, states, ops) && k < |states|
    ensures Inv(plugin, states[k])
  {
    if k == 0 {
      assert OwnedBy(states[0].forest, plugin) == {};
    } else {
      RunInv(plugin, states, ops, k - 1);
      assert StepAt(plugin, states, ops, k - 1);
      StepInv(plugin, states[k - 1], ops[k - 1], states[k]);
    }
  }

  /** In every state of every run, a device is in the list, exactly once, and in the index by identifier, exactly
      if it sits in exactly one scope map of the plugin; and if no two devices share a UID, it is
      in the index by UID exactly if it has one besides. */
  lemma DeviceIndexedIffOwned(plugin: Object, states: seq<State>, ops: seq<Op>, k: nat, d: Object)
    requires IsRun(plugin, states, ops) && k < |states| && d in states[k].forest.owner
    ensures var f, x := states[k].forest, states[k].indexes;
      && NoDuplicates(x.devices)
      && (d in x.devices <==> HoldsOnce(f, plugin, d))
      && (d.id in x.byID && x.byID[d.id] == d <==> HoldsOnce(f, plugin, d))
      && (DistinctUIDs(f.owner.Keys) ==>
            (d.uid in x.byUID && x.byUID[d.uid] == d <==> HoldsOnce(f, plugin, d) && d.uid != ""))
  {
    RunInv(plugin, states, ops, k);
    var f, x := states[k].forest, states[k].indexes;
    OwnerIffHeldOnce(f, plugin, d);
    assert d in OwnedBy(f, plugin) <==> f.owner[d] == plugin;
    if d in x.devices {
      var i :| 0 <= i < |x.devices| && x.devices[i] == d;
    }
  }
}
