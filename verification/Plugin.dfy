/** The plugin's three indexes of its devices, which agree with each other and with what the plugin owns. */
module Plugin {
  import opened Ownership
  import opened OwnershipForest

  /** devices_, deviceByID_ and deviceByUID_. */
  datatype Indexes = Indexes(devices: seq<Object>, byID: map<nat, Object>, byUID: map<string, Object>)

  const NO_DEVICES := Indexes([], map[], map[])

  function IndexesAdded(x: Indexes, d: Object): Indexes {
    Indexes(x.devices + [d], x.byID[d.id := d], if d.uid != "" then x.byUID[d.uid := d] else x.byUID)
  }

  /** std::find and erase. */
  function WithoutFirst(devices: seq<Object>, d: Object): seq<Object> {
    if devices == [] then []
    else if devices[0] == d then devices[1..]
    else [devices[0]] + WithoutFirst(devices[1..], d)
  }

  function IndexesRemoved(x: Indexes, d: Object): Indexes {
    Indexes(WithoutFirst(x.devices, d), x.byID - {d.id}, if d.uid != "" then x.byUID - {d.uid} else x.byUID)
  }

  ghost predicate NoDuplicates(devices: seq<Object>) {
    forall i, j :: 0 <= i < j < |devices| ==> devices[i] != devices[j]
  }

  /** The list and the index by identifier cover exactly the given devices. */
  ghost predicate Covers(x: Indexes, owned: set<Object>) {
    && NoDuplicates(x.devices)
    && (forall i :: 0 <= i < |x.devices| ==> x.devices[i] in owned)
    && (forall d :: d in owned ==> d in x.devices)
    && (forall d :: d in owned ==> d.id in x.byID && x.byID[d.id] == d)
    && (forall id :: id in x.byID ==> x.byID[id] in owned && x.byID[id].id == id)
  }

  /** What the index by UID leads to is one of them, under its UID. */
  ghost predicate UIDsOwned(x: Indexes, owned: set<Object>) {
    forall uid :: uid in x.byUID ==> uid != "" && x.byUID[uid] in owned && x.byUID[uid].uid == uid
  }

  /** The index by UID leads to each of them that has one. */
  ghost predicate UIDsFound(x: Indexes, owned: set<Object>) {
    forall d :: d in owned && d.uid != "" ==> d.uid in x.byUID && x.byUID[d.uid] == d
  }

  ghost predicate DistinctUIDs(objects: set<Object>) {
    forall x, y {:trigger x.uid, y.uid} :: x in objects && y in objects && x.uid == y.uid != "" ==> x == y
  }

  lemma {:induction false} WithoutFirstElements(devices: seq<Object>, d: Object)
    requires NoDuplicates(devices)
    ensures var rest := WithoutFirst(devices, d);
      && NoDuplicates(rest)
      && (forall i :: 0 <= i < |rest| ==> rest[i] in devices && rest[i] != d)
      && (forall i :: 0 <= i < |devices| && devices[i] != d ==> devices[i] in rest)
  {
    if devices == [] {
    } else {
      var tail := devices[1..];
      assert devices == [devices[0]] + tail;
      assert devices[0] !in tail;
      WithoutFirstElements(tail, d);
    }
  }

  /** And leaves the others in their order. */
  lemma {:induction false} WithoutFirstAt(devices: seq<Object>, i: nat)
    requires i < |devices| && NoDuplicates(devices)
    ensures WithoutFirst(devices, devices[i]) == devices[..i] + devices[i + 1..]
  {
    if i == 0 {
    } else {
      WithoutFirstAt(devices[1..], i - 1);
      assert devices[1..][..i - 1] + devices[1..][i..] == devices[1..i] + devices[i + 1..];
      assert devices[..i] + devices[i + 1..] == [devices[0]] + (devices[1..i] + devices[i + 1..]);
    }
  }

  lemma AddedCovers(x: Indexes, owned: set<Object>, d: Object)
    requires Covers(x, owned) && d !in owned && DistinctIds(owned + {d})
    ensures Covers(IndexesAdded(x, d), owned + {d})
  {
    var y := IndexesAdded(x, d);
    forall e | e in owned
      ensures e.id != d.id
    {
    }
  }

  /** No device among the given ones has the UID, if it is one. */
  ghost predicate NoneWithUID(owned: set<Object>, uid: string) {
    uid == "" || forall e :: e in owned ==> e.uid != uid
  }

  /** Adding a device keeps the index by UID complete exactly if none of the others has its UID. */
  lemma AddedUIDs(x: Indexes, owned: set<Object>, d: Object)
    requires UIDsOwned(x, owned) && d !in owned
    ensures UIDsOwned(IndexesAdded(x, d), owned + {d})
    ensures UIDsFound(x, owned) ==> (UIDsFound(IndexesAdded(x, d), owned + {d}) <==> NoneWithUID(owned, d.uid))
  {
    var y := IndexesAdded(x, d);
    if UIDsFound(x, owned) && NoneWithUID(owned, d.uid) {
      forall e | e in owned + {d} && e.uid != ""
        ensures e.uid in y.byUID && y.byUID[e.uid] == e
      {
      }
    }
    if !NoneWithUID(owned, d.uid) {
      var e :| e in owned && e.uid == d.uid;
      assert e in owned + {d} && y.byUID[e.uid] == d != e;
    }
  }

  /** Removing a device, whether or not it is there. */
  lemma RemovedCovers(x: Indexes, owned: set<Object>, d: Object)
    requires Covers(x, owned) && DistinctIds(owned + {d})
    ensures Covers(IndexesRemoved(x, d), owned - {d})
  {
    var y := IndexesRemoved(x, d);
    WithoutFirstElements(x.devices, d);
    assert y.devices == WithoutFirst(x.devices, d);
    forall e | e in owned - {d}
      ensures e in y.devices && e.id in y.byID && y.byID[e.id] == e
    {
      assert e in x.devices && e.id != d.id;
    }
    forall id | id in y.byID
      ensures y.byID[id] in owned - {d} && y.byID[id].id == id
    {
      assert x.byID[id] in owned;
    }
  }

  /** Removing a device, whether or not the plugin owns it, keeps the index by UID complete exactly if it is one
      of the plugin's, or none of those has its UID. */
  lemma RemovedUIDs(x: Indexes, owned: set<Object>, d: Object)
    requires UIDsOwned(x, owned)
    ensures UIDsOwned(IndexesRemoved(x, d), owned - {d})
    ensures UIDsFound(x, owned) ==>
              (UIDsFound(IndexesRemoved(x, d), owned - {d}) <==> d in owned || NoneWithUID(owned, d.uid))
  {
    var y := IndexesRemoved(x, d);
    if d !in owned && !NoneWithUID(owned, d.uid) {
      var e :| e in owned && e.uid == d.uid;
      assert e in owned - {d} && e.uid !in y.byUID;
    }
  }

  /** Of two devices that share a UID, the index leads to the last one added, and to none once either is removed. */
  lemma SharedUIDLost(x: Indexes, owned: set<Object>, d: Object, e: Object)
    requires UIDsFound(x, owned) && d !in owned && e in owned && d.uid == e.uid != ""
    ensures IndexesAdded(x, d).byUID[d.uid] == d
    ensures d.uid !in IndexesRemoved(IndexesAdded(x, d), e).byUID
    ensures e.uid !in IndexesRemoved(IndexesAdded(x, d), d).byUID
  {
  }

  /** And removing a device that someone else owns loses the plugin's device with the same UID. */
  lemma ForeignUIDLost(x: Indexes, owned: set<Object>, d: Object, e: Object)
    requires UIDsOwned(x, owned) && UIDsFound(x, owned) && d !in owned && e in owned && d.uid == e.uid != ""
    ensures e.uid in x.byUID && e.uid !in IndexesRemoved(x, d).byUID && e in owned - {d}
  {
  }

  /** The three indexes agree with what is owned, the one by UID as far as the UIDs of the world go. */
  ghost predicate IndexesAgree(x: Indexes, owned: set<Object>, world: set<Object>) {
    Covers(x, owned) && UIDsOwned(x, owned) && (DistinctUIDs(world) ==> UIDsFound(x, owned))
  }

  lemma DistinctWithin(objects: set<Object>, world: set<Object>)
    requires objects <= world
    ensures DistinctIds(world) ==> DistinctIds(objects)
    ensures DistinctUIDs(world) ==> DistinctUIDs(objects)
  {
  }

  lemma DistinctMeansNone(owned: set<Object>, d: Object, world: set<Object>)
    requires owned + {d} <= world && DistinctUIDs(world)
    ensures d in owned || NoneWithUID(owned, d.uid)
  {
  }

  lemma AddedAgree(x: Indexes, owned: set<Object>, d: Object, world: set<Object>)
    requires IndexesAgree(x, owned, world) && d !in owned && DistinctIds(world) && owned + {d} <= world
    ensures IndexesAgree(IndexesAdded(x, d), owned + {d}, world)
  {
    DistinctWithin(owned + {d}, world);
    AddedCovers(x, owned, d);
    AddedUIDs(x, owned, d);
    if DistinctUIDs(world) {
      DistinctMeansNone(owned, d, world);
    }
  }

  lemma RemovedAgree(x: Indexes, owned: set<Object>, d: Object, world: set<Object>)
    requires IndexesAgree(x, owned, world) && DistinctIds(world) && owned + {d} <= world
    ensures IndexesAgree(IndexesRemoved(x, d), owned - {d}, world)
  {
    DistinctWithin(owned + {d}, world);
    RemovedCovers(x, owned, d);
    RemovedUIDs(x, owned, d);
    if DistinctUIDs(world) {
      DistinctMeansNone(owned, d, world);
    }
  }

  class Plugin {
    const self: Object   // the plugin as an object that owns others
    var devices: seq<Object>
    var deviceByID: map<nat, Object>
    var deviceByUID: map<string, Object>

    constructor (self: Object)
      ensures this.self == self && View() == NO_DEVICES
    {
      this.self := self;
      devices, deviceByID, deviceByUID := [], map[], map[];
    }

    ghost function View(): Indexes
      reads this
    {
      Indexes(devices, deviceByID, deviceByUID)
    }

    /** Who the plugin owns, out of all objects there are. */
    ghost function Owned(world: set<Object>): set<Object>
      reads world
    {
      set x | x in world && x.ownerObject == self
    }

    ghost predicate Valid(world: set<Object>)
      reads this, world
    {
      && World(world)
      && Consistent(world)
      && IndexesAgree(View(), Owned(world), world)
    }

    /** Every object has an identifier of its own. */
    ghost predicate World(world: set<Object>) {
      self in world && DistinctIds(world) && forall x :: x in world ==> x.id != UNKNOWN
    }

    /** A new plugin, in a consistent world where it owns nobody yet. */
    lemma NewPluginValid(world: set<Object>)
      requires World(world) && Consistent(world) && View() == NO_DEVICES
      requires forall x :: x in world ==> x.ownerObject != self
      ensures Valid(world)
    {
      assert Owned(world) == {};
    }

    /** A further new object does no harm. */
    lemma NewcomerValid(world: set<Object>, x: Object)
      requires Valid(world) && x !in world && Untouched(x) && World(world + {x})
      ensures Valid(world + {x})
    {
      NewcomerConsistent(world, x);
      assert Owned(world + {x}) == Owned(world);
      DistinctWithin(world, world + {x});
    }

    method AddToIndexes(device: Object)
      modifies this
      ensures View() == IndexesAdded(old(View()), device)
    {
      devices := devices + [device];
      deviceByID := deviceByID[device.id := device];
      if device.uid != "" {
        deviceByUID := deviceByUID[device.uid := device];
      }
    }

    method RemoveFromIndexes(device: Object)
      modifies this
      ensures View() == IndexesRemoved(old(View()), device)
    {
      devices := WithoutFirst(devices, device);
      deviceByID := deviceByID - {device.id};
      if device.uid != "" {
        deviceByUID := deviceByUID - {device.uid};
      }
    }

    /** A device that has an owner already is left alone. */
    method AddDevice(ghost world: set<Object>, device: Object)
      requires Valid(world) && device in world && device != self
      modifies this, world`ownerObject, world`ownerObjectID, world`ownedObjects
      ensures Valid(world)
      ensures old(device.ownerObject) != null ==> View() == old(View()) && Picture(world) == old(Picture(world))
      ensures old(device.ownerObject) == null ==>
        && View() == IndexesAdded(old(View()), device) && View().devices == old(View().devices) + [device]
        && Added(old(Picture(world)), self, device, GLOBAL, Picture(world))
        && Owned(world) == old(Owned(world)) + {device}
    {
      OwnerIDTells(world, device);
      if device.ownerObjectID != UNKNOWN {
        return;
      }
      AddedAgree(View(), Owned(world), device, world);
      AddOwnerless(world, device);
    }

    method AddOwnerless(ghost world: set<Object>, device: Object)
      requires World(world) && Consistent(world)
      requires device in world && device != self && device.ownerObject == null
      modifies this, world`ownerObject, world`ownerObjectID, world`ownedObjects
      ensures Consistent(world)
      ensures View() == IndexesAdded(old(View()), device)
      ensures Added(old(Picture(world)), self, device, GLOBAL, Picture(world))
      ensures Owned(world) == old(Owned(world)) + {device}
    {
      ghost var start, ownedBefore := Picture(world), Owned(world);
      AddToIndexes(device);
      assert Consistent(world) && Picture(world) == start && Owned(world) == ownedBefore;
      Attach(world, device);
    }

    /** Device::RequestOwnershipChange, as far as the ownership goes. A device that has an owner is left alone. */
    method Attach(ghost world: set<Object>, device: Object)
      requires World(world) && Consistent(world) && device in world && device != self
      modifies world`ownerObject, world`ownerObjectID, world`ownedObjects
      ensures Consistent(world)
      ensures old(device.ownerObject) != null ==> Picture(world) == old(Picture(world))
      ensures old(device.ownerObject) == null ==>
        && Added(old(Picture(world)), self, device, GLOBAL, Picture(world))
        && Owned(world) == old(Owned(world)) + {device}
    {
      OwnerIDTells(world, device);
      if device.ownerObjectID != UNKNOWN {
        return;
      }
      Own(world, device);
    }

    method Own(ghost world: set<Object>, device: Object)
      requires self in world && Consistent(world) && device in world && device != self && device.ownerObject == null
      modifies world`ownerObject, world`ownerObjectID, world`ownedObjects
      ensures Consistent(world)
      ensures Added(old(Picture(world)), self, device, GLOBAL, Picture(world))
      ensures Owned(world) == old(Owned(world)) + {device}
    {
      ghost var start, ownedBefore := Picture(world), Owned(world);
      OwnedIsOwner(world);
      Add(world, self, device, GLOBAL);
      OwnedIsOwner(world);
      OwnersAfter(start.owner, Picture(world).owner, device, self, self, ownedBefore, Owned(world));
    }

    lemma OwnedIsOwner(world: set<Object>)
      ensures forall x :: x in Owned(world) <==> x in Picture(world).owner && Picture(world).owner[x] == self
    {
    }

    /** A device without owner, which may be one that was removed before, is left alone. */
    method RemoveDevice(ghost world: set<Object>, device: Object)
      requires Valid(world) && device in world && device != self
      modifies this, world`ownerObject, world`ownerObjectID, world`ownedObjects
      ensures Valid(world)
      ensures old(device.ownerObject) == null ==> View() == old(View()) && Picture(world) == old(Picture(world))
      ensures old(device.ownerObject) != null ==>
        && View() == IndexesRemoved(old(View()), device)
        && Removed(old(Picture(world)), self, device.id, Picture(world))
      ensures Owned(world) == old(Owned(world)) - {device}
    {
      OwnerIDTells(world, device);
      if device.ownerObjectID == UNKNOWN {
        return;
      }
      RemovedAgree(View(), Owned(world), device, world);
      RemoveOwned(world, device);
    }

    method RemoveOwned(ghost world: set<Object>, device: Object)
      requires World(world) && Consistent(world)
      requires device in world && device != self && device.ownerObject != null
      modifies this, world`ownerObject, world`ownerObjectID, world`ownedObjects
      ensures Consistent(world)
      ensures View() == IndexesRemoved(old(View()), device)
      ensures Removed(old(Picture(world)), self, device.id, Picture(world))
      ensures Owned(world) == old(Owned(world)) - {device}
    {
      ghost var start, ownedBefore := Picture(world), Owned(world);
      RemoveFromIndexes(device);
      assert Consistent(world) && Picture(world) == start && Owned(world) == ownedBefore;
      Detach(world, device);
    }

    /** And the same for giving up; a device that has no owner is left alone. */
    method Detach(ghost world: set<Object>, device: Object)
      requires World(world) && Consistent(world) && device in world
      modifies world`ownerObject, world`ownerObjectID, world`ownedObjects
      ensures Consistent(world)
      ensures old(device.ownerObject) == null ==> Picture(world) == old(Picture(world))
      ensures old(device.ownerObject) != null ==> Removed(old(Picture(world)), self, device.id, Picture(world))
      ensures Owned(world) == old(Owned(world)) - {device}
    {
      OwnerIDTells(world, device);
      if device.ownerObjectID == UNKNOWN {
        return;
      }
      Disown(world, device);
    }

    method Disown(ghost world: set<Object>, device: Object)
      requires self in world && Consistent(world) && device in world
      modifies world`ownerObject, world`ownerObjectID, world`ownedObjects
      ensures Consistent(world)
      ensures Removed(old(Picture(world)), self, device.id, Picture(world))
      ensures Owned(world) == old(Owned(world)) - {device}
    {
      ghost var start, ownedBefore := Picture(world), Owned(world);
      OwnedIsOwner(world);
      Remove(world, self, device);
      OwnedIsOwner(world);
      OwnersAfter(start.owner, Picture(world).owner, device, self,
                  if start.owner[device] == self then null else start.owner[device], ownedBefore, Owned(world));
    }
  }

  /** When one object changes owner, the set of what `o` owns changes by at most that object. */
  lemma OwnersAfter(f: map<Object, Object?>, g: map<Object, Object?>, x: Object, o: Object, owner: Object?,
                    before: set<Object>, after: set<Object>)
    requires x in f && g == f[x := owner]
    requires forall y :: y in before <==> y in f && f[y] == o
    requires forall y :: y in after <==> y in g && g[y] == o
    ensures after == if owner == o then before + {x} else before - {x}
  {
  }
}
