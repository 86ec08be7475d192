/** The whole of the objects, and what every addition and removal keeps about it. */
module OwnershipForest {
  import opened Ownership

  /** The ownership fields of all objects. */
  datatype Forest = Forest(owner: map<Object, Object?>, held: map<Object, map<Key, Object>>)

  ghost function Picture(world: set<Object>): Forest
    reads world
  {
    Forest(map x | x in world :: x.ownerObject, map x | x in world :: x.ownedObjects)
  }

  ghost predicate Added(f: Forest, o: Object, x: Object, scope: nat, g: Forest) {
    o in f.held && g.owner == f.owner[x := o] && g.held == f.held[o := f.held[o][Key(scope, x.id) := x]]
  }

  ghost predicate Removed(f: Forest, o: Object, id: nat, g: Forest) {
    && o in f.held
    && if Knows(f.held[o], id) then
         var key := FirstKey(f.held[o], id);
         g.owner == f.owner[f.held[o][key] := null] && g.held == f.held[o := f.held[o] - {key}]
       else g == f
  }

  ghost predicate Holds(f: Forest, o: Object, scope: nat, x: Object) {
    o in f.held && Key(scope, x.id) in f.held[o] && f.held[o][Key(scope, x.id)] == x
  }

  /** `x` is in exactly one of the scope maps of `o`. */
  ghost predicate HoldsOnce(f: Forest, o: Object, x: Object) {
    exists scope :: Holds(f, o, scope, x) && forall other :: Holds(f, o, other, x) ==> other == scope
  }

  ghost predicate OwnersOk(f: Forest) {
    && f.owner.Keys == f.held.Keys
    && (forall x :: x in f.owner && f.owner[x] != null ==> f.owner[x] in f.owner && f.owner[x] != x)
  }

  /** Identifiers tell objects apart. */
  ghost predicate DistinctIds(objects: set<Object>) {
    forall x, y {:trigger x.id, y.id} :: x in objects && y in objects && x.id == y.id ==> x == y
  }

  /** What an object holds is its own, under its identifier, in one scope. */
  ghost predicate HolderOk(f: Forest, o: Object)
    requires o in f.held
  {
    && (forall key :: key in f.held[o] ==>
          f.held[o][key] in f.owner && f.held[o][key].id == key.id && f.owner[f.held[o][key]] == o)
    && OneScopeEach(f.held[o])
  }

  /** What is owned is held by its owner. */
  ghost predicate OwnedOk(f: Forest, x: Object)
    requires x in f.owner
  {
    f.owner[x] != null && f.owner[x] in f.held ==> Knows(f.held[f.owner[x]], x.id)
  }

  ghost predicate Agree(f: Forest) {
    && OwnersOk(f)
    && (forall o :: o in f.held ==> HolderOk(f, o))
    && (forall x :: x in f.owner ==> OwnedOk(f, x))
  }

  /** An object's owner is `o` if and only if the object sits in exactly one scope map of `o`;
      and otherwise it sits in none of them. */
  lemma OwnerIffHeldOnce(f: Forest, o: Object, x: Object)
    requires Agree(f) && DistinctIds(f.owner.Keys) && o in f.owner && x in f.owner
    ensures f.owner[x] == o <==> HoldsOnce(f, o, x)
    ensures f.owner[x] != o ==> forall scope :: !Holds(f, o, scope, x)
  {
    assert HolderOk(f, o) && OwnedOk(f, x);
    if f.owner[x] == o {
      var key := FirstKey(f.held[o], x.id);
      assert f.held[o][key] in f.owner;
      assert key == Key(key.scope, x.id);
      forall other | Holds(f, o, other, x)
        ensures other == key.scope
      {
        assert Key(other, x.id) in f.held[o];
      }
      assert Holds(f, o, key.scope, x);
    }
  }

  /** Whoever knows an identifier owns the object that has it. */
  lemma KnownIsOwned(f: Forest, o: Object, x: Object)
    requires Agree(f) && DistinctIds(f.owner.Keys) && o in f.owner && x in f.owner && Knows(f.held[o], x.id)
    ensures f.owner[x] == o && f.held[o][FirstKey(f.held[o], x.id)] == x
  {
    assert HolderOk(f, o);
  }

  lemma HolderAdded(f: Forest, o: Object, x: Object, scope: nat, g: Forest, p: Object)
    requires Added(f, o, x, scope, g) && p in f.held && HolderOk(f, p)
    requires x in f.owner && f.owner[x] == null && !Knows(f.held[o], x.id)
    ensures p in g.held && HolderOk(g, p)
  {
    forall key | key in f.held[p]
      ensures f.held[p][key] != x && (p == o ==> key.id != x.id)
    {
      assert f.owner[f.held[p][key]] == p;
    }
  }

  /** Adding an object that has no owner keeps everything in agreement. */
  lemma AddedAgrees(f: Forest, o: Object, x: Object, scope: nat, g: Forest)
    requires Agree(f) && DistinctIds(f.owner.Keys)
    requires o in f.owner && x in f.owner && x != o && f.owner[x] == null && Added(f, o, x, scope, g)
    ensures Agree(g)
  {
    if Knows(f.held[o], x.id) {
      KnownIsOwned(f, o, x);
    }
    forall p | p in g.held
      ensures HolderOk(g, p)
    {
      HolderAdded(f, o, x, scope, g, p);
    }
    forall y | y in g.owner
      ensures OwnedOk(g, y)
    {
      assert OwnedOk(f, y);
    }
  }

  lemma HolderRemoved(f: Forest, o: Object, key: Key, g: Forest, p: Object)
    requires o in f.held && key in f.held[o] && p in f.held && HolderOk(f, p) && HolderOk(f, o)
    requires f.held[o][key] in f.owner
    requires g.owner == f.owner[f.held[o][key] := null] && g.held == f.held[o := f.held[o] - {key}]
    ensures HolderOk(g, p)
  {
    var x := f.held[o][key];
    forall k | k in g.held[p]
      ensures g.held[p][k] in f.owner && g.held[p][k] != x
    {
      assert f.owner[f.held[p][k]] == p;
    }
  }

  lemma OwnedRemoved(f: Forest, o: Object, key: Key, g: Forest, y: Object)
    requires o in f.held && key in f.held[o] && HolderOk(f, o) && y in f.owner && OwnedOk(f, y)
    requires DistinctIds(f.owner.Keys)
    requires g.owner == f.owner[f.held[o][key] := null] && g.held == f.held[o := f.held[o] - {key}]
    ensures OwnedOk(g, y)
  {
    if y.id == key.id {
      assert f.held[o][key] == y;
    }
  }

  /** Removing by identifier keeps everything in agreement: the object concerned has no owner any more, if
      this was its owner, and nothing else changes hands. */
  lemma RemovedAgrees(f: Forest, o: Object, x: Object, g: Forest)
    requires Agree(f) && DistinctIds(f.owner.Keys) && o in f.owner && x in f.owner && Removed(f, o, x.id, g)
    ensures Agree(g)
    ensures g.owner == if f.owner[x] == o then f.owner[x := null] else f.owner
  {
    assert HolderOk(f, o) && OwnedOk(f, x);
    if Knows(f.held[o], x.id) {
      KnownIsOwned(f, o, x);
      var key := FirstKey(f.held[o], x.id);
      assert f.held[o][key] == x;
      forall p | p in g.held
        ensures HolderOk(g, p)
      {
        HolderRemoved(f, o, key, g, p);
      }
      forall y | y in g.owner
        ensures OwnedOk(g, y)
      {
        OwnedRemoved(f, o, key, g, y);
      }
    }
  }

  ghost predicate Consistent(world: set<Object>)
    reads world
  {
    DistinctIds(world) && Agree(Picture(world)) && forall x :: x in world ==> x.OwnerIDMatches()
  }

  /** The owner's identifier tells whether there is an owner. */
  lemma OwnerIDTells(world: set<Object>, x: Object)
    requires Consistent(world) && x in world && forall y :: y in world ==> y.id != UNKNOWN
    ensures x.ownerObjectID == UNKNOWN <==> x.ownerObject == null
  {
    assert x.OwnerIDMatches();
    assert Picture(world).owner[x] == x.ownerObject;
  }

  /** The picture after one object has changed its owner and one what it holds. */
  lemma PictureAfter(world: set<Object>, before: Forest, x: Object, owner: Object?, o: Object, held: map<Key, Object>)
    requires before.owner.Keys == world == before.held.Keys && x in world && o in world
    requires forall y :: y in world ==> y.ownerObject == if y == x then owner else before.owner[y]
    requires forall y :: y in world ==> y.ownedObjects == if y == o then held else before.held[y]
    ensures Picture(world).owner == before.owner[x := owner]
    ensures Picture(world).held == before.held[o := held]
  {
  }

  /** What AddOwnedObject does to the picture. */
  method AddHeld(ghost world: set<Object>, o: Object, x: Object, scope: nat)
    requires o in world && x in world && x != o && x.ownerObject == null
    requires forall y :: y in world ==> y.OwnerIDMatches()
    modifies world`ownerObject, world`ownerObjectID, world`ownedObjects
    ensures Added(old(Picture(world)), o, x, scope, Picture(world))
    ensures forall y :: y in world ==> y.OwnerIDMatches()
  {
    ghost var before := Picture(world);
    o.AddOwnedObject(x, scope);
    PictureAfter(world, before, x, o, o, before.held[o][Key(scope, x.id) := x]);
  }

  /** Any call of AddOwnedObject within a consistent world leaves it consistent. */
  method Add(ghost world: set<Object>, o: Object, x: Object?, scope: nat)
    requires Consistent(world) && o in world && (x != null ==> x in world)
    requires x != null && x != o ==> x.ownerObject == null
    modifies world`ownerObject, world`ownerObjectID, world`ownedObjects
    ensures Consistent(world)
    ensures if x == null || x == o then Picture(world) == old(Picture(world))
            else Added(old(Picture(world)), o, x, scope, Picture(world))
  {
    ghost var before := Picture(world);
    if x == null || x == o {
      o.AddOwnedObject(x, scope);
      assert Picture(world) == before;
    } else {
      AddHeld(world, o, x, scope);
      AddedAgrees(before, o, x, scope, Picture(world));
    }
  }

  /** What RemoveOwnedObject does to the picture. */
  method RemoveById(ghost world: set<Object>, o: Object, id: nat)
    requires o in world && (set key | key in o.ownedObjects :: o.ownedObjects[key]) <= world
    requires forall x :: x in world ==> x.OwnerIDMatches()
    modifies world`ownerObject, world`ownerObjectID, world`ownedObjects
    ensures Removed(old(Picture(world)), o, id, Picture(world))
    ensures forall x :: x in world ==> x.OwnerIDMatches()
  {
    ghost var before, owned := Picture(world), o.ownedObjects;
    o.RemoveOwnedObject(id);
    if Knows(owned, id) {
      ghost var key := FirstKey(owned, id);
      assert owned[key] in (set k | k in owned :: owned[k]);
      PictureAfter(world, before, owned[key], null, o, owned - {key});
    } else {
      assert Picture(world) == before;
    }
  }

  /** And so does any call of RemoveOwnedObject. */
  method Remove(ghost world: set<Object>, o: Object, x: Object)
    requires Consistent(world) && o in world && x in world
    modifies world`ownerObject, world`ownerObjectID, world`ownedObjects
    ensures Consistent(world)
    ensures Removed(old(Picture(world)), o, x.id, Picture(world))
    ensures Picture(world).owner ==
            if old(x.ownerObject) == o then old(Picture(world)).owner[x := null] else old(Picture(world)).owner
  {
    ghost var before := Picture(world);
    HeldInWorld(world, o);
    RemoveById(world, o, x.id);
    RemovedAgrees(before, o, x, Picture(world));
  }

  lemma HeldInWorld(world: set<Object>, o: Object)
    requires Consistent(world) && o in world
    ensures (set key | key in o.ownedObjects :: o.ownedObjects[key]) <= world
  {
    var f := Picture(world);
    assert HolderOk(f, o);
    assert f.held[o] == o.ownedObjects;
  }

  // ---------------------------------------------------------------- where consistent worlds come from

  /** Objects as their constructor leaves them. */
  ghost predicate Untouched(x: Object)
    reads x
  {
    x.ownerObject == null && x.ownedObjects == map[] && x.OwnerIDMatches()
  }

  /** A world of new objects is consistent. */
  lemma NewWorldConsistent(world: set<Object>)
    requires DistinctIds(world) && forall x :: x in world ==> Untouched(x)
    ensures Consistent(world)
  {
    assert forall x :: x in world ==> x.OwnerIDMatches();
  }

  /** A new object appears in the picture. */
  ghost predicate Joined(f: Forest, x: Object, g: Forest) {
    x !in f.owner && g.owner == f.owner[x := null] && g.held == f.held[x := map[]]
  }

  lemma NewcomerPicture(world: set<Object>, x: Object)
    requires x !in world && Untouched(x)
    ensures Joined(Picture(world), x, Picture(world + {x}))
  {
  }

  /** And one more new object, with an identifier of its own, keeps a consistent world so. */
  lemma NewcomerConsistent(world: set<Object>, x: Object)
    requires Consistent(world) && x !in world && Untouched(x) && DistinctIds(world + {x})
    ensures Consistent(world + {x})
  {
    NewcomerPicture(world, x);
    JoinedAgrees(Picture(world), x, Picture(world + {x}));
    assert forall y :: y in world + {x} ==> y.OwnerIDMatches();
  }

  lemma JoinedAgrees(f: Forest, x: Object, g: Forest)
    requires Agree(f) && Joined(f, x, g)
    ensures Agree(g)
  {
    forall o | o in g.held
      ensures HolderOk(g, o)
    {
      assert o != x ==> HolderOk(f, o);
    }
    forall y | y in g.owner
      ensures OwnedOk(g, y)
    {
      assert y != x ==> OwnedOk(f, y);
    }
  }

  /** Creating an object in a consistent world. */
  method Create(ghost world: set<Object>, id: nat, classes: set<nat>, uid: string) returns (x: Object)
    requires Consistent(world) && forall y :: y in world ==> y.id != id
    ensures fresh(x) && x !in world && x.id == id && x.classes == classes && x.uid == uid
    ensures Consistent(world + {x}) && Joined(old(Picture(world)), x, Picture(world + {x}))
  {
    x := new Object(id, classes, uid);
    NewcomerPicture(world, x);
    NewcomerConsistent(world, x);
  }
}
