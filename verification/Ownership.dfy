/** Objects and their owners: what an object says of its owner and what owners hold always agree. */
module Ownership {
  import opened Least

  const UNKNOWN: nat := 0   // kAudioObjectUnknown

  /** Property scopes are four-character codes; any UInt32 can be one. */
  const GLOBAL: nat := 0x676C_6F62   // kAudioObjectPropertyScopeGlobal, 'glob'

  /** The two keys of the nested maps of owned objects, which are ordered maps. */
  datatype Key = Key(scope: nat, id: nat)

  predicate KeyBelow(a: Key, b: Key) {
    a.scope < b.scope || (a.scope == b.scope && a.id < b.id)
  }

  class Object {
    const id: nat
    const classes: set<nat>   // the class identifiers that IsInstance accepts
    const uid: string   // of a device; empty if it has none
    var ownerObject: Object?
    var ownerObjectID: nat
    var ownedObjects: map<Key, Object>

    constructor (id: nat, classes: set<nat>, uid: string)
      ensures this.id == id && this.classes == classes && this.uid == uid
      ensures ownerObject == null && ownedObjects == map[] && OwnerIDMatches()
    {
      this.id, this.classes, this.uid := id, classes, uid;
      ownerObject, ownerObjectID, ownedObjects := null, UNKNOWN, map[];
    }

    ghost predicate OwnerIDMatches()
      reads this`ownerObject, this`ownerObjectID
    {
      ownerObjectID == if ownerObject == null then UNKNOWN else ownerObject.id
    }

    method AttachOwner(owner: Object)
      requires ownerObject == null
      modifies this`ownerObject, this`ownerObjectID
      ensures ownerObject == owner && OwnerIDMatches()
    {
      ownerObject := owner;
      ownerObjectID := owner.id;
    }

    method DetachOwner()
      modifies this`ownerObject, this`ownerObjectID
      ensures ownerObject == null && OwnerIDMatches()
    {
      ownerObjectID := UNKNOWN;
      ownerObject := null;
    }

    /** Null and the object itself are turned away. An object that already has an owner must not be added:
        detaching it from there would lock this object's mutex a second time. */
    method AddOwnedObject(x: Object?, scope: nat)
      requires x != null && x != this ==> x.ownerObject == null
      modifies this`ownedObjects
      modifies (if x == null then {} else {x})`ownerObject
      modifies (if x == null then {} else {x})`ownerObjectID
      ensures x == null || x == this ==>
        ownedObjects == old(ownedObjects) && ownerObject == old(ownerObject) && ownerObjectID == old(ownerObjectID)
      ensures x != null && x != this ==>
        ownedObjects == old(ownedObjects)[Key(scope, x.id) := x] && x.ownerObject == this && x.OwnerIDMatches()
    {
      if x == null || x == this {
        return;
      }
      ownedObjects := ownedObjects[Key(scope, x.id) := x];
      x.AttachOwner(this);
    }

    /** Looks through the scope maps, in the order of their codes, for the first that knows the identifier. */
    method FindOwned(objectID: nat) returns (found: bool, key: Key)
      ensures found <==> Knows(ownedObjects, objectID)
      ensures found ==> IsFirstKey(ownedObjects, objectID, key)
    {
      var scopes := set k | k in ownedObjects :: k.scope;
      while scopes != {}
        invariant forall k :: k in ownedObjects && k.id == objectID ==> k.scope in scopes
        decreases scopes
      {
        LeastExists(scopes);
        var scope: nat :| scope in scopes && IsLeast(scopes, scope);
        key := Key(scope, objectID);
        if key in ownedObjects {
          return true, key;
        }
        scopes := scopes - {scope};
      }
      found, key := false, Key(GLOBAL, objectID);
    }

    method RemoveOwnedObject(objectID: nat)
      modifies this`ownedObjects
      modifies Concerned(ownedObjects, objectID)`ownerObject, Concerned(ownedObjects, objectID)`ownerObjectID
      ensures !Knows(old(ownedObjects), objectID) ==> ownedObjects == old(ownedObjects)
      ensures Knows(old(ownedObjects), objectID) ==>
        var key := FirstKey(old(ownedObjects), objectID);
        && ownedObjects == old(ownedObjects) - {key}
        && old(ownedObjects)[key].ownerObject == null && old(ownedObjects)[key].OwnerIDMatches()
    {
      var found, key := FindOwned(objectID);
      if found {
        FirstKeyIs(ownedObjects, objectID, key);
        ownedObjects[key].DetachOwner();
        ownedObjects := ownedObjects - {key};
      }
    }

    /** The objects of the given scope and class, in the order of the maps; the global scope and class zero
        stand for all. */
    method GetOwnedObjectIDs(scope: nat, classID: nat) returns (ids: seq<nat>)
      ensures Lists(ownedObjects, scope, classID, ids)
    {
      ids := [];
      ghost var keys: seq<Key> := [];
      var rest := ownedObjects.Keys;
      while rest != {}
        invariant rest <= ownedObjects.Keys
        invariant ListsBy(ownedObjects, ownedObjects.Keys - rest, scope, classID, ids, keys)
        invariant forall i, k :: 0 <= i < |keys| && k in rest ==> KeyBelow(keys[i], k)
        decreases rest
      {
        LeastKey(rest);
        var key :| IsLeastKey(rest, key);
        if (scope == GLOBAL || scope == key.scope) && (classID == 0 || classID in ownedObjects[key].classes) {
          ids, keys := ids + [key.id], keys + [key];
        }
        rest := rest - {key};
      }
      assert ownedObjects.Keys - rest == ownedObjects.Keys;
    }
  }

  predicate IsLeastKey(keys: set<Key>, key: Key) {
    key in keys && forall k :: k in keys && k != key ==> KeyBelow(key, k)
  }

  lemma {:induction false} LeastKey(keys: set<Key>)
    requires keys != {}
    ensures exists key :: IsLeastKey(keys, key)
    decreases |keys|
  {
    var key :| key in keys;
    var rest := keys - {key};
    if rest == {} {
      assert keys == {key};
      assert IsLeastKey(keys, key);
    } else {
      assert keys == rest + {key};
      LeastKey(rest);
      var least :| IsLeastKey(rest, least);
      assert IsLeastKey(keys, if KeyBelow(least, key) then least else key);
    }
  }

  /** Each object is owned in one scope. */
  ghost predicate OneScopeEach(owned: map<Key, Object>) {
    forall k1, k2 :: k1 in owned && k2 in owned && k1.id == k2.id ==> k1 == k2
  }

  predicate Selected(owned: map<Key, Object>, key: Key, scope: nat, classID: nat) {
    && key in owned
    && (scope == GLOBAL || scope == key.scope)
    && (classID == 0 || classID in owned[key].classes)
  }

  /** The identifiers of the selected keys, each once, in the order of scopes and then of identifiers. */
  ghost predicate Lists(owned: map<Key, Object>, scope: nat, classID: nat, ids: seq<nat>) {
    exists keys: seq<Key> :: ListsBy(owned, owned.Keys, scope, classID, ids, keys)
  }

  ghost predicate ListsBy(owned: map<Key, Object>, among: set<Key>, scope: nat, classID: nat,
                          ids: seq<nat>, keys: seq<Key>) {
    && |keys| == |ids|
    && (forall i :: 0 <= i < |keys| ==> keys[i] in among && Selected(owned, keys[i], scope, classID))
    && (forall i :: 0 <= i < |keys| ==> keys[i].id == ids[i])
    && (forall i, j :: 0 <= i < j < |keys| ==> KeyBelow(keys[i], keys[j]))
    && (forall key :: key in among && Selected(owned, key, scope, classID) ==> key in keys)
  }

  /** With every object in one scope, no identifier is listed twice. */
  lemma ListedOnce(owned: map<Key, Object>, scope: nat, classID: nat, ids: seq<nat>)
    requires OneScopeEach(owned) && Lists(owned, scope, classID, ids)
    ensures forall i, j :: 0 <= i < j < |ids| ==> ids[i] != ids[j]
  {
    var keys :| ListsBy(owned, owned.Keys, scope, classID, ids, keys);
    forall i, j | 0 <= i < j < |ids|
      ensures ids[i] != ids[j]
    {
      assert KeyBelow(keys[i], keys[j]);
      assert Selected(owned, keys[i], scope, classID) && Selected(owned, keys[j], scope, classID);
    }
  }

  /** An identifier is listed exactly if an object under it is owned in the scope, or in any scope when the global one
      is asked for, and is an instance of the class, or of any when that is zero. */
  lemma ListedIff(owned: map<Key, Object>, scope: nat, classID: nat, ids: seq<nat>, id: nat)
    requires Lists(owned, scope, classID, ids)
    ensures id in ids <==> exists key :: key in owned && key.id == id
                                         && (scope == key.scope || scope == 0x676C_6F62)
                                         && (classID == 0 || classID in owned[key].classes)
  {
    var keys :| ListsBy(owned, owned.Keys, scope, classID, ids, keys);
    if i :| 0 <= i < |ids| && ids[i] == id {
      assert Selected(owned, keys[i], scope, classID);
    }
    if key :| key in owned && key.id == id && Selected(owned, key, scope, classID) {
      assert key in keys;
      var i :| 0 <= i < |keys| && keys[i] == key;
      assert ids[i] == id;
    }
  }

  /** What is listed for one scope is in increasing order. */
  lemma ScopeListIncreases(owned: map<Key, Object>, scope: nat, classID: nat, ids: seq<nat>)
    requires Lists(owned, scope, classID, ids) && scope != GLOBAL
    ensures forall i, j :: 0 <= i < j < |ids| ==> ids[i] < ids[j]
  {
    var keys :| ListsBy(owned, owned.Keys, scope, classID, ids, keys);
    forall i, j | 0 <= i < j < |ids|
      ensures ids[i] < ids[j]
    {
      assert KeyBelow(keys[i], keys[j]);
      assert Selected(owned, keys[i], scope, classID) && Selected(owned, keys[j], scope, classID);
    }
  }

  /** And what is in a scope with a lower code comes before what is in one with a higher. */
  lemma ScopesInOrder(owned: map<Key, Object>, classID: nat, ids: seq<nat>, k1: Key, k2: Key, i: nat, j: nat)
    requires OneScopeEach(owned) && Lists(owned, GLOBAL, classID, ids)
    requires k1 in owned && k2 in owned && k1.scope < k2.scope
    requires i < |ids| && j < |ids| && ids[i] == k1.id && ids[j] == k2.id
    ensures i < j
  {
    var keys :| ListsBy(owned, owned.Keys, GLOBAL, classID, ids, keys);
    assert Selected(owned, keys[i], GLOBAL, classID) && Selected(owned, keys[j], GLOBAL, classID);
    assert keys[i] == k1 && keys[j] == k2;
  }

  ghost predicate Knows(owned: map<Key, Object>, id: nat) {
    exists key :: key in owned && key.id == id
  }

  ghost predicate IsFirstKey(owned: map<Key, Object>, id: nat, key: Key) {
    key in owned && key.id == id && forall k :: k in owned && k.id == id ==> key.scope <= k.scope
  }

  ghost function FirstKey(owned: map<Key, Object>, id: nat): (key: Key)
    requires Knows(owned, id)
    ensures IsFirstKey(owned, id, key)
  {
    FirstKeyExists(owned, id);
    var key :| IsFirstKey(owned, id, key);
    key
  }

  /** The one object that a removal by identifier is about. */
  ghost function Concerned(owned: map<Key, Object>, id: nat): set<Object> {
    if Knows(owned, id) then {owned[FirstKey(owned, id)]} else {}
  }

  lemma FirstKeyExists(owned: map<Key, Object>, id: nat)
    requires Knows(owned, id)
    ensures exists key :: IsFirstKey(owned, id, key)
  {
    var known :| known in owned && known.id == id;
    var scopes := set k | k in owned && k.id == id :: k.scope;
    assert known.scope in scopes;
    LeastExists(scopes);
    var scope: nat :| IsLeast(scopes, scope);
    var key :| key in owned && key.id == id && key.scope == scope;
    forall k | k in owned && k.id == id
      ensures key.scope <= k.scope
    {
      assert k.scope in scopes;
    }
    assert IsFirstKey(owned, id, key);
  }

  lemma FirstKeyIs(owned: map<Key, Object>, id: nat, key: Key)
    requires IsFirstKey(owned, id, key)
    ensures Knows(owned, id) && FirstKey(owned, id) == key
  {
  }
}
