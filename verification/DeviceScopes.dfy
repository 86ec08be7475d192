/** The streams a device owns, as the scope maps that every object has: what a detached stream takes from them. */
module DeviceScopes {
  import opened DeviceChanges
  import opened Ownership

  const INPUT_SCOPE: nat := 0x696E_7074    // kAudioObjectPropertyScopeInput, 'inpt'
  const OUTPUT_SCOPE: nat := 0x6F75_7470   // kAudioObjectPropertyScopeOutput, 'outp'

  function ScopeOf(direction: Direction): nat {
    if direction.Input? then INPUT_SCOPE else OUTPUT_SCOPE
  }

  /** The scope maps hold, by their identifiers, the streams that the configuration says are owned. */
  ghost predicate Holds(owned: map<Key, Object>, c: Config) {
    forall key :: key in owned <==>
      || (key.scope == INPUT_SCOPE && key.id in c.ownedInputs)
      || (key.scope == OUTPUT_SCOPE && key.id in c.ownedOutputs)
  }

  /** Adding a stream to its scope is what attaching does. */
  lemma AttachedIsAdded(owned: map<Key, Object>, c: Config, stream: Stream, x: Object)
    requires Holds(owned, c) && x.id == stream.id
    ensures Holds(owned[Key(ScopeOf(stream.direction), x.id) := x], Attached(c, stream))
  {
    var d := Attached(c, stream);
    forall id: nat
      ensures id in d.ownedInputs <==> id in c.ownedInputs || (stream.direction.Input? && id == stream.id)
      ensures id in d.ownedOutputs <==> id in c.ownedOutputs || (stream.direction.Output? && id == stream.id)
    {
    }
  }

  /** Removing by the identifier alone, from the first scope that knows it, is what detaching does, whatever the
      direction of the stream. */
  lemma DetachedIsRemoved(owned: map<Key, Object>, c: Config, stream: Stream)
    requires Holds(owned, c)
    ensures Holds(if Knows(owned, stream.id) then owned - {FirstKey(owned, stream.id)} else owned, Detached(c, stream))
  {
    var id := stream.id;
    if id in c.ownedInputs {
      var key := Key(INPUT_SCOPE, id);
      assert key in owned && key.id == id;
      assert IsFirstKey(owned, id, key);
      FirstKeyIs(owned, id, key);
    } else if id in c.ownedOutputs {
      var key := Key(OUTPUT_SCOPE, id);
      assert key in owned && key.id == id;
      assert IsFirstKey(owned, id, key);
      FirstKeyIs(owned, id, key);
    }
  }
}
