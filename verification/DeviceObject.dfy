/** The device object: its methods do what the model of the queue says. */
module DeviceObject {
  import opened Options
  import opened Least
  import opened DeviceChanges
  import opened DeviceEffects
  import Q = DeviceQueue
  import R = DeviceRuns

  class Device {
    var hasHost: bool
    var hasOwner: bool
    var insideConfigurationHandler: nat
    var pendingConfigurationRequests: map<nat, Change>
    var lastConfigurationRequestID: nat
    var inputs: seq<Stream>
    var outputs: seq<Stream>
    var streamByID: map<nat, Stream>
    var ownedInputs: set<nat>
    var ownedOutputs: set<nat>
    var numInputStreams: nat
    var numOutputStreams: nat
    ghost var log: seq<nat>
    ghost var executed: seq<nat>
    ghost var aborted: set<nat>
    ghost var ignored: set<nat>

    ghost function Configuration(): Config
      reads this
    {
      Config(inputs, outputs, streamByID, ownedInputs, ownedOutputs, numInputStreams, numOutputStreams, log)
    }

    ghost function View(): Q.Device
      reads this
    {
      Q.Device(hasHost, hasOwner, insideConfigurationHandler,
               pendingConfigurationRequests, lastConfigurationRequestID,
               Configuration(), executed, aborted, ignored)
    }

    constructor ()
      ensures View() == R.NEW_DEVICE
    {
      hasHost, hasOwner, insideConfigurationHandler := false, false, 0;
      pendingConfigurationRequests, lastConfigurationRequestID := map[], 0;
      inputs, outputs, streamByID := [], [], map[];
      ownedInputs, ownedOutputs, numInputStreams, numOutputStreams := {}, {}, 0, 0;
      log, executed, aborted, ignored := [], [], {}, {};
    }

    /** The stream and its counter, in the function that AddStreamAsync requests. */
    method AttachNow(stream: Stream)
      modifies this`ownedInputs, this`ownedOutputs, this`numInputStreams, this`numOutputStreams
      ensures Configuration() == Attached(old(Configuration()), stream)
    {
      if stream.direction.Input? {
        numInputStreams := (numInputStreams + 1) % COUNTER_LIMIT;
        ownedInputs := ownedInputs + {stream.id};
      } else {
        numOutputStreams := (numOutputStreams + 1) % COUNTER_LIMIT;
        ownedOutputs := ownedOutputs + {stream.id};
      }
    }

    /** And in the one that RemoveStreamAsync requests. */
    method DetachNow(stream: Stream)
      modifies this`ownedInputs, this`ownedOutputs, this`numInputStreams, this`numOutputStreams
      ensures Configuration() == Detached(old(Configuration()), stream)
    {
      if stream.direction.Input? {
        numInputStreams := (numInputStreams + COUNTER_LIMIT - 1) % COUNTER_LIMIT;
      } else {
        numOutputStreams := (numOutputStreams + COUNTER_LIMIT - 1) % COUNTER_LIMIT;
      }
      if stream.id in ownedInputs {
        ownedInputs := ownedInputs - {stream.id};
      } else {
        ownedOutputs := ownedOutputs - {stream.id};
      }
    }

    method AddToLists(s: Stream)
      modifies this`inputs, this`outputs, this`streamByID
      ensures Configuration() == Wanted(old(Configuration()), s)
    {
      if s.direction.Input? {
        inputs := inputs + [s];
      } else {
        outputs := outputs + [s];
      }
      streamByID := streamByID[s.id := s];
    }

    method RemoveFromLists(s: Stream)
      modifies this`inputs, this`outputs, this`streamByID
      ensures Configuration() == Unwanted(old(Configuration()), s)
    {
      if s.direction.Input? {
        inputs := Without(inputs, s);
      } else {
        outputs := Without(outputs, s);
      }
      streamByID := streamByID - {s.id};
    }

    /** Calls the function of a change. All it requests is applied in place, because HAL is not to see it. */
    method RunChange(change: Change) returns (threw: bool)
      requires !Q.Queues(View())
      modifies this`inputs, this`outputs, this`streamByID
      modifies this`ownedInputs, this`ownedOutputs, this`numInputStreams, this`numOutputStreams, this`log
      ensures Configuration() == Run(change, old(Configuration())).config
      ensures threw == Run(change, old(Configuration())).threw
      decreases change, 0
    {
      threw := false;
      match change
      case Null =>
        threw := true;
      case AttachStream(stream) =>
        AttachNow(stream);
      case DetachStream(stream) =>
        DetachNow(stream);
      case CallAddStream(stream) =>
        AddToLists(stream);
        AttachNow(stream);
      case CallRemoveStream(stream) =>
        RemoveFromLists(stream);
        DetachNow(stream);
      case Client(tag, requests) =>
        log := log + [tag];
        var i := 0;
        while i < |requests|
          invariant i <= |requests| && !threw
          invariant RunAll(requests[i..], Configuration())
                 == RunAll(requests, old(Configuration()).(log := old(log) + [tag]))
        {
          assert requests[i..][1..] == requests[i + 1..];
          threw := RunChange(requests[i]);
          if threw {
            return;
          }
          i := i + 1;
        }
    }

    method RequestConfigurationChange(change: Change) returns (threw: bool)
      modifies this
      ensures Q.Result(View(), threw) == Q.Requested(old(View()), change)
      ensures old(hasHost && hasOwner && insideConfigurationHandler == 0) ==>
        && !threw && Configuration() == old(Configuration())
        && pendingConfigurationRequests == old(pendingConfigurationRequests)[old(lastConfigurationRequestID) := change]
      ensures old(!(hasHost && hasOwner && insideConfigurationHandler == 0)) ==>
        && pendingConfigurationRequests == old(pendingConfigurationRequests)
        && log == old(log) + Tags(change)
    {
      if hasHost && hasOwner && insideConfigurationHandler == 0 {
        var reqID := lastConfigurationRequestID;
        lastConfigurationRequestID := lastConfigurationRequestID + 1;
        pendingConfigurationRequests := pendingConfigurationRequests[reqID := change];
        threw := false;
      } else {
        threw := RunChange(change);
        LogIsInOrder(change, old(Configuration()));
      }
    }

    /** Calls the function of a pending request, which must not be empty. */
    method RunPending(reqID: nat) returns (threw: bool)
      requires reqID in pendingConfigurationRequests && insideConfigurationHandler > 0
      modifies this
      ensures var ran := Run(old(pendingConfigurationRequests[reqID]), old(Configuration()));
        && threw == ran.threw
        && View() == old(View()).(config := ran.config, executed := executed)
        && executed == old(executed) + if threw then [] else [reqID]
    {
      threw := RunChange(pendingConfigurationRequests[reqID]);
      if !threw {
        executed := executed + [reqID];
      }
    }

    /** Without a function to call, only the entry goes, also the one that operator[] makes. */
    method ForgetRequest(reqID: nat)
      modifies this`pendingConfigurationRequests, this`ignored
      ensures View() == old(View()).(pending := old(pendingConfigurationRequests) - {reqID},
        ignored := old(ignored) + if reqID in old(pendingConfigurationRequests) then {reqID} else {})
    {
      ghost var before := pendingConfigurationRequests;
      if reqID !in pendingConfigurationRequests {
        pendingConfigurationRequests := pendingConfigurationRequests[reqID := Null];
      } else {
        ignored := ignored + {reqID};
      }
      pendingConfigurationRequests := pendingConfigurationRequests - {reqID};
      assert pendingConfigurationRequests == before - {reqID};
    }

    method PerformConfigurationChange(reqID: nat) returns (threw: bool)
      modifies this
      ensures Q.Result(View(), threw) == Q.Performed(old(View()), reqID)
    {
      ghost var before := View();
      insideConfigurationHandler := insideConfigurationHandler + 1;
      threw := false;
      if reqID in pendingConfigurationRequests && pendingConfigurationRequests[reqID] != Null {
        threw := RunPending(reqID);
        if threw {
          return;
        }
        pendingConfigurationRequests := pendingConfigurationRequests - {reqID};
      } else {
        ForgetRequest(reqID);
        assert reqID !in before.pending ==> before.pending - {reqID} == before.pending;
      }
      insideConfigurationHandler := insideConfigurationHandler - 1;
    }

    method AbortConfigurationChange(reqID: nat)
      modifies this
      ensures View() == Q.Aborted(old(View()), reqID)
    {
      if reqID in pendingConfigurationRequests {
        aborted := aborted + {reqID};
      }
      pendingConfigurationRequests := pendingConfigurationRequests - {reqID};
    }

    /** begin() of the ordered map. */
    method FirstPending() returns (reqID: nat)
      requires pendingConfigurationRequests != map[]
      ensures reqID == Q.First(pendingConfigurationRequests)
    {
      LeastExists(pendingConfigurationRequests.Keys);
      reqID :| reqID in pendingConfigurationRequests && IsLeast(pendingConfigurationRequests.Keys, reqID);
    }

    /** One pass of the draining loop. The entry goes only after its function has returned. */
    method ApplyFirst() returns (threw: bool)
      requires !hasOwner && pendingConfigurationRequests != map[]
      modifies this
      ensures !hasOwner && Q.Drained(old(View())) == if threw then Q.Result(View(), true) else Q.Drained(View())
      ensures !threw ==> |pendingConfigurationRequests| < |old(pendingConfigurationRequests)|
    {
      var reqID := FirstPending();
      ghost var before := View();
      threw := RunChange(pendingConfigurationRequests[reqID]);
      if !threw {
        assert (pendingConfigurationRequests - {reqID}).Keys == pendingConfigurationRequests.Keys - {reqID};
        pendingConfigurationRequests := pendingConfigurationRequests - {reqID};
        executed := executed + [reqID];
      }
      DrainedUnfolds(before, reqID);
    }

    method DrainPending() returns (threw: bool)
      requires !hasOwner
      modifies this
      ensures Q.Result(View(), threw) == Q.Drained(old(View()))
    {
      threw := false;
      while pendingConfigurationRequests != map[]
        invariant !hasOwner && !threw
        invariant Q.Drained(View()) == Q.Drained(old(View()))
        decreases |pendingConfigurationRequests|
      {
        threw := ApplyFirst();
        if threw {
          return;
        }
      }
    }

    method RequestOwnershipChange(shouldHaveOwnership: bool) returns (threw: bool)
      modifies this
      ensures shouldHaveOwnership ==> !threw && View() == Q.OwnerAttached(old(View()))
      ensures !shouldHaveOwnership ==> Q.Result(View(), threw) == Q.OwnerDetached(old(View()))
    {
      threw := false;
      if shouldHaveOwnership {
        if hasOwner {
          return;
        }
        hasOwner := true;
      } else {
        if !hasOwner {
          return;
        }
        hasOwner := false;
        threw := DrainPending();
      }
    }

    method AddStreamAsync(stream: Option<Stream>) returns (threw: bool)
      modifies this
      ensures stream.None? ==> !threw && View() == old(View())
      ensures stream.Some? ==> Q.Result(View(), threw) == R.StreamAdded(old(View()), stream.value)
      ensures stream.Some? ==>
        && inputs == old(inputs) + (if stream.value.direction.Input? then [stream.value] else [])
        && outputs == old(outputs) + (if stream.value.direction.Output? then [stream.value] else [])
    {
      if stream.None? {
        return false;
      }
      var s := stream.value;
      AddToLists(s);
      threw := RequestConfigurationChange(AttachStream(s));
    }

    method RemoveStreamAsync(stream: Option<Stream>) returns (threw: bool)
      modifies this
      ensures stream.None? ==> !threw && View() == old(View())
      ensures stream.Some? ==> Q.Result(View(), threw) == R.StreamRemoved(old(View()), stream.value)
    {
      if stream.None? {
        return false;
      }
      var s := stream.value;
      RemoveFromLists(s);
      threw := RequestConfigurationChange(DetachStream(s));
    }
  }

  lemma DrainedUnfolds(d: Q.Device, id: nat)
    requires d.pending != map[] && id == Q.First(d.pending)
    ensures var ran := Run(d.pending[id], d.config);
      Q.Drained(d) == if ran.threw then Q.Result(d.(config := ran.config), true)
                      else Q.Drained(d.(config := ran.config, pending := d.pending - {id},
                                        executed := d.executed + [id]))
  {
  }
}
