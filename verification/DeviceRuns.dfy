/** What holds of a device over every run of calls: conservation of requests, and wanted versus owned streams. */
module DeviceRuns {
  import opened DeviceChanges
  import opened DeviceQueue

  datatype Op =
    | Publish                       // the context gets its host
    | AttachOwner
    | DetachOwner
    | Request(change: Change)
    | Perform(id: nat)
    | Abort(id: nat)
    | AddStream(stream: Stream)
    | RemoveStream(stream: Stream)

  /** The wanted lists and the index change at once; the change of ownership is requested. */
  function StreamAdded(d: Device, stream: Stream): Result {
    Requested(d.(config := Wanted(d.config, stream)), AttachStream(stream))
  }

  function StreamRemoved(d: Device, stream: Stream): Result {
    Requested(d.(config := Unwanted(d.config, stream)), DetachStream(stream))
  }

  ghost function Do(d: Device, op: Op): Result {
    match op
    case Publish => Result(d.(hasHost := true), false)
    case AttachOwner => Result(OwnerAttached(d), false)
    case DetachOwner => OwnerDetached(d)
    case Request(change) => Requested(d, change)
    case Perform(id) => Performed(d, id)
    case Abort(id) => Result(Aborted(d, id), false)
    case AddStream(stream) => StreamAdded(d, stream)
    case RemoveStream(stream) => StreamRemoved(d, stream)
  }

  const NEW_DEVICE :=
    Device(false, false, 0, map[], 0, Config([], [], map[], {}, {}, 0, 0, []), [], {}, {})

  // ---------------------------------------------------------------- exceptions

  /** The call comes upon an empty function in a place where the code calls it. */
  predicate CallsNull(d: Device, op: Op) {
    match op
    case DetachOwner => d.hasOwner && exists id :: id in d.pending && HasNull(d.pending[id])
    case Request(change) => !Queues(d) && HasNull(change)
    case Perform(id) => id in d.pending && !d.pending[id].Null? && HasNull(d.pending[id])
    case _ => false
  }

  /** A call throws if and only if it comes upon an empty function. */
  lemma ThrowsIffCallsNull(d: Device, op: Op)
    ensures Do(d, op).threw <==> CallsNull(d, op)
  {
    match op
    case DetachOwner => DrainThrowsIffNull(d.(hasOwner := false));
    case Request(change) => ThrowsIffHasNull(change, d.config);
    case Perform(id) =>
      if id in d.pending {
        ThrowsIffHasNull(d.pending[id], d.config);
      }
    case _ =>
  }

  /** Removing a device while an empty request, which the default argument makes, is pending: the drain throws
      and leaves a request pending in a device without an owner. */
  lemma NullRequestBreaksDetach()
    ensures var d := Do(Do(Do(NEW_DEVICE, Publish).device, AttachOwner).device, Request(Null)).device;
      && CallsNull(d, DetachOwner)
      && Do(d, DetachOwner).threw
      && !Do(d, DetachOwner).device.hasOwner && Do(d, DetachOwner).device.pending != map[]
  {
    var d := Do(Do(Do(NEW_DEVICE, Publish).device, AttachOwner).device, Request(Null)).device;
    assert d.pending == map[0 := Null] && 0 in d.pending;
    assert First(d.pending) == 0;
  }

  /** A pending change that comes upon an empty function while HAL performs it is neither executed nor aborted:
      it stays pending, and the device stays inside it. */
  lemma NullRequestSticksInPerform(d: Device, id: nat)
    requires CallsNull(d, Perform(id))
    ensures var d' := Do(d, Perform(id)).device;
      && Do(d, Perform(id)).threw
      && d' == d.(config := d'.config, inside := d.inside + 1)
      && id in d.pending && !d.pending[id].Null? && HasNull(d.pending[id])
  {
    ThrowsIffHasNull(d.pending[id], d.config);
  }

  /** And there is such a change: one that requests the empty function. */
  lemma NullRequestBreaksPerform()
    ensures var d := Do(Do(Do(NEW_DEVICE, Publish).device, AttachOwner).device, Request(Client(7, [Null]))).device;
      CallsNull(d, Perform(0))
  {
    assert HasNull([Null][0]);
  }

  // ---------------------------------------------------------------- conservation of requests

  ghost predicate Distinct(s: seq<nat>) {
    forall i, j :: 0 <= i < j < |s| ==> s[i] != s[j]
  }

  /** In how many of the four ways a request is accounted for. */
  function Places(d: Device, id: nat): nat {
    (if id in d.executed then 1 else 0) + (if id in d.aborted then 1 else 0)
    + (if id in d.ignored then 1 else 0) + (if id in d.pending then 1 else 0)
  }

  /** Every request that was ever queued is exactly one of executed, once, or aborted, or ignored for being
      empty, or pending; and no other identifier is any of these. */
  ghost predicate Conserved(d: Device) {
    && Distinct(d.executed)
    && forall id: nat :: Places(d, id) == if id < d.nextID then 1 else 0
  }

  lemma AppendDistinct(s: seq<nat>, x: nat)
    requires Distinct(s) && x !in s
    ensures Distinct(s + [x])
  {
  }

  lemma SamePlaces(d: Device, d': Device)
    requires Conserved(d)
    requires d' == d.(hasHost := d'.hasHost, hasOwner := d'.hasOwner, inside := d'.inside, config := d'.config)
    ensures Conserved(d')
  {
    assert forall id: nat :: Places(d', id) == Places(d, id);
  }

  lemma ExecutedConserves(d: Device, config: Config, id: nat)
    requires Conserved(d) && id in d.pending
    ensures Conserved(d.(config := config, pending := d.pending - {id}, executed := d.executed + [id]))
  {
    var d' := d.(config := config, pending := d.pending - {id}, executed := d.executed + [id]);
    assert Places(d, id) == 1;
    AppendDistinct(d.executed, id);
    forall k: nat
      ensures Places(d', k) == Places(d, k)
    {
    }
  }

  /** What is left of a drain, and what it ran, account for what there was, even if it throws. */
  lemma {:induction false} DrainConserves(d: Device)
    requires Conserved(d)
    ensures Conserved(Drained(d).device)
    decreases |d.pending|
  {
    if d.pending == map[] {
    } else {
      var id := First(d.pending);
      var ran := Run(d.pending[id], d.config);
      if ran.threw {
        SamePlaces(d, Drained(d).device);
      } else {
        assert (d.pending - {id}).Keys == d.pending.Keys - {id};
        ExecutedConserves(d, ran.config, id);
        DrainConserves(d.(config := ran.config, pending := d.pending - {id}, executed := d.executed + [id]));
      }
    }
  }

  lemma RequestConserves(d: Device, change: Change)
    requires Conserved(d)
    ensures Conserved(Requested(d, change).device)
  {
    if Queues(d) {
      var d' := Requested(d, change).device;
      assert Places(d, d.nextID) == 0;
      forall id: nat
        ensures Places(d', id) == if id < d'.nextID then 1 else 0
      {
        assert Places(d', id) == if id == d.nextID then 1 else Places(d, id);
      }
    } else {
      SamePlaces(d, Requested(d, change).device);
    }
  }

  lemma PerformConserves(d: Device, id: nat)
    requires Conserved(d)
    ensures Conserved(Performed(d, id).device)
  {
    var d' := Performed(d, id).device;
    if id in d.pending && d.pending[id].Null? {
      assert Places(d, id) == 1;
      assert forall k: nat :: Places(d', k) == Places(d, k);
    } else if id in d.pending && !Run(d.pending[id], d.config).threw {
      ExecutedConserves(d, Run(d.pending[id], d.config).config, id);
    } else {
      SamePlaces(d, d');
    }
  }

  lemma AbortConserves(d: Device, id: nat)
    requires Conserved(d)
    ensures Conserved(Aborted(d, id))
  {
    if id in d.pending {
      assert Places(d, id) == 1;
      assert forall k: nat :: Places(Aborted(d, id), k) == Places(d, k);
    }
  }

  /** Every call, whether or not it throws, and whatever was thrown before, keeps the requests conserved. */
  lemma StepConserves(d: Device, op: Op)
    requires Conserved(d)
    ensures Conserved(Do(d, op).device)
  {
    match op
    case Publish => SamePlaces(d, Do(d, op).device);
    case AttachOwner => SamePlaces(d, Do(d, op).device);
    case DetachOwner =>
      SamePlaces(d, d.(hasOwner := false));
      DrainConserves(d.(hasOwner := false));
    case Request(change) => RequestConserves(d, change);
    case Perform(id) => PerformConserves(d, id);
    case Abort(id) => AbortConserves(d, id);
    case AddStream(s) =>
      SamePlaces(d, d.(config := Wanted(d.config, s)));
      RequestConserves(d.(config := Wanted(d.config, s)), AttachStream(s));
    case RemoveStream(s) =>
      SamePlaces(d, d.(config := Unwanted(d.config, s)));
      RequestConserves(d.(config := Unwanted(d.config, s)), DetachStream(s));
  }

  // ---------------------------------------------------------------- the queue is attended to

  /** Requests wait only while HAL knows the device, and between calls the device is not inside a change. */
  ghost predicate Quiet(d: Device) {
    d.inside == 0 && (d.pending != map[] ==> d.hasHost && d.hasOwner)
  }

  lemma AttendedStep(d: Device, op: Op)
    requires Quiet(d) && !CallsNull(d, op)
    ensures Quiet(Do(d, op).device)
  {
    ThrowsIffCallsNull(d, op);
    if op.DetachOwner? {
      ThrownDrainLeavesSome(d.(hasOwner := false));
    }
  }

  /** Exactly when performing a request or detaching comes upon an empty function, the queue is left
      unattended: the device is stuck inside a change, or requests are pending without an owner. */
  lemma QuietUnlessNull(d: Device, op: Op)
    requires Quiet(d)
    ensures Quiet(Do(d, op).device) <==> !(CallsNull(d, op) && (op.Perform? || op.DetachOwner?))
  {
    if !CallsNull(d, op) {
      AttendedStep(d, op);
    } else if op.DetachOwner? {
      ThrowsIffCallsNull(d, op);
      ThrownDrainLeavesSome(d.(hasOwner := false));
    } else if op.Perform? {
      NullRequestSticksInPerform(d, op.id);
    }
  }

  /** A HAL call for a request that is no longer pending, such as one that was drained at detach, does nothing. */
  lemma LatePerformDoesNothing(d: Device, id: nat)
    requires Conserved(d) && (id in d.executed || id in d.aborted || id in d.ignored || d.nextID <= id)
    ensures Do(d, Perform(id)) == Result(d, false)
    ensures Do(d, Abort(id)) == Result(d, false)
  {
    assert Places(d, id) == if id < d.nextID then 1 else 0;
  }

  lemma PendingBelow(d: Device)
    requires Conserved(d)
    ensures forall id :: id in d.pending ==> id < d.nextID
  {
    forall id | id in d.pending
      ensures id < d.nextID
    {
      assert Places(d, id) == if id < d.nextID then 1 else 0;
    }
  }

  /** A change requested from outside another change is applied in place only when nothing is pending: it
      never overtakes an earlier one. Otherwise it is queued behind all of them. */
  lemma NoOvertaking(d: Device, change: Change)
    requires Conserved(d) && Quiet(d)
    ensures !Queues(d) ==> d.pending == map[]
    ensures Queues(d) ==>
      && Do(d, Request(change)).device.config == d.config
      && d.nextID in Do(d, Request(change)).device.pending
      && forall id :: id in d.pending ==> id < d.nextID
  {
    PendingBelow(d);
  }

  /** Detaching runs the pending requests, all of them, lowest identifier first, and nothing else. */
  lemma DetachRunsPendingInOrder(d: Device)
    requires Conserved(d) && d.hasOwner && !CallsNull(d, DetachOwner)
    ensures Increasing(Order(d.pending)) && Elements(Order(d.pending)) == d.pending.Keys
    ensures Do(d, DetachOwner) ==
      Result(d.(hasOwner := false, pending := map[], executed := d.executed + Order(d.pending),
                config := Replay(d.pending, 0, d.nextID, d.config)), false)
  {
    PendingBelow(d);
    OrderIncreases(d.pending);
    DrainRunsAllInOrder(d.(hasOwner := false), d.nextID);
    DrainThrowsIffNull(d.(hasOwner := false));
  }

  /** Or, if there is an empty function among them, exactly those before the first change that has one. */
  lemma DetachRunsUpToNull(d: Device) returns (stop: nat)
    requires CallsNull(d, DetachOwner)
    ensures FirstNull(d.pending, stop)
    ensures Do(d, DetachOwner) ==
      Result(d.(hasOwner := false, pending := NotBefore(d.pending, stop),
                executed := d.executed + Order(Before(d.pending, stop)),
                config := Run(d.pending[stop], Replay(d.pending, 0, stop, d.config)).config), true)
  {
    FirstNullExists(d.pending);
    stop :| FirstNull(d.pending, stop);
    DrainRunsUpToNull(d.(hasOwner := false), stop);
  }

  // ---------------------------------------------------------------- whole runs

  /** A run of calls, from a new device. A call that throws leaves the device to the next one as it is then. */
  ghost predicate IsRun(states: seq<Device>, ops: seq<Op>) {
    && |states| == |ops| + 1
    && states[0] == NEW_DEVICE
    && forall k: nat :: k < |ops| ==> StepAt(states, ops, k)
  }

  ghost predicate StepAt(states: seq<Device>, ops: seq<Op>, k: nat) {
    k < |ops| && k + 1 < |states| && states[k + 1] == Do(states[k], ops[k]).device
  }

  lemma {:induction false} RequestsConserved(states: seq<Device>, ops: seq<Op>, k: nat)
    requires IsRun(states, ops) && k < |states|
    ensures Conserved(states[k])
  {
    if k == 0 {
      assert forall id: nat :: Places(NEW_DEVICE, id) == 0;
    } else {
      RequestsConserved(states, ops, k - 1);
      assert StepAt(states, ops, k - 1);
      StepConserves(states[k - 1], ops[k - 1]);
    }
  }

  /** Call `k` comes upon no empty function, unless it is a request that throws in the face of its caller. */
  ghost predicate HarmlessAt(states: seq<Device>, ops: seq<Op>, k: nat) {
    k < |ops| && k < |states| && (CallsNull(states[k], ops[k]) ==> ops[k].Request?)
  }

  /** As long as no performed or drained request comes upon an empty function, and only so long, requests are
      pending only while the device has its host and owner, and no change is in progress between calls. */
  lemma {:induction false} RequestsAttended(states: seq<Device>, ops: seq<Op>, k: nat)
    requires IsRun(states, ops) && k < |states|
    requires forall i: nat :: i + 1 < k ==> HarmlessAt(states, ops, i)
    ensures Quiet(states[k]) <==> k == 0 || HarmlessAt(states, ops, k - 1)
  {
    if k == 0 {
    } else {
      assert k > 1 ==> HarmlessAt(states, ops, k - 2);
      RequestsAttended(states, ops, k - 1);
      assert StepAt(states, ops, k - 1);
      QuietUnlessNull(states[k - 1], ops[k - 1]);
    }
  }

  // ---------------------------------------------------------------- whole runs with empty functions

  /** A drain never gets past an empty function, and it neither requests nor aborts anything. */
  lemma {:induction false} DrainKeepsNull(d: Device, id: nat)
    ensures id in d.pending && HasNull(d.pending[id]) ==>
      id in Drained(d).device.pending && Drained(d).device.pending[id] == d.pending[id]
    ensures Drained(d).device.nextID == d.nextID && Drained(d).device.aborted == d.aborted
    decreases |d.pending|
  {
    if d.pending == map[] {
    } else {
      var first := First(d.pending);
      ThrowsIffHasNull(d.pending[first], d.config);
      var ran := Run(d.pending[first], d.config);
      if !ran.threw {
        assert (d.pending - {first}).Keys == d.pending.Keys - {first};
        DrainKeepsNull(
          d.(config := ran.config, pending := d.pending - {first}, executed := d.executed + [first]), id);
      }
    }
  }

  /** Only an abort takes a change with an empty function in it from the queue. */
  lemma NullLeavesByAbort(d: Device, op: Op, id: nat)
    requires Conserved(d) && id in d.pending && !d.pending[id].Null? && HasNull(d.pending[id])
    ensures var d' := Do(d, op).device;
      if op == Abort(id) then id in d'.aborted else id in d'.pending && d'.pending[id] == d.pending[id]
  {
    PendingBelow(d);
    match op
    case DetachOwner => DrainKeepsNull(d.(hasOwner := false), id);
    case Perform(other) =>
      if other == id {
        ThrowsIffHasNull(d.pending[id], d.config);
      }
    case _ =>
  }

  lemma AbortedStays(d: Device, op: Op)
    ensures d.aborted <= Do(d, op).device.aborted
  {
    if op.DetachOwner? {
      DrainKeepsNull(d.(hasOwner := false), 0);
    }
  }

  ghost predicate AbortedWithin(ops: seq<Op>, i: nat, j: nat, id: nat)
    requires j <= |ops|
  {
    exists k :: i <= k < j && ops[k] == Abort(id)
  }

  /** From then on it is pending, unchanged, in exactly the states before the first abort, through detaching and
      any number of attempts to perform it. */
  lemma {:induction false} NullStaysUntilAborted(states: seq<Device>, ops: seq<Op>, i: nat, j: nat, id: nat)
    requires IsRun(states, ops) && i <= j < |states|
    requires id in states[i].pending && !states[i].pending[id].Null? && HasNull(states[i].pending[id])
    ensures id in states[j].pending <==> !AbortedWithin(ops, i, j, id)
    ensures id in states[j].pending ==> states[j].pending[id] == states[i].pending[id]
    ensures id !in states[j].pending ==> id in states[j].aborted
    decreases j
  {
    if j == i {
    } else {
      var d, op := states[j - 1], ops[j - 1];
      NullStaysUntilAborted(states, ops, i, j - 1, id);
      RequestsConserved(states, ops, j - 1);
      RequestsConserved(states, ops, j);
      assert StepAt(states, ops, j - 1);
      if id in d.pending {
        NullLeavesByAbort(d, op, id);
      } else {
        AbortedStays(d, op);
      }
      assert Places(states[j], id) == if id < states[j].nextID then 1 else 0;
    }
  }

  lemma StepStuckInside(d: Device, op: Op)
    requires d.inside > 0
    ensures var d' := Do(d, op).device; d'.inside > 0 && d'.nextID == d.nextID
  {
    if op.DetachOwner? {
      ThrownDrainLeavesSome(d.(hasOwner := false));
      DrainKeepsNull(d.(hasOwner := false), 0);
    }
  }

  /** Once a call of PerformConfigurationChange has thrown, the device is inside it forever: nothing is ever queued
      again, so that every later change is applied in place. */
  lemma {:induction false} NeverQueuesAgain(states: seq<Device>, ops: seq<Op>, i: nat, j: nat)
    requires IsRun(states, ops) && i < |ops| && i < j < |states|
    requires ops[i].Perform? && CallsNull(states[i], ops[i])
    ensures states[j].inside > 0 && !Queues(states[j]) && states[j].nextID == states[i].nextID
    decreases j
  {
    assert StepAt(states, ops, j - 1);
    if j == i + 1 {
      NullRequestSticksInPerform(states[i], ops[i].id);
    } else {
      NeverQueuesAgain(states, ops, i, j - 1);
      StepStuckInside(states[j - 1], ops[j - 1]);
    }
  }
}
