/** When requests take effect, and in which order what they consist of does. */
module DeviceEffects {
  import opened DeviceChanges
  import opened DeviceQueue
  import opened DeviceRuns

  /** HAL knows the device, and no change is being performed. */
  predicate Visible(d: Device) {
    d.hasHost && d.hasOwner && d.inside == 0
  }

  /** The two configurations own and count the same streams, and the same functions of clients have been called. */
  predicate SameApplied(c: Config, d: Config) {
    && c.ownedInputs == d.ownedInputs && c.ownedOutputs == d.ownedOutputs
    && c.numInputs == d.numInputs && c.numOutputs == d.numOutputs && c.log == d.log
  }

  predicate Requests(op: Op) {
    op.Request? || op.AddStream? || op.RemoveStream?
  }

  function RequestOf(op: Op): Change
    requires Requests(op)
  {
    match op
    case Request(change) => change
    case AddStream(stream) => AttachStream(stream)
    case RemoveStream(stream) => DetachStream(stream)
  }

  /** The configuration when the request is made: a stream is listed or taken from the lists before. */
  function ConfigFor(c: Config, op: Op): Config {
    match op
    case AddStream(stream) => Wanted(c, stream)
    case RemoveStream(stream) => Unwanted(c, stream)
    case _ => c
  }

  /** Every request of a visible device waits for HAL: it runs nothing and throws nothing, and is pending, as it is,
      under the next identifier. */
  lemma RequestWaits(d: Device, op: Op)
    requires Visible(d) && Requests(op)
    ensures var r := Do(d, op);
      && !r.threw && SameApplied(r.device.config, d.config)
      && r.device == d.(pending := d.pending[d.nextID := RequestOf(op)], nextID := d.nextID + 1,
                        config := ConfigFor(d.config, op))
    ensures op.Request? ==> Do(d, op).device.config == d.config
  {
  }

  /** Every request of any other device has been run when the call returns, and nothing is queued. */
  lemma RequestRuns(d: Device, op: Op)
    requires !Visible(d) && Requests(op)
    ensures var r, ran := Do(d, op), Run(RequestOf(op), ConfigFor(d.config, op));
      r.threw == ran.threw && r.device == d.(config := ran.config)
  {
  }

  /** Performing a pending request calls its function, and takes it from the queue unless that throws; nothing else
      is called and nothing else leaves the queue. */
  lemma PerformTakes(d: Device, id: nat)
    requires id in d.pending
    ensures var r := Do(d, Perform(id));
      && r.threw == (!d.pending[id].Null? && HasNull(d.pending[id]))
      && r.device.pending == (if r.threw then d.pending else d.pending - {id})
      && r.device.executed == d.executed + (if r.threw || d.pending[id].Null? then [] else [id])
      && r.device.config.log == d.config.log + Tags(d.pending[id])
      && r.device.inside == d.inside + if r.threw then 1 else 0
  {
    ThrowsIffHasNull(d.pending[id], d.config);
    LogIsInOrder(d.pending[id], d.config);
  }

  // ---------------------------------------------------------------- the order of nested functions

  /** The functions of clients in a change, each before those it requests, up to an empty function. */
  function Tags(change: Change): seq<nat>
    decreases change, 1
  {
    match change
    case Client(tag, requests) => [tag] + AllTags(requests)
    case _ => []
  }

  function AllTags(changes: seq<Change>): seq<nat>
    decreases changes, 0
  {
    if changes == [] then []
    else Tags(changes[0]) + if HasNull(changes[0]) then [] else AllTags(changes[1..])
  }

  /** They are called in that order, at whatever depth they are requested. */
  lemma {:induction false} LogIsInOrder(change: Change, c: Config)
    ensures Run(change, c).config.log == c.log + Tags(change)
    decreases change, 1
  {
    match change
    case Client(tag, requests) =>
      AllLogged(requests, c.(log := c.log + [tag]));
      assert c.log + [tag] + AllTags(requests) == c.log + Tags(change);
    case _ =>
  }

  lemma LogsJoin(a: seq<nat>, b: seq<nat>, c: seq<nat>)
    ensures a + b + c == a + (b + c)
  {
  }

  lemma {:induction false} AllLogged(changes: seq<Change>, c: Config)
    ensures RunAll(changes, c).config.log == c.log + AllTags(changes)
    decreases changes, 0
  {
    if changes == [] {
    } else {
      var first := Run(changes[0], c);
      LogIsInOrder(changes[0], c);
      ThrowsIffHasNull(changes[0], c);
      if first.threw {
        assert AllTags(changes) == Tags(changes[0]) + [] == Tags(changes[0]);
      } else {
        AllLogged(changes[1..], first.config);
        assert AllTags(changes) == Tags(changes[0]) + AllTags(changes[1..]);
        LogsJoin(c.log, Tags(changes[0]), AllTags(changes[1..]));
      }
    }
  }

  // ---------------------------------------------------------------- the order of the lists

  /** Taking a stream from a list, wherever it is, leaves the others in their order. */
  lemma {:induction false} WithoutJoins(first: seq<Stream>, second: seq<Stream>, stream: Stream)
    ensures Without(first + [stream] + second, stream) == Without(first, stream) + Without(second, stream)
    ensures stream !in first ==> Without(first, stream) == first
    decreases |first|
  {
    if first == [] {
      assert first + [stream] + second == [stream] + second;
    } else {
      WithoutJoins(first[1..], second, stream);
      assert first + [stream] + second == [first[0]] + (first[1..] + [stream] + second);
    }
  }

  // ---------------------------------------------------------------- whole runs

  /** Calls by which HAL, or the removal of the device, has changes run. */
  predicate Applies(op: Op) {
    op.Perform? || op.DetachOwner?
  }

  lemma OtherCallsApplyNothing(d: Device, op: Op)
    requires Visible(d) && !Applies(op)
    ensures Visible(Do(d, op).device) && SameApplied(Do(d, op).device.config, d.config)
    ensures Do(d, op).device.executed == d.executed && !Do(d, op).threw
  {
    if Requests(op) {
      RequestWaits(d, op);
    }
  }

  /** In every run, while the device has its host and its owner, and unless a performed change has thrown, nothing
      but HAL's Perform and the detach changes the streams that are owned or counted, or calls a function. */
  lemma OnlyHALApplies(states: seq<Device>, ops: seq<Op>, k: nat)
    requires IsRun(states, ops) && k < |ops| && !Applies(ops[k])
    requires states[k].hasHost && states[k].hasOwner
    requires forall i: nat :: i < k ==> HarmlessAt(states, ops, i)
    ensures SameApplied(states[k + 1].config, states[k].config) && states[k + 1].executed == states[k].executed
  {
    assert k > 0 ==> HarmlessAt(states, ops, k - 1);
    RequestsAttended(states, ops, k);
    assert StepAt(states, ops, k);
    OtherCallsApplyNothing(states[k], ops[k]);
  }

  /** So what is requested from state `i` to state `j` without such a call in between is still to be applied. */
  lemma {:induction false} NothingAppliedBetween(states: seq<Device>, ops: seq<Op>, i: nat, j: nat)
    requires IsRun(states, ops) && i <= j < |states| && Visible(states[i])
    requires forall k :: i <= k < j ==> !Applies(ops[k])
    ensures Visible(states[j]) && SameApplied(states[j].config, states[i].config)
    ensures states[j].executed == states[i].executed
    decreases j
  {
    if i == j {
    } else {
      NothingAppliedBetween(states, ops, i, j - 1);
      assert StepAt(states, ops, j - 1);
      OtherCallsApplyNothing(states[j - 1], ops[j - 1]);
    }
  }
}
