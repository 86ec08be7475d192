/** Configuration changes of a device, and what running one does. */
module DeviceChanges {

  const COUNTER_LIMIT: nat := 0x1_0000_0000   // numInputStreams_ and numOutputStreams_ are UInt32

  datatype Direction = Input | Output

  datatype Stream = Stream(id: nat, direction: Direction)

  /** A function passed to RequestConfigurationChange: the empty one that is the default argument, those that
      AddStreamAsync and RemoveStreamAsync pass, and one of a client, which does something of its own,
      named by a tag, and then makes further calls: it requests changes, and adds and removes streams. */
  datatype Change =
    | Null
    | AttachStream(stream: Stream)
    | DetachStream(stream: Stream)
    | CallAddStream(stream: Stream)
    | CallRemoveStream(stream: Stream)
    | Client(tag: nat, requests: seq<Change>)

  /** What changes act on: the lists of streams and their index, which say what is wanted, the streams the device
      owns, by scope, the two counters, and, as a history, the client changes that have been run. */
  datatype Config = Config(
    inputs: seq<Stream>, outputs: seq<Stream>, byID: map<nat, Stream>,
    ownedInputs: set<nat>, ownedOutputs: set<nat>,
    numInputs: nat, numOutputs: nat,
    log: seq<nat>)

  /** std::remove followed by erase. */
  function Without(list: seq<Stream>, stream: Stream): seq<Stream> {
    if list == [] then []
    else (if list[0] == stream then [] else [list[0]]) + Without(list[1..], stream)
  }

  /** AddStreamAsync on the lists and the index. */
  function Wanted(c: Config, stream: Stream): Config {
    match stream.direction
    case Input => c.(inputs := c.inputs + [stream], byID := c.byID[stream.id := stream])
    case Output => c.(outputs := c.outputs + [stream], byID := c.byID[stream.id := stream])
  }

  /** RemoveStreamAsync on the lists and the index. */
  function Unwanted(c: Config, stream: Stream): Config {
    match stream.direction
    case Input => c.(inputs := Without(c.inputs, stream), byID := c.byID - {stream.id})
    case Output => c.(outputs := Without(c.outputs, stream), byID := c.byID - {stream.id})
  }

  /** The outcome of running a change: calling an empty std::function throws. */
  datatype Ran = Ran(config: Config, threw: bool)

  function Attached(c: Config, stream: Stream): Config {
    match stream.direction
    case Input =>
      c.(ownedInputs := c.ownedInputs + {stream.id}, numInputs := (c.numInputs + 1) % COUNTER_LIMIT)
    case Output =>
      c.(ownedOutputs := c.ownedOutputs + {stream.id}, numOutputs := (c.numOutputs + 1) % COUNTER_LIMIT)
  }

  /** RemoveOwnedObject goes by the identifier alone and erases it from the first scope that has it. */
  function Detached(c: Config, stream: Stream): Config {
    var counted := match stream.direction
      case Input => c.(numInputs := (c.numInputs + COUNTER_LIMIT - 1) % COUNTER_LIMIT)
      case Output => c.(numOutputs := (c.numOutputs + COUNTER_LIMIT - 1) % COUNTER_LIMIT);
    if stream.id in c.ownedInputs then counted.(ownedInputs := c.ownedInputs - {stream.id})
    else counted.(ownedOutputs := c.ownedOutputs - {stream.id})
  }

  /** Runs a change; all that it requests, by itself or by a call, is applied in place, at once. */
  function Run(change: Change, c: Config): Ran
    decreases change, 1
  {
    match change
    case Null => Ran(c, true)
    case AttachStream(stream) => Ran(Attached(c, stream), false)
    case DetachStream(stream) => Ran(Detached(c, stream), false)
    case CallAddStream(stream) => Ran(Attached(Wanted(c, stream), stream), false)
    case CallRemoveStream(stream) => Ran(Detached(Unwanted(c, stream), stream), false)
    case Client(tag, requests) => RunAll(requests, c.(log := c.log + [tag]))
  }

  function RunAll(changes: seq<Change>, c: Config): Ran
    decreases changes, 0
  {
    if changes == [] then Ran(c, false)
    else
      var first := Run(changes[0], c);
      if first.threw then first else RunAll(changes[1..], first.config)
  }

  lemma RunOne(change: Change, c: Config)
    ensures RunAll([change], c) == Run(change, c)
  {
    var ran := Run(change, c);
    assert [change][1..] == [];
    assert !ran.threw ==> RunAll([], ran.config) == ran;
  }

  /** An empty function is, or is requested by, the change. */
  predicate HasNull(change: Change) {
    match change
    case Null => true
    case Client(_, requests) => exists i :: 0 <= i < |requests| && HasNull(requests[i])
    case _ => false
  }

  /** Running a change throws exactly when there is an empty function in it. */
  lemma {:induction false} ThrowsIffHasNull(change: Change, c: Config)
    ensures Run(change, c).threw <==> HasNull(change)
    decreases change, 1
  {
    if change.Client? {
      AllThrowIffHasNull(change.requests, c.(log := c.log + [change.tag]));
    }
  }

  lemma {:induction false} AllThrowIffHasNull(changes: seq<Change>, c: Config)
    ensures RunAll(changes, c).threw <==> exists i :: 0 <= i < |changes| && HasNull(changes[i])
    decreases changes, 0
  {
    if changes == [] {
    } else {
      ThrowsIffHasNull(changes[0], c);
      var first := Run(changes[0], c);
      AllThrowIffHasNull(changes[1..], first.config);
      assert forall i :: 0 < i < |changes| ==> changes[i] == changes[1..][i - 1];
      if exists i :: 0 <= i < |changes[1..]| && HasNull(changes[1..][i]) {
        var i :| 0 <= i < |changes[1..]| && HasNull(changes[1..][i]);
        assert HasNull(changes[i + 1]);
      }
    }
  }

  /** One of the changes that AddStreamAsync and RemoveStreamAsync request. */
  predicate OfStream(change: Change) {
    change.AttachStream? || change.DetachStream?
  }
}
