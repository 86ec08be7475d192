/** Wanted streams and owned streams: replaying the pending stream requests over what the device owns
    always leads to what its lists say, also while clients' functions add and remove streams. */
module DeviceStreams {
  import opened DeviceChanges
  import opened DeviceQueue
  import opened DeviceRuns

  ghost function Ids(list: seq<Stream>): set<nat> {
    set i | 0 <= i < |list| :: list[i].id
  }

  ghost predicate DistinctIds(list: seq<Stream>) {
    forall i, j :: 0 <= i < j < |list| ==> list[i].id != list[j].id
  }

  ghost predicate AllOf(list: seq<Stream>, direction: Direction) {
    forall i :: 0 <= i < |list| ==> list[i].direction == direction
  }

  /** streamByID_ indexes exactly the streams of the two lists. */
  ghost predicate Indexed(inputs: seq<Stream>, outputs: seq<Stream>, byID: map<nat, Stream>) {
    && DistinctIds(inputs) && DistinctIds(outputs)
    && AllOf(inputs, Input) && AllOf(outputs, Output)
    && (forall s :: s in inputs || s in outputs ==> s.id in byID && byID[s.id] == s)
    && (forall id :: id in byID ==> byID[id].id == id && (byID[id] in inputs || byID[id] in outputs))
  }

  ghost predicate ListsIndexed(c: Config) {
    Indexed(c.inputs, c.outputs, c.byID)
  }

  /** The device owns exactly the streams of its lists, and the counters say how many. */
  ghost predicate OwnsWanted(c: Config) {
    && c.ownedInputs == Ids(c.inputs) && c.ownedOutputs == Ids(c.outputs)
    && c.numInputs == |c.inputs| % COUNTER_LIMIT && c.numOutputs == |c.outputs| % COUNTER_LIMIT
  }

  /** The pending requests that AddStreamAsync and RemoveStreamAsync made. */
  ghost function StreamRequests(pending: map<nat, Change>): map<nat, Change> {
    map id | id in pending && OfStream(pending[id]) :: pending[id]
  }

  ghost predicate AllOfStreams(requests: map<nat, Change>) {
    forall id :: id in requests ==> OfStream(requests[id])
  }

  /** Such a request for the stream is pending. */
  ghost predicate Busy(requests: map<nat, Change>, stream: Stream) {
    exists id :: id in requests && OfStream(requests[id]) && requests[id].stream.id == stream.id
  }

  /** Replaying the requests over what is owned yields exactly the wanted streams. */
  ghost predicate Settles(c: Config, requests: map<nat, Change>, hi: nat) {
    ListsIndexed(c) && OwnsWanted(Replay(requests, 0, hi, c))
  }

  ghost predicate StreamInv(d: Device) {
    Settles(d.config, StreamRequests(d.pending), d.nextID)
  }

  /** A client's function, when it is run, adds only streams that are absent and removes only streams that are
      present, and touches none for which a request is pending; and so do the functions it requests. */
  ghost predicate Tidy(change: Change, c: Config, requests: map<nat, Change>)
    decreases change, 1
  {
    match change
    case Null => true
    case AttachStream(_) => false
    case DetachStream(_) => false
    case CallAddStream(s) => s.id !in c.byID && !Busy(requests, s)
    case CallRemoveStream(s) => s.id in c.byID && c.byID[s.id] == s && !Busy(requests, s)
    case Client(tag, changes) => AllTidy(changes, c.(log := c.log + [tag]), requests)
  }

  ghost predicate AllTidy(changes: seq<Change>, c: Config, requests: map<nat, Change>)
    decreases changes, 0
  {
    if changes == [] then true
    else
      && Tidy(changes[0], c, requests)
      && (Run(changes[0], c).threw || AllTidy(changes[1..], Run(changes[0], c).config, requests))
  }

  /** Each client's function among the pending ones is tidy at the time the drain runs it. */
  ghost predicate DrainTidy(d: Device)
    decreases |d.pending|
  {
    if d.pending == map[] then true
    else
      var id := First(d.pending);
      var ran := Run(d.pending[id], d.config);
      assert |d.pending - {id}| < |d.pending| by { assert (d.pending - {id}).Keys == d.pending.Keys - {id}; }
      && (OfStream(d.pending[id]) || Tidy(d.pending[id], d.config, StreamRequests(d.pending)))
      && (ran.threw || DrainTidy(d.(config := ran.config, pending := d.pending - {id}, executed := d.executed + [id])))
  }

  /** No earlier request for the same stream is pending. */
  ghost predicate FirstOfStream(requests: map<nat, Change>, id: nat)
    requires id in requests && AllOfStreams(requests)
  {
    forall k :: k in requests && k < id ==> requests[k].stream.id != requests[id].stream.id
  }

  /** The runs this is about: a stream is added only while absent and removed only while present, clients' functions
      are tidy when they run, and HAL performs the requests for one stream in the order of their identifiers and
      aborts none. A call whose request cannot be queued is made only while none is pending for the stream. */
  ghost predicate Orderly(d: Device, op: Op) {
    var requests := StreamRequests(d.pending);
    match op
    case AddStream(s) => s.id !in d.config.byID && (Queues(d) || !Busy(requests, s))
    case RemoveStream(s) =>
      s.id in d.config.byID && d.config.byID[s.id] == s && (Queues(d) || !Busy(requests, s))
    case Request(change) => if Queues(d) then !OfStream(change) else Tidy(change, d.config, requests)
    case Perform(id) =>
      id in d.pending ==>
        if OfStream(d.pending[id]) then FirstOfStream(requests, id) else Tidy(d.pending[id], d.config, requests)
    case Abort(id) => id in d.pending ==> !OfStream(d.pending[id])
    case DetachOwner => d.hasOwner ==> DrainTidy(d.(hasOwner := false))
    case _ => true
  }

  // ---------------------------------------------------------------- lists

  lemma {:induction false} WithoutElements(list: seq<Stream>, stream: Stream)
    ensures forall s :: s in Without(list, stream) <==> s in list && s != stream
  {
    if list == [] {
    } else {
      WithoutElements(list[1..], stream);
    }
  }

  lemma {:induction false} WithoutAbsent(list: seq<Stream>, stream: Stream)
    requires stream !in list
    ensures Without(list, stream) == list
  {
    if list == [] {
    } else {
      WithoutAbsent(list[1..], stream);
    }
  }

  lemma {:induction false} WithoutOne(list: seq<Stream>, stream: Stream)
    requires DistinctIds(list) && stream in list
    ensures |Without(list, stream)| == |list| - 1
    ensures DistinctIds(Without(list, stream))
    ensures Ids(Without(list, stream)) == Ids(list) - {stream.id}
  {
    var tail := list[1..];
    assert list == [list[0]] + tail;
    assert DistinctIds(tail);
    if list[0] == stream {
      assert stream !in tail;
      WithoutAbsent(tail, stream);
      IdsCons(list[0], tail);
      assert Without(list, stream) == tail;
    } else {
      assert stream in tail;
      WithoutOne(tail, stream);
      var rest := Without(tail, stream);
      WithoutElements(tail, stream);
      IdsCons(list[0], tail);
      IdsCons(list[0], rest);
      assert Without(list, stream) == [list[0]] + rest;
      assert stream.id != list[0].id;
      assert list[0].id !in Ids(tail);
    }
  }

  lemma IdsCons(s: Stream, tail: seq<Stream>)
    ensures Ids([s] + tail) == {s.id} + Ids(tail)
    ensures DistinctIds(tail) && s.id !in Ids(tail) ==> DistinctIds([s] + tail)
  {
    forall id | id in {s.id} + Ids(tail)
      ensures id in Ids([s] + tail)
    {
      if id == s.id {
        assert ([s] + tail)[0].id == id;
      } else {
        var i :| 0 <= i < |tail| && tail[i].id == id;
        assert ([s] + tail)[i + 1].id == id;
      }
    }
  }

  lemma IdsAppend(list: seq<Stream>, s: Stream)
    ensures Ids(list + [s]) == Ids(list) + {s.id}
    ensures DistinctIds(list) && s.id !in Ids(list) ==> DistinctIds(list + [s])
  {
    forall id | id in Ids(list) + {s.id}
      ensures id in Ids(list + [s])
    {
      if id in Ids(list) {
        var i :| 0 <= i < |list| && list[i].id == id;
        assert (list + [s])[i].id == id;
      } else {
        assert (list + [s])[|list|].id == id;
      }
    }
  }

  lemma IdsMembers(list: seq<Stream>, id: nat)
    ensures id in Ids(list) <==> exists s :: s in list && s.id == id
  {
    if id in Ids(list) {
      var i :| 0 <= i < |list| && list[i].id == id;
      assert list[i] in list;
    }
  }

  // ---------------------------------------------------------------- the index

  lemma AddIndexed(inputs: seq<Stream>, outputs: seq<Stream>, byID: map<nat, Stream>, s: Stream)
    requires Indexed(inputs, outputs, byID) && s.id !in byID
    ensures s.direction.Input? ==> Indexed(inputs + [s], outputs, byID[s.id := s])
    ensures s.direction.Output? ==> Indexed(inputs, outputs + [s], byID[s.id := s])
    ensures s.id !in Ids(inputs) && s.id !in Ids(outputs)
  {
    IdsMembers(inputs, s.id);
    IdsMembers(outputs, s.id);
    IdsAppend(inputs, s);
    IdsAppend(outputs, s);
  }

  lemma RemoveIndexed(inputs: seq<Stream>, outputs: seq<Stream>, byID: map<nat, Stream>, s: Stream)
    requires Indexed(inputs, outputs, byID) && s.id in byID && byID[s.id] == s
    ensures s.direction.Input? ==> s in inputs && Indexed(Without(inputs, s), outputs, byID - {s.id})
    ensures s.direction.Output? ==> s in outputs && Indexed(inputs, Without(outputs, s), byID - {s.id})
    ensures s.direction.Output? ==> s.id !in Ids(inputs)
  {
    WithoutElements(inputs, s);
    WithoutElements(outputs, s);
    IdsMembers(inputs, s.id);
    if s.direction.Input? {
      WithoutOne(inputs, s);
    } else {
      WithoutOne(outputs, s);
    }
  }

  // ---------------------------------------------------------------- the configuration

  lemma CounterDown(n: nat)
    requires 0 < n
    ensures (n % COUNTER_LIMIT + COUNTER_LIMIT - 1) % COUNTER_LIMIT == (n - 1) % COUNTER_LIMIT
  {
  }

  /** Adding a stream, and owning it in the end, keeps what is owned in the end what is wanted. */
  lemma AddOwns(c: Config, s: Stream)
    requires ListsIndexed(c) && OwnsWanted(c) && s.id !in c.byID
    ensures ListsIndexed(Wanted(c, s)) && OwnsWanted(Attached(Wanted(c, s), s))
  {
    AddIndexed(c.inputs, c.outputs, c.byID, s);
    IdsAppend(c.inputs, s);
    IdsAppend(c.outputs, s);
  }

  lemma RemoveOwns(c: Config, s: Stream)
    requires ListsIndexed(c) && OwnsWanted(c) && s.id in c.byID && c.byID[s.id] == s
    ensures ListsIndexed(Unwanted(c, s)) && OwnsWanted(Detached(Unwanted(c, s), s))
  {
    RemoveIndexed(c.inputs, c.outputs, c.byID, s);
    if s.direction.Input? {
      RemoveOwnsIn(c.ownedInputs, c.numInputs, c.inputs, s);
    } else {
      RemoveOwnsIn(c.ownedOutputs, c.numOutputs, c.outputs, s);
    }
  }

  lemma RemoveOwnsIn(owned: set<nat>, count: nat, list: seq<Stream>, s: Stream)
    requires DistinctIds(list) && s in list && owned == Ids(list) && count == |list| % COUNTER_LIMIT
    ensures s.id in owned && owned - {s.id} == Ids(Without(list, s))
    ensures (count + COUNTER_LIMIT - 1) % COUNTER_LIMIT == |Without(list, s)| % COUNTER_LIMIT
  {
    IdsMembers(list, s.id);
    WithoutOne(list, s);
    CounterDown(|list|);
  }

  // ---------------------------------------------------------------- replaying

  /** Two configurations with the same lists, index and log. */
  predicate SameLists(c: Config, d: Config) {
    c.inputs == d.inputs && c.outputs == d.outputs && c.byID == d.byID && c.log == d.log
  }

  lemma {:induction false} ReplayKeepsLists(requests: map<nat, Change>, k: nat, hi: nat, c: Config)
    requires AllOfStreams(requests)
    ensures SameLists(Replay(requests, k, hi, c), c)
    decreases hi - k
  {
    if hi <= k {
    } else {
      ReplayKeepsLists(requests, k + 1, hi, if k in requests then Run(requests[k], c).config else c);
    }
  }

  function Relisted(c: Config, s: Stream, add: bool): Config {
    if add then Wanted(c, s) else Unwanted(c, s)
  }

  function Reowned(c: Config, s: Stream, add: bool): Config {
    if add then Attached(c, s) else Detached(c, s)
  }

  /** What a call of a client does to lists and ownership at once. */
  function Called(c: Config, s: Stream, add: bool): Config {
    Reowned(Relisted(c, s, add), s, add)
  }

  /** Lists and ownership have nothing to do with each other. */
  lemma RelistCommutes(c: Config, s: Stream, add: bool, t: Stream, attach: bool)
    ensures Reowned(Relisted(c, s, add), t, attach) == Relisted(Reowned(c, t, attach), s, add)
  {
    if attach {
      assert Attached(Relisted(c, s, add), t) == Relisted(Attached(c, t), s, add);
    } else {
      assert Detached(Relisted(c, s, add), t) == Relisted(Detached(c, t), s, add);
    }
  }

  lemma AttachAttach(c: Config, s: Stream, t: Stream)
    ensures Attached(Attached(c, s), t) == Attached(Attached(c, t), s)
  {
    assert c.ownedInputs + {s.id} + {t.id} == c.ownedInputs + {t.id} + {s.id};
    assert c.ownedOutputs + {s.id} + {t.id} == c.ownedOutputs + {t.id} + {s.id};
  }

  /** Counting up and down, modulo 2^32, can be done in either order. */
  lemma UpAndDown(n: nat)
    ensures ((n + 1) % COUNTER_LIMIT + COUNTER_LIMIT - 1) % COUNTER_LIMIT
         == ((n + COUNTER_LIMIT - 1) % COUNTER_LIMIT + 1) % COUNTER_LIMIT
  {
  }

  lemma DetachAttach(c: Config, s: Stream, t: Stream)
    requires s.id != t.id
    ensures Attached(Detached(c, s), t) == Detached(Attached(c, t), s)
  {
    if s.direction == t.direction {
      UpAndDown(c.numInputs);
      UpAndDown(c.numOutputs);
    }
    if t.direction.Input? {
      assert c.ownedInputs + {t.id} - {s.id} == c.ownedInputs - {s.id} + {t.id};
    } else {
      assert c.ownedOutputs + {t.id} - {s.id} == c.ownedOutputs - {s.id} + {t.id};
    }
  }

  lemma DetachDetach(c: Config, s: Stream, t: Stream)
    requires s.id != t.id
    ensures Detached(Detached(c, s), t) == Detached(Detached(c, t), s)
  {
    if s.id in c.ownedInputs && t.id in c.ownedInputs {
      assert c.ownedInputs - {t.id} - {s.id} == c.ownedInputs - {s.id} - {t.id};
    } else if s.id !in c.ownedInputs && t.id !in c.ownedInputs {
      assert c.ownedOutputs - {t.id} - {s.id} == c.ownedOutputs - {s.id} - {t.id};
    }
  }

  lemma ReownCommutes(c: Config, s: Stream, add: bool, t: Stream, attach: bool)
    requires s.id != t.id
    ensures Reowned(Reowned(c, s, add), t, attach) == Reowned(Reowned(c, t, attach), s, add)
  {
    if add && attach {
      AttachAttach(c, s, t);
    } else if attach {
      DetachAttach(c, s, t);
    } else if add {
      DetachAttach(c, t, s);
    } else {
      DetachDetach(c, s, t);
    }
  }

  lemma StreamRequestReowns(c: Config, change: Change)
    requires OfStream(change)
    ensures Run(change, c).config == Reowned(c, change.stream, change.AttachStream?)
  {
  }

  /** The ways of a stream and those of another do not meet. */
  lemma CallCommutes(c: Config, s: Stream, add: bool, t: Stream, attach: bool)
    requires t.id != s.id
    ensures Reowned(Called(c, s, add), t, attach) == Called(Reowned(c, t, attach), s, add)
  {
    RelistCommutes(c, s, add, t, attach);
    ReownCommutes(Relisted(c, s, add), s, add, t, attach);
  }

  /** So a call for a stream without pending requests can as well be made after all of them. */
  lemma {:induction false} ReplayCalled(requests: map<nat, Change>, k: nat, hi: nat, c: Config, s: Stream, add: bool)
    requires AllOfStreams(requests) && !Busy(requests, s)
    ensures Replay(requests, k, hi, Called(c, s, add)) == Called(Replay(requests, k, hi, c), s, add)
    decreases hi - k
  {
    if hi <= k {
    } else {
      if k in requests {
        var t, attach := requests[k].stream, requests[k].AttachStream?;
        StreamRequestReowns(c, requests[k]);
        StreamRequestReowns(Called(c, s, add), requests[k]);
        CallCommutes(c, s, add, t, attach);
      }
      ReplayCalled(requests, k + 1, hi, if k in requests then Run(requests[k], c).config else c, s, add);
    }
  }

  /** And a request can as well be performed ahead of earlier ones for other streams. */
  lemma {:induction false} ReplayAhead(requests: map<nat, Change>, k: nat, hi: nat, c: Config, id: nat)
    requires AllOfStreams(requests) && id in requests && k <= id < hi && FirstOfStream(requests, id)
    ensures Replay(requests, k, hi, c) == Replay(requests - {id}, k, hi, Run(requests[id], c).config)
    decreases hi - k
  {
    if k == id {
      ReplaySame(requests, requests - {id}, k + 1, hi, Run(requests[id], c).config);
    } else if k in requests {
      RequestsCommute(c, requests[k], requests[id]);
      ReplayAhead(requests, k + 1, hi, Run(requests[k], c).config, id);
    } else {
      ReplayAhead(requests, k + 1, hi, c, id);
    }
  }

  lemma RequestsCommute(c: Config, first: Change, second: Change)
    requires OfStream(first) && OfStream(second) && first.stream.id != second.stream.id
    ensures Run(second, Run(first, c).config).config == Run(first, Run(second, c).config).config
  {
    StreamRequestReowns(c, first);
    StreamRequestReowns(c, second);
    StreamRequestReowns(Run(first, c).config, second);
    StreamRequestReowns(Run(second, c).config, first);
    ReownCommutes(c, first.stream, first.AttachStream?, second.stream, second.AttachStream?);
  }

  /** The log has no part in it. */
  lemma {:induction false} ReplayLogged(requests: map<nat, Change>, k: nat, hi: nat, c: Config, log: seq<nat>)
    requires AllOfStreams(requests)
    ensures Replay(requests, k, hi, c.(log := log)) == Replay(requests, k, hi, c).(log := log)
    decreases hi - k
  {
    if hi <= k {
    } else {
      ReplayLogged(requests, k + 1, hi, if k in requests then Run(requests[k], c).config else c, log);
    }
  }

  // ---------------------------------------------------------------- clients' functions

  lemma CallSettles(c: Config, requests: map<nat, Change>, hi: nat, s: Stream, add: bool)
    requires AllOfStreams(requests) && Settles(c, requests, hi) && !Busy(requests, s)
    requires if add then s.id !in c.byID else s.id in c.byID && c.byID[s.id] == s
    ensures Settles(Called(c, s, add), requests, hi)
  {
    ReplayCalled(requests, 0, hi, c, s, add);
    ReplayKeepsLists(requests, 0, hi, c);
    if add {
      AddOwns(Replay(requests, 0, hi, c), s);
    } else {
      RemoveOwns(Replay(requests, 0, hi, c), s);
    }
  }

  /** A tidy function, run in place ahead of the pending requests, keeps what they lead to in agreement. */
  lemma {:induction false} TidySettles(change: Change, c: Config, requests: map<nat, Change>, hi: nat)
    requires AllOfStreams(requests) && Settles(c, requests, hi) && Tidy(change, c, requests)
    ensures Settles(Run(change, c).config, requests, hi)
    decreases change, 1
  {
    match change
    case Null =>
    case CallAddStream(s) => CallSettles(c, requests, hi, s, true);
    case CallRemoveStream(s) => CallSettles(c, requests, hi, s, false);
    case Client(tag, changes) =>
      ReplayLogged(requests, 0, hi, c, c.log + [tag]);
      AllTidySettle(changes, c.(log := c.log + [tag]), requests, hi);
  }

  lemma {:induction false} AllTidySettle(changes: seq<Change>, c: Config, requests: map<nat, Change>, hi: nat)
    requires AllOfStreams(requests) && Settles(c, requests, hi) && AllTidy(changes, c, requests)
    ensures Settles(RunAll(changes, c).config, requests, hi)
    decreases changes, 0
  {
    if changes == [] {
    } else {
      TidySettles(changes[0], c, requests, hi);
      if !Run(changes[0], c).threw {
        AllTidySettle(changes[1..], Run(changes[0], c).config, requests, hi);
      }
    }
  }

  // ---------------------------------------------------------------- the queue

  /** A stream request that is queued ends up last in what the queue leads to. */
  lemma QueuedReplays(d: Device, change: Change, c: Config)
    requires Conserved(d) && Queues(d) && OfStream(change)
    ensures var d' := Requested(d, change).device;
      Replay(StreamRequests(d'.pending), 0, d'.nextID, c)
      == Run(change, Replay(StreamRequests(d.pending), 0, d.nextID, c)).config
  {
    var requests, requests' := StreamRequests(d.pending), StreamRequests(Requested(d, change).device.pending);
    ReplayLast(requests', 0, d.nextID, c);
    ReplaySame(requests', requests, 0, d.nextID, c);
  }

  lemma StreamRequested(d: Device, s: Stream, add: bool)
    requires Conserved(d) && StreamInv(d) && (Queues(d) || !Busy(StreamRequests(d.pending), s))
    requires if add then s.id !in d.config.byID else s.id in d.config.byID && d.config.byID[s.id] == s
    ensures StreamInv((if add then StreamAdded(d, s) else StreamRemoved(d, s)).device)
  {
    var requests := StreamRequests(d.pending);
    if Queues(d) {
      var wanted := if add then Wanted(d.config, s) else Unwanted(d.config, s);
      var change := if add then AttachStream(s) else DetachStream(s);
      SamePlaces(d, d.(config := wanted));
      QueuedReplays(d.(config := wanted), change, wanted);
      RelistedSettles(d.config, requests, d.nextID, s, add);
    } else {
      CallSettles(d.config, requests, d.nextID, s, add);
    }
  }

  /** The lists have no part in the replay either. */
  lemma {:induction false} ReplayRelisted(requests: map<nat, Change>, k: nat, hi: nat, c: Config, s: Stream, add: bool)
    requires AllOfStreams(requests)
    ensures Replay(requests, k, hi, Relisted(c, s, add)) == Relisted(Replay(requests, k, hi, c), s, add)
    decreases hi - k
  {
    if hi <= k {
    } else {
      if k in requests {
        StreamRequestReowns(c, requests[k]);
        StreamRequestReowns(Relisted(c, s, add), requests[k]);
        RelistCommutes(c, s, add, requests[k].stream, requests[k].AttachStream?);
      }
      ReplayRelisted(requests, k + 1, hi, if k in requests then Run(requests[k], c).config else c, s, add);
    }
  }

  lemma RelistedSettles(c: Config, requests: map<nat, Change>, hi: nat, s: Stream, add: bool)
    requires AllOfStreams(requests) && Settles(c, requests, hi)
    requires if add then s.id !in c.byID else s.id in c.byID && c.byID[s.id] == s
    ensures ListsIndexed(Relisted(c, s, add))
    ensures OwnsWanted(Run(if add then AttachStream(s) else DetachStream(s),
                           Replay(requests, 0, hi, Relisted(c, s, add))).config)
  {
    ReplayRelisted(requests, 0, hi, c, s, add);
    ReplayKeepsLists(requests, 0, hi, c);
    if add {
      AddOwns(Replay(requests, 0, hi, c), s);
    } else {
      RemoveOwns(Replay(requests, 0, hi, c), s);
    }
  }

  lemma WithoutRequest(pending: map<nat, Change>, id: nat)
    requires id in pending
    ensures StreamRequests(pending - {id}) ==
            if OfStream(pending[id]) then StreamRequests(pending) - {id} else StreamRequests(pending)
  {
  }

  /** Running a pending change ahead of the others, the first request for a stream or a tidy function. */
  lemma RunSettles(pending: map<nat, Change>, hi: nat, c: Config, id: nat)
    requires id in pending && id < hi && Settles(c, StreamRequests(pending), hi)
    requires if OfStream(pending[id]) then FirstOfStream(StreamRequests(pending), id)
             else Tidy(pending[id], c, StreamRequests(pending))
    ensures Settles(Run(pending[id], c).config, StreamRequests(pending - {id}), hi)
    ensures !OfStream(pending[id]) ==> Settles(Run(pending[id], c).config, StreamRequests(pending), hi)
  {
    WithoutRequest(pending, id);
    if OfStream(pending[id]) {
      ReplayAhead(StreamRequests(pending), 0, hi, c, id);
    } else {
      TidySettles(pending[id], c, StreamRequests(pending), hi);
    }
  }

  lemma PerformSettles(d: Device, id: nat)
    requires Conserved(d) && StreamInv(d) && Orderly(d, Perform(id))
    ensures StreamInv(Performed(d, id).device)
  {
    if id in d.pending {
      PendingBelow(d);
      if d.pending[id].Null? {
        WithoutRequest(d.pending, id);
      } else {
        ThrowsIffHasNull(d.pending[id], d.config);
        RunSettles(d.pending, d.nextID, d.config, id);
      }
    }
  }

  lemma {:induction false} DrainSettles(d: Device)
    requires StreamInv(d) && DrainTidy(d) && forall id :: id in d.pending ==> id < d.nextID
    ensures StreamInv(Drained(d).device)
    decreases |d.pending|
  {
    if d.pending == map[] {
    } else {
      var id := First(d.pending);
      var ran := Run(d.pending[id], d.config);
      ThrowsIffHasNull(d.pending[id], d.config);
      RunSettles(d.pending, d.nextID, d.config, id);
      if !ran.threw {
        assert (d.pending - {id}).Keys == d.pending.Keys - {id};
        DrainSettles(d.(config := ran.config, pending := d.pending - {id}, executed := d.executed + [id]));
      }
    }
  }

  lemma RequestSettles(d: Device, change: Change)
    requires StreamInv(d) && Orderly(d, Request(change)) && Conserved(d)
    ensures StreamInv(Requested(d, change).device)
  {
    var requests := StreamRequests(d.pending);
    if Queues(d) {
      var d' := Requested(d, change).device;
      assert d.nextID !in d.pending by { PendingBelow(d); }
      assert StreamRequests(d'.pending) == requests;
      ReplayLast(requests, 0, d.nextID, d.config);
    } else {
      TidySettles(change, d.config, requests, d.nextID);
    }
  }

  lemma StepKeepsStreams(d: Device, op: Op)
    requires StreamInv(d) && Conserved(d) && Orderly(d, op)
    ensures StreamInv(Do(d, op).device)
  {
    match op
    case AddStream(s) => StreamRequested(d, s, true);
    case RemoveStream(s) => StreamRequested(d, s, false);
    case Request(change) => RequestSettles(d, change);
    case Perform(id) => PerformSettles(d, id);
    case Abort(id) =>
      if id in d.pending {
        WithoutRequest(d.pending, id);
      }
    case DetachOwner =>
      PendingBelow(d);
      if d.hasOwner {
        DrainSettles(d.(hasOwner := false));
      }
    case _ =>
  }

  /** In every orderly run, also one in which calls throw, replaying the pending stream requests over what the device
      owns yields exactly the streams its lists want, with the right counts, and the index by identifier
      covers exactly those lists. */
  lemma {:induction false} WantedIsOwnedPlusPending(states: seq<Device>, ops: seq<Op>, k: nat)
    requires IsRun(states, ops) && k < |states|
    requires forall i: nat :: i < |ops| && StepAt(states, ops, i) ==> Orderly(states[i], ops[i])
    ensures StreamInv(states[k])
  {
    if k == 0 {
      assert states[0] == NEW_DEVICE;
    } else {
      WantedIsOwnedPlusPending(states, ops, k - 1);
      RequestsConserved(states, ops, k - 1);
      assert StepAt(states, ops, k - 1);
      StepKeepsStreams(states[k - 1], ops[k - 1]);
    }
  }

  /** In particular, once no stream request is pending, as after a detach, the device owns exactly the streams
      it wants. */
  lemma SettledMeansOwned(states: seq<Device>, ops: seq<Op>, k: nat)
    requires IsRun(states, ops) && k < |states| && StreamRequests(states[k].pending) == map[]
    requires forall i: nat :: i < |ops| && StepAt(states, ops, i) ==> Orderly(states[i], ops[i])
    ensures ListsIndexed(states[k].config) && OwnsWanted(states[k].config)
  {
    WantedIsOwnedPlusPending(states, ops, k);
    ReplayNothing(map[], 0, states[k].nextID, states[k].config);
  }
}
