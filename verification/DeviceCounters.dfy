/** The two stream counters, in runs in which HAL performs and aborts requests as it likes. */
module DeviceCounters {
  import opened DeviceChanges
  import opened DeviceQueue
  import opened DeviceRuns
  import opened DeviceStreams

  function Count(c: Config, direction: Direction): nat {
    if direction.Input? then c.numInputs else c.numOutputs
  }

  function Listed(c: Config, direction: Direction): nat {
    if direction.Input? then |c.inputs| else |c.outputs|
  }

  /** What a pending request will do to the counter, and what all of those from `k` up to `hi` will. */
  function Weight(change: Change, direction: Direction): int {
    if !OfStream(change) || change.stream.direction != direction then 0
    else if change.AttachStream? then 1
    else -1
  }

  function Net(pending: map<nat, Change>, k: nat, hi: nat, direction: Direction): int
    decreases hi - k
  {
    if hi <= k then 0
    else (if k in pending then Weight(pending[k], direction) else 0) + Net(pending, k + 1, hi, direction)
  }

  /** The counter counts the streams of its list when `due` more are counted, modulo 2^32. */
  ghost predicate Counts(c: Config, due: int, direction: Direction) {
    (Count(c, direction) + due - Listed(c, direction)) % COUNTER_LIMIT == 0
  }

  lemma {:induction false} NetSame(p: map<nat, Change>, q: map<nat, Change>, k: nat, hi: nat, direction: Direction)
    requires forall j :: k <= j < hi ==>
      (if j in p then Weight(p[j], direction) else 0) == if j in q then Weight(q[j], direction) else 0
    ensures Net(p, k, hi, direction) == Net(q, k, hi, direction)
    decreases hi - k
  {
    if hi <= k {
    } else {
      NetSame(p, q, k + 1, hi, direction);
    }
  }

  lemma {:induction false} NetWithout(p: map<nat, Change>, k: nat, hi: nat, id: nat, direction: Direction)
    requires id in p && k <= id < hi
    ensures Net(p - {id}, k, hi, direction) == Net(p, k, hi, direction) - Weight(p[id], direction)
    decreases hi - k
  {
    if k == id {
      NetSame(p, p - {id}, k + 1, hi, direction);
    } else {
      NetWithout(p, k + 1, hi, id, direction);
    }
  }

  lemma {:induction false} NetNext(p: map<nat, Change>, k: nat, hi: nat, change: Change, direction: Direction)
    requires k <= hi
    ensures Net(p[hi := change], k, hi + 1, direction) == Net(p, k, hi, direction) + Weight(change, direction)
    decreases hi - k
  {
    if k == hi {
    } else {
      NetNext(p, k + 1, hi, change, direction);
    }
  }

  lemma {:induction false} NetNone(p: map<nat, Change>, k: nat, hi: nat, direction: Direction)
    requires StreamRequests(p) == map[]
    ensures Net(p, k, hi, direction) == 0
    decreases hi - k
  {
    if hi <= k {
    } else {
      assert k in p && OfStream(p[k]) ==> k in StreamRequests(p);
      NetNone(p, k + 1, hi, direction);
    }
  }

  lemma CountedUp(n: nat, rest: int)
    requires (n + rest) % COUNTER_LIMIT == 0
    ensures ((n + 1) % COUNTER_LIMIT + rest - 1) % COUNTER_LIMIT == 0
  {
  }

  lemma CountedDown(n: nat, rest: int)
    requires (n + rest) % COUNTER_LIMIT == 0
    ensures ((n + COUNTER_LIMIT - 1) % COUNTER_LIMIT + rest + 1) % COUNTER_LIMIT == 0
  {
  }

  lemma RequestCounts(c: Config, change: Change, due: int, direction: Direction)
    requires OfStream(change) && Counts(c, due, direction)
    ensures Counts(Run(change, c).config, due - Weight(change, direction), direction)
  {
    if change.stream.direction == direction {
      if change.AttachStream? {
        CountedUp(Count(c, direction), due - Listed(c, direction));
      } else {
        CountedDown(Count(c, direction), due - Listed(c, direction));
      }
    }
  }

  // ---------------------------------------------------------------- one abort

  lemma {:induction false} ReplayCounts(requests: map<nat, Change>, k: nat, hi: nat, c: Config, due: int,
                                        direction: Direction)
    requires AllOfStreams(requests) && Counts(c, due, direction)
    ensures Counts(Replay(requests, k, hi, c), due - Net(requests, k, hi, direction), direction)
    decreases hi - k
  {
    if hi <= k {
    } else if k in requests {
      RequestCounts(c, requests[k], due, direction);
      ReplayCounts(requests, k + 1, hi, Run(requests[k], c).config, due - Weight(requests[k], direction), direction);
    } else {
      ReplayCounts(requests, k + 1, hi, c, due, direction);
    }
  }

  lemma NotByOne(n: int, weight: int)
    requires n % COUNTER_LIMIT == 0 && (weight == 1 || weight == -1)
    ensures (n + weight) % COUNTER_LIMIT != 0
  {
  }

  /** What is owned in the end is miscounted without one of the requests. */
  lemma AbortMiscounts(c: Config, requests: map<nat, Change>, hi: nat, id: nat)
    requires AllOfStreams(requests) && id in requests && id < hi
    requires Settles(c, requests, hi)
    ensures !OwnsWanted(Replay(requests - {id}, 0, hi, c))
  {
    var direction := requests[id].stream.direction;
    var end, end' := Replay(requests, 0, hi, c), Replay(requests - {id}, 0, hi, c);
    var due := Listed(c, direction) - Count(c, direction);
    ReplayCounts(requests, 0, hi, c, due, direction);
    ReplayCounts(requests - {id}, 0, hi, c, due, direction);
    ReplayKeepsLists(requests, 0, hi, c);
    ReplayKeepsLists(requests - {id}, 0, hi, c);
    NetWithout(requests, 0, hi, id, direction);
    var rest := due - Net(requests, 0, hi, direction) - Listed(c, direction);
    NotByOne(Count(end, direction) + rest, Weight(requests[id], direction));
  }

  /** When HAL aborts a request, owned and wanted streams stay in agreement exactly if it is not a pending
      request of AddStreamAsync or RemoveStreamAsync. */
  lemma AbortKeepsIff(d: Device, id: nat)
    requires Conserved(d) && StreamInv(d)
    ensures StreamInv(Aborted(d, id)) <==> !(id in d.pending && OfStream(d.pending[id]))
  {
    if id in d.pending {
      WithoutRequest(d.pending, id);
      PendingBelow(d);
      if OfStream(d.pending[id]) {
        AbortMiscounts(d.config, StreamRequests(d.pending), d.nextID, id);
      }
    }
  }

  // ---------------------------------------------------------------- whole runs

  /** A stream is added only while absent from the lists and removed only while present. HAL may perform and abort
      requests in any order, and clients' functions may touch streams that have requests pending. */
  ghost predicate Careful(d: Device, op: Op) {
    match op
    case AddStream(s) => s.id !in d.config.byID
    case RemoveStream(s) => s.id in d.config.byID && d.config.byID[s.id] == s
    case Request(change) => if Queues(d) then !OfStream(change) else Tidy(change, d.config, map[])
    case Perform(id) => id in d.pending && !OfStream(d.pending[id]) ==> Tidy(d.pending[id], d.config, map[])
    case DetachOwner => d.hasOwner ==> DrainCareful(d.(hasOwner := false))
    case _ => true
  }

  ghost predicate DrainCareful(d: Device)
    decreases |d.pending|
  {
    if d.pending == map[] then true
    else
      var id := First(d.pending);
      var ran := Run(d.pending[id], d.config);
      assert |d.pending - {id}| < |d.pending| by { assert (d.pending - {id}).Keys == d.pending.Keys - {id}; }
      && (OfStream(d.pending[id]) || Tidy(d.pending[id], d.config, map[]))
      && (ran.threw || DrainCareful(
            d.(config := ran.config, pending := d.pending - {id}, executed := d.executed + [id])))
  }

  /** Index and lists agree, and the counter counts its list once what is pending, and what has been lost by
      aborting, is counted too. */
  ghost predicate Balanced(d: Device, lost: int, direction: Direction) {
    ListsIndexed(d.config) && Counts(d.config, Net(d.pending, 0, d.nextID, direction) + lost, direction)
  }

  lemma ListedBy(c: Config, s: Stream, add: bool, direction: Direction)
    requires ListsIndexed(c) && if add then s.id !in c.byID else s.id in c.byID && c.byID[s.id] == s
    ensures ListsIndexed(Relisted(c, s, add))
    ensures Listed(Relisted(c, s, add), direction)
         == Listed(c, direction) + if direction != s.direction then 0 else if add then 1 else -1
  {
    if add {
      AddIndexed(c.inputs, c.outputs, c.byID, s);
    } else {
      RemoveIndexed(c.inputs, c.outputs, c.byID, s);
      if s.direction.Input? {
        WithoutOne(c.inputs, s);
      } else {
        WithoutOne(c.outputs, s);
      }
    }
  }

  /** Lists and counter change together. */
  lemma CallCounts(c: Config, s: Stream, add: bool, due: int, direction: Direction)
    requires ListsIndexed(c) && if add then s.id !in c.byID else s.id in c.byID && c.byID[s.id] == s
    requires Counts(c, due, direction)
    ensures ListsIndexed(Called(c, s, add)) && Counts(Called(c, s, add), due, direction)
  {
    var change := if add then AttachStream(s) else DetachStream(s);
    ListedBy(c, s, add, direction);
    StreamRequestReowns(Relisted(c, s, add), change);
    RequestCounts(Relisted(c, s, add), change, due + Weight(change, direction), direction);
  }

  lemma {:induction false} TidyCounts(change: Change, c: Config, due: int, direction: Direction)
    requires ListsIndexed(c) && Tidy(change, c, map[]) && Counts(c, due, direction)
    ensures ListsIndexed(Run(change, c).config) && Counts(Run(change, c).config, due, direction)
    decreases change, 1
  {
    match change
    case Null =>
    case CallAddStream(s) => CallCounts(c, s, true, due, direction);
    case CallRemoveStream(s) => CallCounts(c, s, false, due, direction);
    case Client(tag, changes) => AllTidyCount(changes, c.(log := c.log + [tag]), due, direction);
  }

  lemma {:induction false} AllTidyCount(changes: seq<Change>, c: Config, due: int, direction: Direction)
    requires ListsIndexed(c) && AllTidy(changes, c, map[]) && Counts(c, due, direction)
    ensures ListsIndexed(RunAll(changes, c).config) && Counts(RunAll(changes, c).config, due, direction)
    decreases changes, 0
  {
    if changes == [] {
    } else {
      TidyCounts(changes[0], c, due, direction);
      if !Run(changes[0], c).threw {
        AllTidyCount(changes[1..], Run(changes[0], c).config, due, direction);
      }
    }
  }

  lemma QueuedBalanced(d: Device, config: Config, change: Change, lost: int, direction: Direction)
    requires Queues(d) && Counts(d.config, Net(d.pending, 0, d.nextID, direction) + lost, direction)
    requires ListsIndexed(config) && Count(config, direction) == Count(d.config, direction)
    requires Listed(config, direction) == Listed(d.config, direction) + Weight(change, direction)
    ensures Balanced(Requested(d.(config := config), change).device, lost, direction)
  {
    NetNext(d.pending, 0, d.nextID, change, direction);
  }

  lemma AddBalanced(d: Device, s: Stream, lost: int, direction: Direction)
    requires Balanced(d, lost, direction) && s.id !in d.config.byID
    ensures Balanced(StreamAdded(d, s).device, lost, direction)
  {
    if Queues(d) {
      ListedBy(d.config, s, true, direction);
      QueuedBalanced(d, Wanted(d.config, s), AttachStream(s), lost, direction);
    } else {
      CallCounts(d.config, s, true, Net(d.pending, 0, d.nextID, direction) + lost, direction);
    }
  }

  lemma RemoveBalanced(d: Device, s: Stream, lost: int, direction: Direction)
    requires Balanced(d, lost, direction) && s.id in d.config.byID && d.config.byID[s.id] == s
    ensures Balanced(StreamRemoved(d, s).device, lost, direction)
  {
    if Queues(d) {
      ListedBy(d.config, s, false, direction);
      QueuedBalanced(d, Unwanted(d.config, s), DetachStream(s), lost, direction);
    } else {
      CallCounts(d.config, s, false, Net(d.pending, 0, d.nextID, direction) + lost, direction);
    }
  }

  /** Running a pending change and taking it from the queue. */
  lemma RunBalanced(d: Device, id: nat, lost: int, direction: Direction)
    requires Balanced(d, lost, direction) && id in d.pending && id < d.nextID
    requires !OfStream(d.pending[id]) ==> Tidy(d.pending[id], d.config, map[])
    ensures var ran := Run(d.pending[id], d.config);
      && (ran.threw ==> Balanced(d.(config := ran.config), lost, direction))
      && Balanced(d.(config := ran.config, pending := d.pending - {id}), lost, direction)
  {
    var due := Net(d.pending, 0, d.nextID, direction) + lost;
    NetWithout(d.pending, 0, d.nextID, id, direction);
    if OfStream(d.pending[id]) {
      RequestCounts(d.config, d.pending[id], due, direction);
    } else {
      TidyCounts(d.pending[id], d.config, due, direction);
    }
  }

  lemma {:induction false} DrainBalanced(d: Device, lost: int, direction: Direction)
    requires Balanced(d, lost, direction) && DrainCareful(d) && forall id :: id in d.pending ==> id < d.nextID
    ensures Balanced(Drained(d).device, lost, direction)
    decreases |d.pending|
  {
    if d.pending == map[] {
    } else {
      var id := First(d.pending);
      var ran := Run(d.pending[id], d.config);
      RunBalanced(d, id, lost, direction);
      if !ran.threw {
        assert (d.pending - {id}).Keys == d.pending.Keys - {id};
        DrainBalanced(
          d.(config := ran.config, pending := d.pending - {id}, executed := d.executed + [id]), lost, direction);
      }
    }
  }

  /** What a call loses: the stream request that it aborts. */
  function Loss(d: Device, op: Op, direction: Direction): int {
    if op.Abort? && op.id in d.pending then Weight(d.pending[op.id], direction) else 0
  }

  lemma StepBalanced(d: Device, op: Op, lost: int, direction: Direction)
    requires Conserved(d) && Balanced(d, lost, direction) && Careful(d, op)
    ensures Balanced(Do(d, op).device, lost + Loss(d, op, direction), direction)
  {
    PendingBelow(d);
    match op
    case AddStream(s) => AddBalanced(d, s, lost, direction);
    case RemoveStream(s) => RemoveBalanced(d, s, lost, direction);
    case Request(change) =>
      if Queues(d) {
        QueuedBalanced(d, d.config, change, lost, direction);
      } else {
        TidyCounts(change, d.config, Net(d.pending, 0, d.nextID, direction) + lost, direction);
      }
    case Perform(id) =>
      if id in d.pending {
        RunBalanced(d, id, lost, direction);
      }
    case Abort(id) =>
      if id in d.pending {
        NetWithout(d.pending, 0, d.nextID, id, direction);
      }
    case DetachOwner =>
      if d.hasOwner {
        DrainBalanced(d.(hasOwner := false), lost, direction);
      }
    case _ =>
  }

  /** Attachments aborted so far in a run, less detachments aborted. */
  function Lost(states: seq<Device>, ops: seq<Op>, k: nat, direction: Direction): int
    requires k <= |ops| && k <= |states|
  {
    if k == 0 then 0 else Lost(states, ops, k - 1, direction) + Loss(states[k - 1], ops[k - 1], direction)
  }

  lemma NewBalanced(direction: Direction)
    ensures Balanced(NEW_DEVICE, 0, direction)
  {
    NetNone(map[], 0, 0, direction);
  }

  ghost predicate CarefulAt(states: seq<Device>, ops: seq<Op>, k: nat) {
    k < |ops| && k < |states| && Careful(states[k], ops[k])
  }

  /** In every careful run, in whatever order HAL performs and aborts, a counter and its list differ by exactly
      what is pending and what has been aborted: whatever is aborted is lost for good. */
  lemma {:induction false} CountersLoseAborted(states: seq<Device>, ops: seq<Op>, k: nat, direction: Direction)
    requires IsRun(states, ops) && k < |states|
    requires forall i: nat :: i < |ops| ==> CarefulAt(states, ops, i)
    ensures Balanced(states[k], Lost(states, ops, k, direction), direction)
  {
    if k == 0 {
      assert states[0] == NEW_DEVICE;
      NewBalanced(direction);
    } else {
      var d, op, lost := states[k - 1], ops[k - 1], Lost(states, ops, k - 1, direction);
      CountersLoseAborted(states, ops, k - 1, direction);
      RequestsConserved(states, ops, k - 1);
      assert StepAt(states, ops, k - 1) && CarefulAt(states, ops, k - 1);
      StepBalanced(d, op, lost, direction);
      assert Lost(states, ops, k, direction) == lost + Loss(d, op, direction);
    }
  }

  /** So once no stream request is pending, a counter says how many streams its list has exactly if as many
      attachments as detachments have been aborted, modulo 2^32. */
  lemma CountersRightIff(states: seq<Device>, ops: seq<Op>, k: nat, direction: Direction)
    requires IsRun(states, ops) && k < |states| && StreamRequests(states[k].pending) == map[]
    requires forall i: nat :: i < |ops| ==> CarefulAt(states, ops, i)
    ensures Count(states[k].config, direction) % COUNTER_LIMIT == Listed(states[k].config, direction) % COUNTER_LIMIT
       <==> Lost(states, ops, k, direction) % COUNTER_LIMIT == 0
  {
    CountersLoseAborted(states, ops, k, direction);
    NetNone(states[k].pending, 0, states[k].nextID, direction);
    SameRemainder(Count(states[k].config, direction), Lost(states, ops, k, direction),
                  Listed(states[k].config, direction));
  }

  lemma SameRemainder(count: nat, lost: int, listed: nat)
    requires (count + lost - listed) % COUNTER_LIMIT == 0
    ensures count % COUNTER_LIMIT == listed % COUNTER_LIMIT <==> lost % COUNTER_LIMIT == 0
  {
  }
}
