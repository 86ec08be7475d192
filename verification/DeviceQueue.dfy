/** The queue of configuration changes: what is requested is executed once, aborted or pending. */
module DeviceQueue {
  import opened DeviceChanges
  import opened Least

  /** The device, as seen between calls: its hierarchy state, the pending requests by identifier and the
      configuration. The rest is the history of the queue: `ignored` are the empty requests that HAL performed. */
  datatype Device = Device(
    hasHost: bool, hasOwner: bool, inside: nat,
    pending: map<nat, Change>, nextID: nat,
    config: Config,
    executed: seq<nat>, aborted: set<nat>, ignored: set<nat>)

  datatype Result = Result(device: Device, threw: bool)

  /** RequestConfigurationChange: the change waits for HAL only if HAL knows the device and it is not
      already inside PerformConfigurationChange. */
  predicate Queues(d: Device) {
    d.hasHost && d.hasOwner && d.inside == 0
  }

  function Requested(d: Device, change: Change): Result {
    if Queues(d) then Result(d.(pending := d.pending[d.nextID := change], nextID := d.nextID + 1), false)
    else
      var ran := Run(change, d.config);
      Result(d.(config := ran.config), ran.threw)
  }

  /** PerformConfigurationChange. An unknown or empty request is ignored, and the latter goes; an exception
      leaves the entry in the queue and the nesting counter raised. */
  function Performed(d: Device, id: nat): Result {
    if id !in d.pending then Result(d, false)
    else if d.pending[id].Null? then
      Result(d.(pending := d.pending - {id}, ignored := d.ignored + {id}), false)
    else
      var ran := Run(d.pending[id], d.config);
      if ran.threw then Result(d.(config := ran.config, inside := d.inside + 1), true)
      else Result(d.(config := ran.config, pending := d.pending - {id}, executed := d.executed + [id]), false)
  }

  function Aborted(d: Device, id: nat): Device {
    if id in d.pending then d.(pending := d.pending - {id}, aborted := d.aborted + {id}) else d
  }

  /** pendingConfigurationRequests_.begin(). */
  ghost function First(pending: map<nat, Change>): (id: nat)
    requires pending != map[]
    ensures IsLeast(pending.Keys, id)
  {
    LeastExists(pending.Keys);
    var id :| IsLeast(pending.Keys, id);
    id
  }

  /** The loop of RequestOwnershipChange that applies what is left in the queue. */
  ghost function Drained(d: Device): Result
    decreases |d.pending|
  {
    if d.pending == map[] then Result(d, false)
    else
      var id := First(d.pending);
      var ran := Run(d.pending[id], d.config);
      if ran.threw then Result(d.(config := ran.config), true)
      else
        assert |d.pending - {id}| < |d.pending| by { assert (d.pending - {id}).Keys == d.pending.Keys - {id}; }
        Drained(d.(config := ran.config, pending := d.pending - {id}, executed := d.executed + [id]))
  }

  function OwnerAttached(d: Device): Device {
    d.(hasOwner := true)
  }

  ghost function OwnerDetached(d: Device): Result {
    if d.hasOwner then Drained(d.(hasOwner := false)) else Result(d, false)
  }

  // ---------------------------------------------------------------- draining

  /** Applies the pending changes with identifiers from `k` up to `hi`, lowest first. */
  function Replay(pending: map<nat, Change>, k: nat, hi: nat, c: Config): Config
    decreases hi - k
  {
    if hi <= k then c
    else Replay(pending, k + 1, hi, if k in pending then Run(pending[k], c).config else c)
  }

  lemma {:induction false} ReplaySame(p: map<nat, Change>, q: map<nat, Change>, k: nat, hi: nat, c: Config)
    requires forall j :: k <= j < hi ==> (j in p <==> j in q) && (j in p ==> p[j] == q[j])
    ensures Replay(p, k, hi, c) == Replay(q, k, hi, c)
    decreases hi - k
  {
    if hi <= k {
    } else {
      ReplaySame(p, q, k + 1, hi, if k in p then Run(p[k], c).config else c);
    }
  }

  lemma {:induction false} ReplayNothing(p: map<nat, Change>, k: nat, hi: nat, c: Config)
    requires forall j :: k <= j < hi ==> j !in p
    ensures Replay(p, k, hi, c) == c
    decreases hi - k
  {
    if hi <= k {
    } else {
      ReplayNothing(p, k + 1, hi, c);
    }
  }

  /** Replaying one change more, the latest, runs it on what the others lead to. */
  lemma {:induction false} ReplayLast(p: map<nat, Change>, k: nat, hi: nat, c: Config)
    requires k <= hi
    ensures Replay(p, k, hi + 1, c) == if hi in p then Run(p[hi], Replay(p, k, hi, c)).config else Replay(p, k, hi, c)
    decreases hi - k
  {
    if hi <= k {
    } else {
      ReplayLast(p, k + 1, hi, if k in p then Run(p[k], c).config else c);
    }
  }

  /** Running the first change and replaying the others is replaying them all. */
  lemma {:induction false} ReplayFirst(p: map<nat, Change>, k: nat, hi: nat, c: Config, id: nat)
    requires IsLeast(p.Keys, id) && k <= id < hi
    ensures Replay(p, k, hi, c) == Replay(p - {id}, k, hi, Run(p[id], c).config)
    decreases hi - k
  {
    if k < id {
      ReplayFirst(p, k + 1, hi, c, id);
    } else {
      ReplaySame(p, p - {id}, k + 1, hi, Run(p[id], c).config);
    }
  }

  ghost predicate Increasing(s: seq<nat>) {
    forall i, j :: 0 <= i < j < |s| ==> s[i] < s[j]
  }

  ghost function Elements(s: seq<nat>): set<nat> {
    set x | x in s
  }

  /** No pending change is, or requests, an empty function. */
  ghost predicate NoNulls(pending: map<nat, Change>) {
    forall id :: id in pending ==> !HasNull(pending[id])
  }

  /** Draining the queue throws exactly when there is an empty function among the pending changes. */
  lemma {:induction false} DrainThrowsIffNull(d: Device)
    ensures Drained(d).threw <==> !NoNulls(d.pending)
    decreases |d.pending|
  {
    if d.pending == map[] {
    } else {
      var id := First(d.pending);
      ThrowsIffHasNull(d.pending[id], d.config);
      if !HasNull(d.pending[id]) {
        var ran := Run(d.pending[id], d.config);
        assert (d.pending - {id}).Keys == d.pending.Keys - {id};
        var d' := d.(config := ran.config, pending := d.pending - {id}, executed := d.executed + [id]);
        DrainThrowsIffNull(d');
        if !NoNulls(d.pending) {
          var k :| k in d.pending && HasNull(d.pending[k]);
          assert k in d'.pending && HasNull(d'.pending[k]);
        }
      }
    }
  }

  /** The identifiers of the pending changes, lowest first. */
  ghost function Order(pending: map<nat, Change>): seq<nat>
    decreases |pending|
  {
    if pending == map[] then []
    else
      var id := First(pending);
      assert (pending - {id}).Keys == pending.Keys - {id};
      [id] + Order(pending - {id})
  }

  lemma IncreasingCons(id: nat, tail: seq<nat>)
    requires Increasing(tail) && forall x :: x in Elements(tail) ==> id < x
    ensures Increasing([id] + tail) && Elements([id] + tail) == {id} + Elements(tail)
  {
    forall j | 0 <= j < |tail|
      ensures id < tail[j]
    {
      assert tail[j] in Elements(tail);
    }
  }

  lemma FirstIsBelow(keys: set<nat>, id: nat, others: set<nat>)
    requires IsLeast(keys, id) && others == keys - {id}
    ensures keys == {id} + others && forall x :: x in others ==> id < x
  {
  }

  lemma {:induction false} OrderIncreases(pending: map<nat, Change>)
    ensures Increasing(Order(pending)) && Elements(Order(pending)) == pending.Keys
    decreases |pending|
  {
    if pending == map[] {
    } else {
      var id := First(pending);
      var rest := pending - {id};
      assert rest.Keys == pending.Keys - {id};
      OrderIncreases(rest);
      var order := Order(rest);
      assert Order(pending) == [id] + order;
      FirstIsBelow(pending.Keys, id, Elements(order));
      IncreasingCons(id, order);
    }
  }

  /** Without empty functions, draining runs every pending change once, in increasing order of identifiers,
      leaves none behind and touches nothing else. */
  lemma {:induction false} DrainRunsAllInOrder(d: Device, hi: nat)
    requires NoNulls(d.pending) && forall id :: id in d.pending ==> id < hi
    ensures Drained(d).device ==
            d.(pending := map[], executed := d.executed + Order(d.pending),
               config := Replay(d.pending, 0, hi, d.config))
    decreases |d.pending|
  {
    if d.pending == map[] {
      ReplayNothing(d.pending, 0, hi, d.config);
      assert d.executed + [] == d.executed;
    } else {
      var id := First(d.pending);
      var ran := Run(d.pending[id], d.config);
      ThrowsIffHasNull(d.pending[id], d.config);
      var rest := d.pending - {id};
      assert rest.Keys == d.pending.Keys - {id};
      var d' := d.(config := ran.config, pending := rest, executed := d.executed + [id]);
      DrainRunsAllInOrder(d', hi);
      ReplayFirst(d.pending, 0, hi, d.config, id);
      assert d'.executed + Order(rest) == d.executed + Order(d.pending);
    }
  }

  // ---------------------------------------------------------------- draining with empty functions

  /** The first pending change with an empty function. */
  ghost predicate FirstNull(pending: map<nat, Change>, id: nat) {
    id in pending && HasNull(pending[id]) && forall k :: k in pending && k < id ==> !HasNull(pending[k])
  }

  ghost function Before(pending: map<nat, Change>, id: nat): map<nat, Change> {
    map k | k in pending && k < id :: pending[k]
  }

  ghost function NotBefore(pending: map<nat, Change>, id: nat): map<nat, Change> {
    map k | k in pending && id <= k :: pending[k]
  }

  lemma FirstNullExists(pending: map<nat, Change>)
    requires !NoNulls(pending)
    ensures exists id :: FirstNull(pending, id)
  {
    var nulls: set<nat> := set id | id in pending && HasNull(pending[id]);
    var k :| k in pending && HasNull(pending[k]);
    assert k in nulls;
    LeastExists(nulls);
    var id: nat :| IsLeast(nulls, id);
    forall j | j in pending && j < id
      ensures !HasNull(pending[j])
    {
      assert j !in nulls;
    }
    assert FirstNull(pending, id);
  }

  /** The order of the changes before one begins with the first of all. */
  lemma OrderBefore(pending: map<nat, Change>, id: nat, stop: nat)
    requires IsLeast(pending.Keys, id) && id < stop
    ensures Order(Before(pending, stop)) == [id] + Order(Before(pending - {id}, stop))
    ensures NotBefore(pending - {id}, stop) == NotBefore(pending, stop)
  {
    var before := Before(pending, stop);
    assert id in before.Keys;
    assert IsLeast(before.Keys, id);
    LeastUnique(before.Keys, id, First(before));
    assert before - {id} == Before(pending - {id}, stop);
  }

  /** A drain that comes upon an empty function has run exactly the changes before the first change that has one,
      in order, and of that one whatever comes before the empty function. That one and all after it stay. */
  lemma {:induction false} DrainRunsUpToNull(d: Device, stop: nat)
    requires FirstNull(d.pending, stop)
    ensures Drained(d) == Result(
              d.(pending := NotBefore(d.pending, stop), executed := d.executed + Order(Before(d.pending, stop)),
                 config := Run(d.pending[stop], Replay(d.pending, 0, stop, d.config)).config),
              true)
    decreases |d.pending|
  {
    var id := First(d.pending);
    ThrowsIffHasNull(d.pending[id], d.config);
    if id == stop {
      ReplayNothing(d.pending, 0, stop, d.config);
      NothingBefore(d.pending, stop);
      assert d.executed + [] == d.executed;
    } else {
      var rest := d.pending - {id};
      assert rest.Keys == d.pending.Keys - {id};
      var d' := d.(config := Run(d.pending[id], d.config).config, pending := rest, executed := d.executed + [id]);
      DrainRunsUpToNull(d', stop);
      ReplayFirst(d.pending, 0, stop, d.config, id);
      OrderBefore(d.pending, id, stop);
      assert d'.executed + Order(Before(rest, stop)) == d.executed + Order(Before(d.pending, stop));
    }
  }

  lemma NothingBefore(pending: map<nat, Change>, stop: nat)
    requires IsLeast(pending.Keys, stop)
    ensures Before(pending, stop) == map[] && NotBefore(pending, stop) == pending
  {
  }

  /** A drain that throws stops at a change that stays pending; it never touches the hierarchy. */
  lemma {:induction false} ThrownDrainLeavesSome(d: Device)
    ensures Drained(d).threw <==> Drained(d).device.pending != map[]
    ensures var d' := Drained(d).device; d'.hasHost == d.hasHost && d'.hasOwner == d.hasOwner && d'.inside == d.inside
    decreases |d.pending|
  {
    if d.pending == map[] {
    } else {
      var id := First(d.pending);
      var ran := Run(d.pending[id], d.config);
      if !ran.threw {
        assert (d.pending - {id}).Keys == d.pending.Keys - {id};
        ThrownDrainLeavesSome(d.(config := ran.config, pending := d.pending - {id}, executed := d.executed + [id]));
      }
    }
  }
}
