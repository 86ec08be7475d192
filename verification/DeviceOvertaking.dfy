/** What happens to owned and wanted streams when requests are not performed in order: the exact conditions. */
module DeviceOvertaking {
  import opened DeviceChanges
  import opened DeviceQueue
  import opened DeviceRuns
  import opened DeviceStreams

  predicate OwnsStream(c: Config, s: Stream) {
    if s.direction.Input? then s.id in c.ownedInputs else s.id in c.ownedOutputs
  }

  /** The identifier is not owned in the scope of the other direction. */
  predicate NotAcross(c: Config, s: Stream) {
    if s.direction.Input? then s.id !in c.ownedOutputs else s.id !in c.ownedInputs
  }

  /** The requests for the identifier of the stream are for this stream. */
  ghost predicate SoleOf(requests: map<nat, Change>, s: Stream) {
    forall id :: id in requests && OfStream(requests[id]) && requests[id].stream.id == s.id ==> requests[id].stream == s
  }

  ghost predicate BusyIn(requests: map<nat, Change>, s: Stream, k: nat, hi: nat) {
    exists id :: k <= id < hi && id in requests && OfStream(requests[id]) && requests[id].stream.id == s.id
  }

  lemma RunOwnership(c: Config, change: Change, s: Stream)
    requires OfStream(change) && NotAcross(c, s) && (change.stream.id == s.id ==> change.stream == s)
    ensures NotAcross(Run(change, c).config, s)
    ensures OwnsStream(Run(change, c).config, s) <==>
            if change.stream == s then change.AttachStream? else OwnsStream(c, s)
  {
  }

  /** The last request for a stream decides whether it is owned in the end, wherever the replay starts. */
  lemma {:induction false} LastDecides(requests: map<nat, Change>, k: nat, hi: nat, c: Config, d: Config, s: Stream)
    requires AllOfStreams(requests) && SoleOf(requests, s) && NotAcross(c, s) && NotAcross(d, s)
    requires BusyIn(requests, s, k, hi) || (OwnsStream(c, s) <==> OwnsStream(d, s))
    ensures OwnsStream(Replay(requests, k, hi, c), s) <==> OwnsStream(Replay(requests, k, hi, d), s)
    decreases hi - k
  {
    if hi <= k {
    } else if k in requests {
      RunOwnership(c, requests[k], s);
      RunOwnership(d, requests[k], s);
      LastDecides(requests, k + 1, hi, Run(requests[k], c).config, Run(requests[k], d).config, s);
    } else {
      LastDecides(requests, k + 1, hi, c, d, s);
    }
  }

  lemma OwnsListed(c: Config, s: Stream)
    requires OwnsWanted(c)
    ensures OwnsStream(c, s) <==> s.id in Ids(if s.direction.Input? then c.inputs else c.outputs)
  {
  }

  /** A call from within a change that finds the stream as it should be, absent or present, overtakes what is
      pending. It keeps owned and wanted streams in agreement exactly if no request is pending for the stream. */
  lemma OvertakingKeepsIffNotBusy(c: Config, requests: map<nat, Change>, hi: nat, s: Stream, add: bool)
    requires AllOfStreams(requests) && Settles(c, requests, hi) && forall id :: id in requests ==> id < hi
    requires if add then s.id !in c.byID else s.id in c.byID && c.byID[s.id] == s
    requires SoleOf(requests, s) && NotAcross(c, s)
    ensures Settles(Called(c, s, add), requests, hi) <==> !Busy(requests, s)
  {
    var d := Called(c, s, add);
    if !Busy(requests, s) {
      CallSettles(c, requests, hi, s, add);
    } else {
      LastDecides(requests, 0, hi, c, d, s);
      ReplayKeepsLists(requests, 0, hi, c);
      ReplayKeepsLists(requests, 0, hi, d);
      ListedIff(c, s, add);
      OwnsListed(Replay(requests, 0, hi, c), s);
      if Settles(d, requests, hi) {
        OwnsListed(Replay(requests, 0, hi, d), s);
      }
    }
  }

  lemma ListedIff(c: Config, s: Stream, add: bool)
    requires ListsIndexed(c) && if add then s.id !in c.byID else s.id in c.byID && c.byID[s.id] == s
    ensures var d := Called(c, s, add);
      && (s.id in Ids(if s.direction.Input? then c.inputs else c.outputs) <==> !add)
      && (s.id in Ids(if s.direction.Input? then d.inputs else d.outputs) <==> add)
  {
    if add {
      AddIndexed(c.inputs, c.outputs, c.byID, s);
      IdsAppend(c.inputs, s);
      IdsAppend(c.outputs, s);
    } else {
      RemoveIndexed(c.inputs, c.outputs, c.byID, s);
      IdsMembers(c.inputs, s.id);
      IdsMembers(c.outputs, s.id);
      if s.direction.Input? {
        WithoutOne(c.inputs, s);
      } else {
        WithoutOne(c.outputs, s);
      }
    }
  }

  /** For instance: a stream is added to a published device, and a client's change that HAL performs first
      removes it. Once everything is performed the device owns a stream that it does not list. */
  lemma RemovedTooEarly()
    ensures var s := Stream(5, Input);
      var d := Do(Do(NEW_DEVICE, Publish).device, AttachOwner).device;
      var asked := Do(Do(d, Request(Client(7, [CallRemoveStream(s)]))).device, AddStream(s)).device;
      var end := Do(Do(asked, Perform(0)).device, Perform(1)).device;
      end.pending == map[] && end.config.inputs == [] && end.config.ownedInputs == {5}
  {
    var s := Stream(5, Input);
    var d := Do(Do(NEW_DEVICE, Publish).device, AttachOwner).device;
    var queued := Do(d, Request(Client(7, [CallRemoveStream(s)]))).device;
    var asked := Do(queued, AddStream(s)).device;
    assert asked.pending == map[0 := Client(7, [CallRemoveStream(s)]), 1 := AttachStream(s)];
    assert asked.config.inputs == [s];
    assert Without([s], s) == [];
    RunOne(CallRemoveStream(s), asked.config.(log := asked.config.log + [7]));
    var performed := Do(asked, Perform(0)).device;
    assert performed.config.ownedInputs == {} && performed.config.inputs == [];
    assert performed.pending == map[1 := AttachStream(s)];
    assert Do(performed, Perform(1)).device.pending == map[];
  }

  // ---------------------------------------------------------------- performing out of order

  /** The request that has the last word on whether the stream is owned. */
  ghost predicate LatestFor(requests: map<nat, Change>, s: Stream, id: nat)
    requires AllOfStreams(requests)
  {
    && id in requests && requests[id].stream.id == s.id
    && forall k :: k in requests && id < k ==> requests[k].stream.id != s.id
  }

  /** Configurations that own the same but for one stream, and count the same. */
  ghost predicate SameBut(c: Config, d: Config, id: nat) {
    && c.numInputs == d.numInputs && c.numOutputs == d.numOutputs
    && c.ownedInputs - {id} == d.ownedInputs - {id} && c.ownedOutputs - {id} == d.ownedOutputs - {id}
  }

  lemma ReownedSameBut(c: Config, d: Config, id: nat, s: Stream, add: bool)
    requires SameBut(c, d, id)
    ensures SameBut(Reowned(c, s, add), Reowned(d, s, add), id)
  {
    assert s.id != id ==> (s.id in c.ownedInputs - {id} <==> s.id in c.ownedInputs);
    assert s.id != id ==> (s.id in d.ownedInputs - {id} <==> s.id in d.ownedInputs);
    var e, f := Reowned(c, s, add), Reowned(d, s, add);
    forall x | x != id
      ensures x in e.ownedInputs <==> x in f.ownedInputs
      ensures x in e.ownedOutputs <==> x in f.ownedOutputs
    {
      assert x in c.ownedInputs - {id} <==> x in d.ownedInputs - {id};
      assert x in c.ownedOutputs - {id} <==> x in d.ownedOutputs - {id};
    }
  }

  lemma {:induction false} ReplaySameBut(requests: map<nat, Change>, k: nat, hi: nat, c: Config, d: Config, id: nat)
    requires AllOfStreams(requests) && SameBut(c, d, id)
    ensures SameBut(Replay(requests, k, hi, c), Replay(requests, k, hi, d), id)
    decreases hi - k
  {
    if hi <= k {
    } else if k in requests {
      var s, add := requests[k].stream, requests[k].AttachStream?;
      StreamRequestReowns(c, requests[k]);
      StreamRequestReowns(d, requests[k]);
      ReownedSameBut(c, d, id, s, add);
      ReplaySameBut(requests, k + 1, hi, Reowned(c, s, add), Reowned(d, s, add), id);
    } else {
      ReplaySameBut(requests, k + 1, hi, c, d, id);
    }
  }

  lemma CountsCommute(c: Config, s: Stream, add: bool, attach: bool)
    ensures var d, e := Reowned(Reowned(c, s, attach), s, add), Reowned(Reowned(c, s, add), s, attach);
      d.numInputs == e.numInputs && d.numOutputs == e.numOutputs
  {
    if add == attach {
    } else if s.direction.Input? {
      UpAndDown(c.numInputs);
    } else {
      UpAndDown(c.numOutputs);
    }
  }

  /** In which order two requests for the same stream are performed matters for that stream alone. */
  lemma SwapSameBut(c: Config, s: Stream, add: bool, attach: bool)
    ensures SameBut(Reowned(Reowned(c, s, attach), s, add), Reowned(Reowned(c, s, add), s, attach), s.id)
  {
    CountsCommute(c, s, add, attach);
    var d, e := Reowned(c, s, attach), Reowned(c, s, add);
    OwnsTheOthers(c, s, add);
    OwnsTheOthers(c, s, attach);
    OwnsTheOthers(d, s, add);
    OwnsTheOthers(e, s, attach);
  }

  lemma OwnsTheOthers(c: Config, s: Stream, add: bool)
    ensures Reowned(c, s, add).ownedInputs - {s.id} == c.ownedInputs - {s.id}
    ensures Reowned(c, s, add).ownedOutputs - {s.id} == c.ownedOutputs - {s.id}
  {
  }

  /** Performing a request ahead of earlier ones matters for its stream alone. */
  lemma {:induction false} ReplayAheadSameBut(requests: map<nat, Change>, k: nat, hi: nat, c: Config, id: nat)
    requires AllOfStreams(requests) && id in requests && k <= id < hi && SoleOf(requests, requests[id].stream)
    ensures SameBut(Replay(requests, k, hi, c), Replay(requests - {id}, k, hi, Run(requests[id], c).config),
                    requests[id].stream.id)
    decreases hi - k
  {
    if k == id {
      ReplaySame(requests, requests - {id}, k + 1, hi, Run(requests[id], c).config);
    } else if k in requests {
      var d := Run(requests[k], c).config;
      ReplayAheadSameBut(requests, k + 1, hi, d, id);
      SwappedSameBut(c, requests[k], requests[id]);
      ReplaySameBut(requests - {id}, k + 1, hi, Run(requests[id], d).config,
                    Run(requests[k], Run(requests[id], c).config).config, requests[id].stream.id);
    } else {
      ReplayAheadSameBut(requests, k + 1, hi, c, id);
    }
  }

  lemma SwappedSameBut(c: Config, first: Change, second: Change)
    requires OfStream(first) && OfStream(second)
    requires first.stream.id == second.stream.id ==> first.stream == second.stream
    ensures SameBut(Run(second, Run(first, c).config).config, Run(first, Run(second, c).config).config,
                    second.stream.id)
  {
    if first.stream.id != second.stream.id {
      RequestsCommute(c, first, second);
    } else {
      StreamRequestReowns(c, first);
      StreamRequestReowns(c, second);
      StreamRequestReowns(Run(first, c).config, second);
      StreamRequestReowns(Run(second, c).config, first);
      SwapSameBut(c, first.stream, second.AttachStream?, first.AttachStream?);
    }
  }

  /** Requests for other streams leave it as it is. */
  lemma {:induction false} OthersLeave(requests: map<nat, Change>, k: nat, hi: nat, c: Config, s: Stream)
    requires AllOfStreams(requests) && NotAcross(c, s)
    requires forall j :: j in requests && k <= j ==> requests[j].stream.id != s.id
    ensures NotAcross(Replay(requests, k, hi, c), s)
    ensures OwnsStream(Replay(requests, k, hi, c), s) <==> OwnsStream(c, s)
    decreases hi - k
  {
    if hi <= k {
    } else if k in requests {
      RunOwnership(c, requests[k], s);
      OthersLeave(requests, k + 1, hi, Run(requests[k], c).config, s);
    } else {
      OthersLeave(requests, k + 1, hi, c, s);
    }
  }

  lemma {:induction false} LatestDecides(requests: map<nat, Change>, k: nat, hi: nat, c: Config, s: Stream, id: nat)
    requires AllOfStreams(requests) && SoleOf(requests, s) && NotAcross(c, s)
    requires LatestFor(requests, s, id) && k <= id < hi
    ensures NotAcross(Replay(requests, k, hi, c), s)
    ensures OwnsStream(Replay(requests, k, hi, c), s) <==> requests[id].AttachStream?
    decreases hi - k
  {
    if k in requests {
      RunOwnership(c, requests[k], s);
    }
    var d := if k in requests then Run(requests[k], c).config else c;
    if k == id {
      OthersLeave(requests, k + 1, hi, d, s);
    } else {
      LatestDecides(requests, k + 1, hi, d, s, id);
    }
  }

  lemma SameOwnsWanted(c: Config, d: Config, s: Stream)
    requires OwnsWanted(c) && SameLists(c, d) && SameBut(c, d, s.id) && NotAcross(c, s) && NotAcross(d, s)
    ensures OwnsWanted(d) <==> (OwnsStream(c, s) <==> OwnsStream(d, s))
  {
    if OwnsStream(c, s) <==> OwnsStream(d, s) {
      SameWithout(c.ownedInputs, d.ownedInputs, s.id);
      SameWithout(c.ownedOutputs, d.ownedOutputs, s.id);
    }
  }

  lemma SameWithout(x: set<nat>, y: set<nat>, id: nat)
    requires x - {id} == y - {id} && (id in x <==> id in y)
    ensures x == y
  {
    forall i
      ensures i in x <==> i in y
    {
      assert i != id ==> (i in x - {id} <==> i in y - {id});
    }
  }

  /** When HAL performs a stream request, in whatever order, owned and wanted streams stay in agreement exactly if
      the last word for the stream stays the same: that of the latest of the other requests for it, or of
      this request if there is no other, is that of the latest one before. */
  lemma PerformKeepsIff(c: Config, requests: map<nat, Change>, hi: nat, id: nat, latest: nat, next: nat)
    requires AllOfStreams(requests) && Settles(c, requests, hi) && forall k :: k in requests ==> k < hi
    requires id in requests && SoleOf(requests, requests[id].stream) && NotAcross(c, requests[id].stream)
    requires LatestFor(requests, requests[id].stream, latest)
    requires if Busy(requests - {id}, requests[id].stream)
             then LatestFor(requests - {id}, requests[id].stream, next) else next == id
    ensures Settles(Run(requests[id], c).config, requests - {id}, hi) <==> requests[next] == requests[latest]
  {
    var s, d, rest := requests[id].stream, Run(requests[id], c).config, requests - {id};
    var end, end' := Replay(requests, 0, hi, c), Replay(rest, 0, hi, d);
    RunOwnership(c, requests[id], s);
    LatestDecides(requests, 0, hi, c, s, latest);
    if Busy(rest, s) {
      LatestDecides(rest, 0, hi, d, s, next);
    } else {
      OthersLeave(rest, 0, hi, d, s);
    }
    ReplayAheadSameBut(requests, 0, hi, c, id);
    ReplayKeepsLists(requests, 0, hi, c);
    ReplayKeepsLists(rest, 0, hi, d);
    SameOwnsWanted(end, end', s);
  }
}
