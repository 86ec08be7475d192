/** The device's clock: the zero timestamps it reports to HAL while I/O is running. */
module ZeroTimestamps {

  /** startCount_, anchorHostTime_ and periodCounter_. */
  datatype Clock = Clock(startCount: int, anchor: nat, periods: nat)

  /** What the outside does: clients start and stop I/O, which the control handler may refuse to start,
      and HAL asks for timestamps. The host time at which it happens comes along. */
  datatype Event = Start(now: nat, accepted: bool) | Stop | Ask(now: nat)

  /** Host time at which a period begins, for `ticks` host ticks per period. */
  function PeriodStart(anchor: nat, ticks: real, k: nat): int {
    anchor + (k as real * ticks).Floor
  }

  function Do(c: Clock, ticks: real, e: Event): Clock {
    match e
    case Start(now, accepted) =>
      if !accepted && c.startCount == 0 then c
      else if c.startCount == 0 then Clock(1, now, 0)
      else c.(startCount := c.startCount + 1)
    case Stop => c.(startCount := c.startCount - 1)
    case Ask(now) =>
      if now >= PeriodStart(c.anchor, ticks, c.periods + 1) then c.(periods := c.periods + 1) else c
  }

  /** The device's part that keeps the clock, at a fixed rate and period. */
  class Timeline {
    const hostTicksPerFrame: real
    const framesPerPeriod: nat
    var startCount: int
    var anchorHostTime: nat
    var periodCounter: nat

    function View(): Clock
      reads this
    {
      Clock(startCount, anchorHostTime, periodCounter)
    }

    function Ticks(): real {
      hostTicksPerFrame * framesPerPeriod as real
    }

    constructor (hostTicksPerFrame: real, framesPerPeriod: nat)
      ensures this.hostTicksPerFrame == hostTicksPerFrame && this.framesPerPeriod == framesPerPeriod
      ensures View() == Clock(0, 0, 0)
    {
      this.hostTicksPerFrame, this.framesPerPeriod := hostTicksPerFrame, framesPerPeriod;
      startCount, anchorHostTime, periodCounter := 0, 0, 0;
    }

    /** `accepted` is what the control handler says; it is only asked by the first client. */
    method StartIO(now: nat, accepted: bool) returns (ok: bool)
      modifies this
      ensures View() == Do(old(View()), Ticks(), Start(now, accepted))
      ensures ok <==> accepted || old(startCount) != 0
      ensures startCount == old(startCount) + if ok then 1 else 0
    {
      if startCount == 0 {
        if !accepted {
          return false;
        }
        anchorHostTime := now;
        periodCounter := 0;
      }
      startCount := startCount + 1;
      ok := true;
    }

    method StopIO()
      modifies this`startCount
      ensures View() == Do(old(View()), Ticks(), Stop)
      ensures startCount == old(startCount) - 1
    {
      startCount := startCount - 1;
    }

    method GetZeroTimeStamp(now: nat) returns (sampleTime: real, hostTime: int)
      modifies this`periodCounter
      ensures View() == Do(old(View()), Ticks(), Ask(now))
      ensures sampleTime == (periodCounter * framesPerPeriod) as real
      ensures hostTime == PeriodStart(anchorHostTime, Ticks(), periodCounter)
      ensures hostTime as real
           <= anchorHostTime as real + periodCounter as real * (hostTicksPerFrame * framesPerPeriod as real)
            < hostTime as real + 1.0
    {
      var hostTicksPerPeriod := hostTicksPerFrame * framesPerPeriod as real;
      var nextPeriodHostTime := anchorHostTime + ((periodCounter + 1) as real * hostTicksPerPeriod).Floor;
      if now >= nextPeriodHostTime {
        periodCounter := periodCounter + 1;
      }
      sampleTime := (periodCounter * framesPerPeriod) as real;
      hostTime := anchorHostTime + (periodCounter as real * hostTicksPerPeriod).Floor;
    }
  }

  // Periods.

  /** Rounding down to ticks does not add up over the periods. */
  lemma NoDrift(anchor: nat, ticks: real, k: nat)
    ensures PeriodStart(anchor, ticks, k) as real <= anchor as real + k as real * ticks
          < PeriodStart(anchor, ticks, k) as real + 1.0
  {
    var length := k as real * ticks;
    assert length.Floor as real <= length < length.Floor as real + 1.0;
  }

  lemma FloorSum(x: real, y: real)
    ensures x.Floor + y.Floor <= (x + y).Floor <= x.Floor + y.Floor + 1
  {
  }

  /** Periods begin a whole number of ticks apart, the length of a period rounded down or up. */
  lemma PeriodsApart(anchor: nat, ticks: real, k: nat)
    ensures PeriodStart(anchor, ticks, k) + ticks.Floor <= PeriodStart(anchor, ticks, k + 1)
         <= PeriodStart(anchor, ticks, k) + ticks.Floor + 1
  {
    assert (k + 1) as real * ticks == k as real * ticks + ticks;
    FloorSum(k as real * ticks, ticks);
  }

  lemma {:induction false} PeriodOrder(anchor: nat, ticks: real, j: nat, k: nat)
    requires ticks >= 1.0 && j <= k
    ensures PeriodStart(anchor, ticks, j) + (k - j) <= PeriodStart(anchor, ticks, k)
  {
    if j == k {
    } else {
      PeriodOrder(anchor, ticks, j, k - 1);
      PeriodsApart(anchor, ticks, k - 1);
    }
  }

  /** The period in progress at a time: the last one that has begun. */
  ghost predicate InProgress(anchor: nat, ticks: real, now: int, k: nat) {
    PeriodStart(anchor, ticks, k) <= now < PeriodStart(anchor, ticks, k + 1)
  }

  ghost function IdealFrom(anchor: nat, ticks: real, now: int, k: nat): (ideal: nat)
    requires ticks >= 1.0 && PeriodStart(anchor, ticks, k) <= now
    ensures ideal >= k && InProgress(anchor, ticks, now, ideal)
    decreases now - PeriodStart(anchor, ticks, k)
  {
    PeriodsApart(anchor, ticks, k);
    if PeriodStart(anchor, ticks, k + 1) <= now then IdealFrom(anchor, ticks, now, k + 1) else k
  }

  ghost function Ideal(anchor: nat, ticks: real, now: int): (ideal: nat)
    requires ticks >= 1.0 && anchor <= now
    ensures InProgress(anchor, ticks, now, ideal)
  {
    assert PeriodStart(anchor, ticks, 0) == anchor;
    IdealFrom(anchor, ticks, now, 0)
  }

  /** There is no other, and a period has begun by then exactly if it is no later one. */
  lemma IdealIsLast(anchor: nat, ticks: real, now: int, k: nat)
    requires ticks >= 1.0 && anchor <= now
    ensures PeriodStart(anchor, ticks, k) <= now <==> k <= Ideal(anchor, ticks, now)
  {
    var ideal := Ideal(anchor, ticks, now);
    if k <= ideal {
      PeriodOrder(anchor, ticks, k, ideal);
    } else {
      PeriodOrder(anchor, ticks, ideal + 1, k);
    }
  }

  lemma IdealGrows(anchor: nat, ticks: real, t: int, now: int)
    requires ticks >= 1.0 && anchor <= t <= now
    ensures Ideal(anchor, ticks, t) <= Ideal(anchor, ticks, now)
  {
    IdealIsLast(anchor, ticks, now, Ideal(anchor, ticks, t));
  }

  // One call.

  /** The counter follows the period in progress, but by at most one period a call. */
  lemma AskFollows(c: Clock, ticks: real, now: nat)
    requires ticks >= 1.0 && c.anchor <= now && PeriodStart(c.anchor, ticks, c.periods) <= now
    ensures var d, ideal := Do(c, ticks, Ask(now)), Ideal(c.anchor, ticks, now);
      && d.periods == (if c.periods + 1 <= ideal then c.periods + 1 else ideal)
      && d == c.(periods := d.periods)
      && c.periods <= d.periods <= c.periods + 1
      && PeriodStart(c.anchor, ticks, d.periods) <= now
  {
    IdealIsLast(c.anchor, ticks, now, c.periods);
    IdealIsLast(c.anchor, ticks, now, c.periods + 1);
  }

  /** Two timestamps reported one after the other are the same, or of neighbouring periods. */
  lemma NextTimestamp(c: Clock, ticks: real, now: nat)
    ensures var d := Do(c, ticks, Ask(now));
      var before, after := PeriodStart(c.anchor, ticks, c.periods), PeriodStart(d.anchor, ticks, d.periods);
      || (d.periods == c.periods && after == before)
      || (d.periods == c.periods + 1 && before + ticks.Floor <= after <= before + ticks.Floor + 1 && after <= now)
  {
    PeriodsApart(c.anchor, ticks, c.periods);
  }

  // Runs.

  function Run(c: Clock, ticks: real, es: seq<Event>): Clock
    decreases |es|
  {
    if es == [] then c else Run(Do(c, ticks, es[0]), ticks, es[1..])
  }

  lemma {:induction false} RunAppend(c: Clock, ticks: real, es: seq<Event>, fs: seq<Event>)
    ensures Run(c, ticks, es + fs) == Run(Run(c, ticks, es), ticks, fs)
    decreases |es|
  {
    if es == [] {
      assert es + fs == fs;
    } else {
      assert (es + fs)[1..] == es[1..] + fs;
      RunAppend(Do(c, ticks, es[0]), ticks, es[1..], fs);
    }
  }

  // Clients, counted without the clock.

  /** A start succeeds if the handler accepts it, and it is not asked while there are clients. */
  predicate Succeeds(clients: int, e: Event) {
    e.Start? && (e.accepted || clients != 0)
  }

  function Starts(clients: int, es: seq<Event>): nat
    decreases |es|
  {
    if es == [] then 0
    else if Succeeds(clients, es[0]) then 1 + Starts(clients + 1, es[1..])
    else Starts(if es[0].Stop? then clients - 1 else clients, es[1..])
  }

  function Stops(es: seq<Event>): nat {
    if es == [] then 0 else (if es[0].Stop? then 1 else 0) + Stops(es[1..])
  }

  /** Those that were there, and the starts that have succeeded, less the stops. */
  function Clients(clients: int, es: seq<Event>): int {
    clients + Starts(clients, es) - Stops(es)
  }

  lemma ClientsFirst(clients: int, es: seq<Event>)
    requires es != []
    ensures Clients(clients, es) == Clients(Clients(clients, [es[0]]), es[1..])
  {
    var first := [es[0]];
    assert first[1..] == [];
    assert Starts(clients, first) == if Succeeds(clients, es[0]) then 1 else 0;
    assert Stops(first) == if es[0].Stop? then 1 else 0;
  }

  /** The device counts its clients. */
  lemma {:induction false} ClientsCounted(c: Clock, ticks: real, es: seq<Event>)
    ensures Run(c, ticks, es).startCount == Clients(c.startCount, es)
    decreases |es|
  {
    if es == [] {
    } else {
      ClientsCounted(Do(c, ticks, es[0]), ticks, es[1..]);
    }
  }

  /** Event `k` is the start of a client while there is none. */
  predicate FreshStart(clients: int, es: seq<Event>, k: nat) {
    k < |es| && es[k].Start? && es[k].accepted && Clients(clients, es[..k]) == 0
  }

  predicate NoFreshStart(clients: int, es: seq<Event>) {
    forall k: nat | k < |es| :: !FreshStart(clients, es, k)
  }

  lemma NoFreshStartTail(clients: int, es: seq<Event>)
    requires es != [] && NoFreshStart(clients, es)
    ensures !(es[0].Start? && es[0].accepted && clients == 0)
    ensures NoFreshStart(Clients(clients, [es[0]]), es[1..])
  {
    assert !FreshStart(clients, es, 0);
    forall k: nat | k < |es[1..]|
      ensures !FreshStart(Clients(clients, [es[0]]), es[1..], k)
    {
      assert es[..k + 1][0] == es[0] && es[..k + 1][1..] == es[1..][..k];
      ClientsFirst(clients, es[..k + 1]);
      assert !FreshStart(clients, es, k + 1);
    }
  }

  function Asks(es: seq<Event>): nat {
    if es == [] then 0 else (if es[0].Ask? then 1 else 0) + Asks(es[1..])
  }

  /** As long as no client starts while there is none, nobody moves the anchor, and the reported period never
      falls back; nor does it grow by more than one a call. */
  lemma {:induction false} ClockKept(c: Clock, ticks: real, es: seq<Event>)
    requires NoFreshStart(c.startCount, es)
    ensures var d := Run(c, ticks, es); d.anchor == c.anchor && c.periods <= d.periods <= c.periods + Asks(es)
    decreases |es|
  {
    if es == [] {
    } else {
      NoFreshStartTail(c.startCount, es);
      ClientsCounted(c, ticks, [es[0]]);
      assert Run(c, ticks, [es[0]]) == Do(c, ticks, es[0]);
      ClockKept(Do(c, ticks, es[0]), ticks, es[1..]);
    }
  }

  /** In every run, the anchor is the time of the last such start, and the period counts from there. */
  lemma AnchorIsLastFreshStart(c: Clock, ticks: real, es: seq<Event>, k: nat)
    requires FreshStart(c.startCount, es, k) && forall j: nat | k < j < |es| :: !FreshStart(c.startCount, es, j)
    ensures var d := Run(c, ticks, es); d.anchor == es[k].now && d.periods <= Asks(es[k + 1..])
  {
    var before := Run(c, ticks, es[..k]);
    ClientsCounted(c, ticks, es[..k]);
    var d := Do(before, ticks, es[k]);
    assert es == es[..k] + es[k..] && es[k..][1..] == es[k + 1..];
    RunAppend(c, ticks, es[..k], es[k..]);
    NoneAfter(c.startCount, es, k);
    ClockKept(d, ticks, es[k + 1..]);
  }

  lemma {:induction false} ClientsAppend(clients: int, es: seq<Event>, fs: seq<Event>)
    ensures Clients(clients, es + fs) == Clients(Clients(clients, es), fs)
    decreases |es|
  {
    if es == [] {
      assert es + fs == fs;
    } else {
      assert (es + fs)[1..] == es[1..] + fs;
      ClientsFirst(clients, es);
      ClientsFirst(clients, es + fs);
      ClientsAppend(Clients(clients, [es[0]]), es[1..], fs);
    }
  }

  lemma NoneAfter(clients: int, es: seq<Event>, k: nat)
    requires FreshStart(clients, es, k) && forall j: nat | k < j < |es| :: !FreshStart(clients, es, j)
    ensures NoFreshStart(1, es[k + 1..])
  {
    var rest := es[k + 1..];
    forall j: nat | j < |rest|
      ensures !FreshStart(1, rest, j)
    {
      assert es[..k + 1 + j] == es[..k] + ([es[k]] + rest[..j]);
      ClientsAppend(clients, es[..k], [es[k]] + rest[..j]);
      ClientsAppend(0, [es[k]], rest[..j]);
      assert !FreshStart(clients, es, k + 1 + j);
    }
  }

  /** While there is a client before each event, so that only the last of them may go, the anchor is the time of the
      first start. */
  lemma AnchorWhileRunning(c: Clock, ticks: real, now: nat, es: seq<Event>)
    requires c.startCount == 0 && forall k: nat | k < |es| :: Clients(1, es[..k]) > 0
    ensures Run(c, ticks, [Start(now, true)] + es).anchor == now
  {
    assert ([Start(now, true)] + es)[1..] == es;
    ClockKept(Do(c, ticks, Start(now, true)), ticks, es);
  }

  /** The last time that is known after an event. */
  function Later(t: nat, e: Event): nat {
    if e.Stop? then t else e.now
  }

  /** Host time does not go back. */
  ghost predicate Monotone(t: nat, es: seq<Event>)
    decreases |es|
  {
    es != [] ==> Later(t, es[0]) >= t && Monotone(Later(t, es[0]), es[1..])
  }

  function EndTime(t: nat, es: seq<Event>): nat
    decreases |es|
  {
    if es == [] then t else EndTime(Later(t, es[0]), es[1..])
  }

  /** The reported period has begun. */
  ghost predicate NotAhead(c: Clock, ticks: real, t: nat) {
    c.anchor <= t && PeriodStart(c.anchor, ticks, c.periods) <= t
  }

  lemma StepNotAhead(c: Clock, ticks: real, t: nat, e: Event)
    requires ticks >= 1.0 && NotAhead(c, ticks, t) && Later(t, e) >= t
    ensures NotAhead(Do(c, ticks, e), ticks, Later(t, e))
  {
    if e.Ask? {
      AskFollows(c, ticks, e.now);
    } else {
      assert PeriodStart(Later(t, e), ticks, 0) == Later(t, e);
    }
  }

  /** In no run, with any number of clients starting and stopping, is a reported host time in the future. */
  lemma {:induction false} NeverInTheFuture(c: Clock, ticks: real, t: nat, es: seq<Event>)
    requires ticks >= 1.0 && NotAhead(c, ticks, t) && Monotone(t, es)
    ensures NotAhead(Run(c, ticks, es), ticks, EndTime(t, es))
    decreases |es|
  {
    if es == [] {
    } else {
      StepNotAhead(c, ticks, t, es[0]);
      NeverInTheFuture(Do(c, ticks, es[0]), ticks, Later(t, es[0]), es[1..]);
    }
  }

  /** The first start sets the clock. */
  lemma StartSets(c: Clock, ticks: real, now: nat)
    requires ticks >= 1.0 && c.startCount == 0
    ensures var d := Do(c, ticks, Start(now, true));
      d.startCount == 1 && NotAhead(d, ticks, now) && d.periods == Ideal(d.anchor, ticks, now)
  {
    var d := Do(c, ticks, Start(now, true));
    assert PeriodStart(now, ticks, 0) == now;
    PeriodsApart(now, ticks, 0);
    IdealIsLast(now, ticks, now, 0);
    IdealIsLast(now, ticks, now, 1);
  }

  /** The first client starts I/O, which sets the clock anew. */
  predicate Restarts(c: Clock, e: Event) {
    e.Start? && e.accepted && c.startCount == 0
  }

  /** Every timestamp that is reported is that of the period in progress. */
  ghost predicate Tracks(c: Clock, ticks: real, es: seq<Event>)
    requires ticks >= 1.0
    decreases |es|
  {
    es != [] ==>
      var d := Do(c, ticks, es[0]);
      && (es[0].Ask? ==> d.anchor <= es[0].now && d.periods == Ideal(d.anchor, ticks, es[0].now))
      && Tracks(d, ticks, es[1..])
  }

  /** The time at which the clock was last asked or set, after an event. */
  function Asked(c: Clock, asked: nat, e: Event): nat {
    if e.Ask? || Restarts(c, e) then e.now else asked
  }

  /** From one call to the next, or from the first start to the next call, no more than one new period begins. */
  ghost predicate NonePassedOver(c: Clock, ticks: real, asked: nat, es: seq<Event>)
    requires ticks >= 1.0 && c.anchor <= asked
    decreases |es|
  {
    es != [] ==>
      && (es[0].Ask? ==>
            && c.anchor <= es[0].now
            && Ideal(c.anchor, ticks, es[0].now) <= Ideal(c.anchor, ticks, asked) + 1)
      && NonePassedOver(Do(c, ticks, es[0]), ticks, Asked(c, asked, es[0]), es[1..])
  }

  /** The clock tracks the period in progress through a whole run, however often I/O is stopped and started
      in it, exactly if no call comes so late that it passes over a period. */
  lemma {:induction false} TracksIffNonePassedOver(c: Clock, ticks: real, asked: nat, t: nat, es: seq<Event>)
    requires ticks >= 1.0 && c.anchor <= asked <= t && Monotone(t, es)
    requires c.periods == Ideal(c.anchor, ticks, asked)
    ensures Tracks(c, ticks, es) <==> NonePassedOver(c, ticks, asked, es)
    decreases |es|
  {
    if es == [] {
    } else {
      var e, d := es[0], Do(c, ticks, es[0]);
      if e.Ask? {
        AskFollows(c, ticks, e.now);
        IdealGrows(c.anchor, ticks, asked, e.now);
      } else if Restarts(c, e) {
        StartSets(c, ticks, e.now);
      }
      if d.periods == Ideal(d.anchor, ticks, Asked(c, asked, e)) {
        TracksIffNonePassedOver(d, ticks, Asked(c, asked, e), Later(t, e), es[1..]);
      }
    }
  }

  /** Calls are at most a whole period, rounded down to ticks, apart, the first one counted from the start. */
  ghost predicate OftenEnough(c: Clock, ticks: real, asked: nat, es: seq<Event>)
    decreases |es|
  {
    es != [] ==>
      && (es[0].Ask? ==> es[0].now <= asked + ticks.Floor)
      && OftenEnough(Do(c, ticks, es[0]), ticks, Asked(c, asked, es[0]), es[1..])
  }

  lemma OnePeriodOn(anchor: nat, ticks: real, asked: nat, now: nat)
    requires ticks >= 1.0 && anchor <= asked <= now <= asked + ticks.Floor
    ensures Ideal(anchor, ticks, now) <= Ideal(anchor, ticks, asked) + 1
  {
    var k := Ideal(anchor, ticks, asked);
    PeriodsApart(anchor, ticks, k + 1);
    IdealIsLast(anchor, ticks, now, k + 2);
  }

  lemma {:induction false} OftenPassesNone(c: Clock, ticks: real, asked: nat, t: nat, es: seq<Event>)
    requires ticks >= 1.0 && c.anchor <= asked <= t && Monotone(t, es) && OftenEnough(c, ticks, asked, es)
    ensures NonePassedOver(c, ticks, asked, es)
    decreases |es|
  {
    if es == [] {
    } else {
      var e := es[0];
      if e.Ask? {
        OnePeriodOn(c.anchor, ticks, asked, e.now);
      }
      OftenPassesNone(Do(c, ticks, e), ticks, Asked(c, asked, e), Later(t, e), es[1..]);
    }
  }

  /** So, from the first start on, calls that are at most a period apart always get the latest period that is
      not in the future, through any number of stops and new starts. */
  lemma OftenEnoughTracks(c: Clock, ticks: real, now: nat, es: seq<Event>)
    requires ticks >= 1.0 && c.startCount == 0 && Monotone(now, es)
    requires OftenEnough(Do(c, ticks, Start(now, true)), ticks, now, es)
    ensures Tracks(Do(c, ticks, Start(now, true)), ticks, es)
  {
    var d := Do(c, ticks, Start(now, true));
    StartSets(c, ticks, now);
    OftenPassesNone(d, ticks, now, now, es);
    TracksIffNonePassedOver(d, ticks, now, now, es);
  }

  /** A clock that has fallen behind catches up by one period a call: a period that has begun is
      reached after as many calls as the clock was periods behind. */
  lemma {:induction false} CatchesUp(c: Clock, ticks: real, t: nat, es: seq<Event>, begun: nat)
    requires ticks >= 1.0 && Monotone(t, es) && NoFreshStart(c.startCount, es)
    requires PeriodStart(c.anchor, ticks, begun) <= t
    ensures var reached := Run(c, ticks, es).periods; reached >= begun || reached >= c.periods + Asks(es)
    decreases |es|
  {
    if es == [] {
    } else {
      var d := Do(c, ticks, es[0]);
      NoFreshStartTail(c.startCount, es);
      ClientsCounted(c, ticks, [es[0]]);
      assert Run(c, ticks, [es[0]]) == d;
      if es[0].Ask? && c.periods < begun {
        PeriodOrder(c.anchor, ticks, c.periods + 1, begun);
      }
      CatchesUp(d, ticks, Later(t, es[0]), es[1..], begun);
    }
  }

  /** A device that is asked for the first time ten periods after it was started reports the first one. */
  lemma RareCallsLag()
    ensures var c := Do(Do(Clock(0, 0, 0), 100.0, Start(7, true)), 100.0, Ask(1007));
      c.periods == 1 && Ideal(c.anchor, 100.0, 1007) == 10
  {
    assert 10 as real * 100.0 == 1000.0 && 11 as real * 100.0 == 1100.0;
    IdealIsLast(7, 100.0, 1007, 10);
    IdealIsLast(7, 100.0, 1007, 11);
  }
}
