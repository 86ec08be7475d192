/** The tracer: what is printed of nested operations when some are to be ignored. */
module Tracer {

  const HARD_LIMIT: nat := 1000   // DepthHardLimit

  /** Calls that a thread makes. */
  datatype Event<O> = Begin(op: O) | Say(text: string) | End(op: O, status: int)

  /** What is printed, with the depth that goes into the indentation. */
  datatype Line<O> =
    | BeginLine(op: O, depth: nat)
    | TextLine(text: string, depth: nat)
    | EndLine(op: O, status: int, depth: nat)
    | TooDeep
    | Unpaired

  /** The counters of a thread, and what it has printed. */
  datatype State<O> = State(depth: nat, ignore: nat, lines: seq<Line<O>>)

  predicate Ignoring<O>(s: State<O>) {
    s.ignore != 0 && s.depth >= s.ignore
  }

  function Printing<O>(s: State<O>, line: Line<O>): State<O> {
    s.(lines := s.lines + [line])
  }

  function Entered<O>(s: State<O>): State<O> {
    if s.depth < HARD_LIMIT then s.(depth := s.depth + 1) else Printing(s, TooDeep)
  }

  function Do<O>(s: State<O>, shouldIgnore: O -> bool, e: Event<O>): State<O> {
    match e
    case Begin(op) =>
      var t := Entered(s);
      if Ignoring(t) then t
      else if shouldIgnore(op) then t.(ignore := t.depth)
      else Printing(t, BeginLine(op, t.depth))
    case Say(text) =>
      if Ignoring(s) then s else Printing(s, TextLine(text, s.depth))
    case End(op, status) =>
      if Ignoring(s) then State(s.depth - 1, if s.depth == s.ignore then 0 else s.ignore, s.lines)
      else
        var t := Printing(s, EndLine(op, status, s.depth));
        if t.depth != 0 then t.(depth := t.depth - 1) else Printing(t, Unpaired)
  }

  /** The tracer as one thread uses it. */
  class Tracer<O> {
    const noop: bool
    const shouldIgnore: O -> bool
    var depthCounter: nat
    var ignoreCounter: nat
    var lines: seq<Line<O>>

    function View(): State<O>
      reads this
    {
      State(depthCounter, ignoreCounter, lines)
    }

    constructor (noop: bool, shouldIgnore: O -> bool)
      ensures this.noop == noop && this.shouldIgnore == shouldIgnore && View() == State(0, 0, [])
    {
      this.noop, this.shouldIgnore := noop, shouldIgnore;
      depthCounter, ignoreCounter, lines := 0, 0, [];
    }

    method Print(line: Line<O>)
      modifies this`lines
      ensures lines == old(lines) + [line]
    {
      lines := lines + [line];
    }

    method OperationBegin(op: O)
      modifies this
      ensures View() == if noop then old(View()) else Do(old(View()), shouldIgnore, Begin(op))
    {
      if noop {
        return;
      }
      if depthCounter < HARD_LIMIT {
        depthCounter := depthCounter + 1;
      } else {
        Print(TooDeep);
      }
      if ignoreCounter != 0 && depthCounter >= ignoreCounter {
        return;
      }
      if shouldIgnore(op) {
        ignoreCounter := depthCounter;
        return;
      }
      Print(BeginLine(op, depthCounter));
    }

    method Message(text: string)
      modifies this
      ensures View() == if noop then old(View()) else Do(old(View()), shouldIgnore, Say(text))
    {
      if noop || (ignoreCounter != 0 && depthCounter >= ignoreCounter) {
        return;
      }
      Print(TextLine(text, depthCounter));
    }

    method OperationEnd(op: O, status: int)
      modifies this
      ensures View() == if noop then old(View()) else Do(old(View()), shouldIgnore, End(op, status))
    {
      if noop {
        return;
      }
      if ignoreCounter != 0 && depthCounter >= ignoreCounter {
        if depthCounter == ignoreCounter {
          ignoreCounter := 0;
        }
        depthCounter := depthCounter - 1;
        return;
      }
      Print(EndLine(op, status, depthCounter));
      if depthCounter != 0 {
        depthCounter := depthCounter - 1;
      } else {
        Print(Unpaired);
      }
    }
  }

  // Well-nested traces.

  /** What a thread does one after the other: messages, and operations with more inside. */
  datatype Trace<O> = Nothing | Message(text: string, rest: Trace<O>)
    | Operation(op: O, inside: Trace<O>, status: int, rest: Trace<O>)

  function Events<O>(t: Trace<O>): seq<Event<O>> {
    match t
    case Nothing => []
    case Message(text, rest) => [Say(text)] + Events(rest)
    case Operation(op, inside, status, rest) => [Begin(op)] + Events(inside) + [End(op, status)] + Events(rest)
  }

  /** How deep operations are nested. */
  function Height<O>(t: Trace<O>): nat {
    match t
    case Nothing => 0
    case Message(_, rest) => Height(rest)
    case Operation(_, inside, _, rest) =>
      if Height(inside) + 1 > Height(rest) then Height(inside) + 1 else Height(rest)
  }

  /** What should be printed: everything but the operations to be ignored and what is inside of them, each
      at its depth. */
  function Expected<O>(t: Trace<O>, shouldIgnore: O -> bool, depth: nat): seq<Line<O>> {
    match t
    case Nothing => []
    case Message(text, rest) => [TextLine(text, depth)] + Expected(rest, shouldIgnore, depth)
    case Operation(op, inside, status, rest) =>
      if shouldIgnore(op) then Expected(rest, shouldIgnore, depth)
      else [BeginLine(op, depth + 1)] + Expected(inside, shouldIgnore, depth + 1)
           + [EndLine(op, status, depth + 1)] + Expected(rest, shouldIgnore, depth)
  }

  function Run<O>(s: State<O>, shouldIgnore: O -> bool, es: seq<Event<O>>): State<O>
    decreases |es|
  {
    if es == [] then s else Run(Do(s, shouldIgnore, es[0]), shouldIgnore, es[1..])
  }

  lemma {:induction false} RunAppend<O>(s: State<O>, shouldIgnore: O -> bool, es: seq<Event<O>>, fs: seq<Event<O>>)
    ensures Run(s, shouldIgnore, es + fs) == Run(Run(s, shouldIgnore, es), shouldIgnore, fs)
    decreases |es|
  {
    if es == [] {
      assert es + fs == fs;
    } else {
      assert (es + fs)[1..] == es[1..] + fs;
      RunAppend(Do(s, shouldIgnore, es[0]), shouldIgnore, es[1..], fs);
    }
  }

  /** The run of an operation, piece by piece. */
  lemma RunOperation<O>(s: State<O>, shouldIgnore: O -> bool, t: Trace<O>)
    requires t.Operation?
    ensures var began := Do(s, shouldIgnore, Begin(t.op));
      var ended := Do(Run(began, shouldIgnore, Events(t.inside)), shouldIgnore, End(t.op, t.status));
      Run(s, shouldIgnore, Events(t)) == Run(ended, shouldIgnore, Events(t.rest))
  {
    var began := Do(s, shouldIgnore, Begin(t.op));
    var last := [End(t.op, t.status)];
    assert Events(t) == [Begin(t.op)] + (Events(t.inside) + (last + Events(t.rest)));
    assert Events(t)[1..] == Events(t.inside) + (last + Events(t.rest));
    RunAppend(began, shouldIgnore, Events(t.inside), last + Events(t.rest));
    assert (last + Events(t.rest))[1..] == Events(t.rest);
  }

  lemma RunMessage<O>(s: State<O>, shouldIgnore: O -> bool, t: Trace<O>)
    requires t.Message?
    ensures Run(s, shouldIgnore, Events(t)) == Run(Do(s, shouldIgnore, Say(t.text)), shouldIgnore, Events(t.rest))
  {
    assert Events(t)[1..] == Events(t.rest);
  }

  /** Inside of an ignored operation nothing is printed and the counters come back. */
  lemma {:induction false} IgnoredIsSilent<O>(s: State<O>, shouldIgnore: O -> bool, t: Trace<O>)
    requires Ignoring(s) && s.depth + Height(t) <= HARD_LIMIT
    ensures Run(s, shouldIgnore, Events(t)) == s
    decreases t
  {
    match t
    case Nothing =>
    case Message(_, rest) =>
      RunMessage(s, shouldIgnore, t);
      IgnoredIsSilent(s, shouldIgnore, rest);
    case Operation(op, inside, status, rest) =>
      RunOperation(s, shouldIgnore, t);
      IgnoredIsSilent(Do(s, shouldIgnore, Begin(op)), shouldIgnore, inside);
      IgnoredIsSilent(s, shouldIgnore, rest);
  }

  lemma Joined<T>(a: seq<T>, b: seq<T>, c: seq<T>, d: seq<T>, e: seq<T>)
    ensures a + b + c + d + e == a + (b + c + d + e)
  {
  }

  /** Outside of one, exactly what is expected is printed, and both counters come back. */
  lemma {:induction false} TracePrinted<O>(s: State<O>, shouldIgnore: O -> bool, t: Trace<O>)
    requires s.ignore == 0 && s.depth + Height(t) <= HARD_LIMIT
    ensures Run(s, shouldIgnore, Events(t)) == s.(lines := s.lines + Expected(t, shouldIgnore, s.depth))
    decreases t
  {
    match t
    case Nothing =>
      assert s.lines + [] == s.lines;
    case Message(text, rest) =>
      var said := Do(s, shouldIgnore, Say(text));
      RunMessage(s, shouldIgnore, t);
      TracePrinted(said, shouldIgnore, rest);
      assert said.lines + Expected(rest, shouldIgnore, s.depth) == s.lines + Expected(t, shouldIgnore, s.depth);
    case Operation(op, inside, status, rest) =>
      var began := Do(s, shouldIgnore, Begin(op));
      RunOperation(s, shouldIgnore, t);
      if shouldIgnore(op) {
        IgnoredIsSilent(began, shouldIgnore, inside);
        TracePrinted(s, shouldIgnore, rest);
      } else {
        TracePrinted(began, shouldIgnore, inside);
        var ended := Do(Run(began, shouldIgnore, Events(inside)), shouldIgnore, End(op, status));
        TracePrinted(ended, shouldIgnore, rest);
        Joined(s.lines, [BeginLine(op, began.depth)], Expected(inside, shouldIgnore, began.depth),
               [EndLine(op, status, began.depth)], Expected(rest, shouldIgnore, s.depth));
      }
  }

  /** Of an end without a beginning, and of no other, the tracer complains, and then the depth stays at zero. */
  lemma UnpairedIff<O>(s: State<O>, shouldIgnore: O -> bool, op: O, status: int)
    requires s.ignore <= s.depth
    ensures var t := Do(s, shouldIgnore, End(op, status));
      && (s.depth == 0 <==> t.lines == s.lines + [EndLine(op, status, 0), Unpaired])
      && (t.lines != s.lines ==> (s.depth == 0 <==> t.lines[|t.lines| - 1] == Unpaired))
      && t.depth == if s.depth == 0 then 0 else s.depth - 1
  {
    var t := Do(s, shouldIgnore, End(op, status));
    if s.depth == 0 {
      assert s.lines + [EndLine(op, status, 0)] + [Unpaired] == s.lines + [EndLine(op, status, 0), Unpaired];
    } else {
      assert |t.lines| <= |s.lines| + 1;
    }
  }

  // Traces that are too deep.

  ghost predicate Complains<O>(lines: seq<Line<O>>) {
    exists i :: 0 <= i < |lines| && lines[i] == TooDeep
  }

  lemma ComplaintStays<O>(s: State<O>, shouldIgnore: O -> bool, e: Event<O>)
    requires Complains(s.lines)
    ensures Complains(Do(s, shouldIgnore, e).lines)
  {
    var i :| 0 <= i < |s.lines| && s.lines[i] == TooDeep;
    var d := Do(s, shouldIgnore, e);
    assert i < |d.lines| && d.lines[i] == TooDeep;
  }

  lemma {:induction false} ComplaintsStay<O>(s: State<O>, shouldIgnore: O -> bool, es: seq<Event<O>>)
    requires Complains(s.lines)
    ensures Complains(Run(s, shouldIgnore, es).lines)
    decreases |es|
  {
    if es == [] {
    } else {
      ComplaintStays(s, shouldIgnore, es[0]);
      ComplaintsStay(Do(s, shouldIgnore, es[0]), shouldIgnore, es[1..]);
    }
  }

  lemma {:induction false} ExpectsNoComplaint<O>(t: Trace<O>, shouldIgnore: O -> bool, depth: nat)
    ensures !Complains(Expected(t, shouldIgnore, depth))
  {
    match t
    case Nothing =>
    case Message(_, rest) =>
      ExpectsNoComplaint(rest, shouldIgnore, depth);
    case Operation(op, inside, _, rest) =>
      ExpectsNoComplaint(rest, shouldIgnore, depth);
      ExpectsNoComplaint(inside, shouldIgnore, depth + 1);
  }

  /** The counters come back whether or not something is ignored. */
  lemma CountersReturn<O>(s: State<O>, shouldIgnore: O -> bool, t: Trace<O>)
    requires s.ignore <= s.depth && s.depth + Height(t) <= HARD_LIMIT
    ensures var r := Run(s, shouldIgnore, Events(t)); r.depth == s.depth && r.ignore == s.ignore
  {
    if Ignoring(s) {
      IgnoredIsSilent(s, shouldIgnore, t);
    } else {
      TracePrinted(s, shouldIgnore, t);
    }
  }

  lemma {:induction false} TooDeepComplains<O>(s: State<O>, shouldIgnore: O -> bool, t: Trace<O>)
    requires s.ignore <= s.depth <= HARD_LIMIT < s.depth + Height(t)
    ensures Complains(Run(s, shouldIgnore, Events(t)).lines)
    decreases t
  {
    match t
    case Nothing =>
    case Message(text, rest) =>
      RunMessage(s, shouldIgnore, t);
      TooDeepComplains(Do(s, shouldIgnore, Say(text)), shouldIgnore, rest);
    case Operation(op, inside, status, rest) =>
      RunOperation(s, shouldIgnore, t);
      var began := Do(s, shouldIgnore, Begin(op));
      var done := Run(began, shouldIgnore, Events(inside));
      var ended := Do(done, shouldIgnore, End(op, status));
      if s.depth == HARD_LIMIT {
        assert Entered(s).lines[|s.lines|] == TooDeep;
        assert began.lines[|s.lines|] == TooDeep;
        ComplaintsStay(began, shouldIgnore, Events(inside));
        ComplaintStays(done, shouldIgnore, End(op, status));
        ComplaintsStay(ended, shouldIgnore, Events(rest));
      } else if s.depth + 1 + Height(inside) > HARD_LIMIT {
        TooDeepComplains(began, shouldIgnore, inside);
        ComplaintStays(done, shouldIgnore, End(op, status));
        ComplaintsStay(ended, shouldIgnore, Events(rest));
      } else {
        CountersReturn(began, shouldIgnore, inside);
        TooDeepComplains(ended, shouldIgnore, rest);
      }
  }

  /** However deep, a well-nested trace leaves no counter higher than it was. */
  lemma {:induction false} CountersNeverRise<O>(s: State<O>, shouldIgnore: O -> bool, t: Trace<O>)
    requires s.ignore <= s.depth
    ensures var r := Run(s, shouldIgnore, Events(t)); r.ignore <= r.depth <= s.depth
    decreases t
  {
    match t
    case Nothing =>
    case Message(text, rest) =>
      RunMessage(s, shouldIgnore, t);
      CountersNeverRise(Do(s, shouldIgnore, Say(text)), shouldIgnore, rest);
    case Operation(op, inside, status, rest) =>
      RunOperation(s, shouldIgnore, t);
      var began := Do(s, shouldIgnore, Begin(op));
      CountersNeverRise(began, shouldIgnore, inside);
      var done := Run(began, shouldIgnore, Events(inside));
      CountersNeverRise(Do(done, shouldIgnore, End(op, status)), shouldIgnore, rest);
  }

  /** Within an operation, a trace that is too deep leaves the depth lower than it was. */
  lemma {:induction false} SinksIfTooDeep<O>(s: State<O>, shouldIgnore: O -> bool, t: Trace<O>)
    requires s.ignore <= s.depth && 0 < s.depth <= HARD_LIMIT < s.depth + Height(t)
    ensures Run(s, shouldIgnore, Events(t)).depth < s.depth
    decreases t
  {
    match t
    case Nothing =>
    case Message(text, rest) =>
      RunMessage(s, shouldIgnore, t);
      SinksIfTooDeep(Do(s, shouldIgnore, Say(text)), shouldIgnore, rest);
    case Operation(op, inside, status, rest) =>
      RunOperation(s, shouldIgnore, t);
      var began := Do(s, shouldIgnore, Begin(op));
      var done := Run(began, shouldIgnore, Events(inside));
      var ended := Do(done, shouldIgnore, End(op, status));
      CountersNeverRise(began, shouldIgnore, inside);
      if s.depth == HARD_LIMIT {
        CountersNeverRise(ended, shouldIgnore, rest);
      } else if s.depth + 1 + Height(inside) > HARD_LIMIT {
        SinksIfTooDeep(began, shouldIgnore, inside);
        CountersNeverRise(ended, shouldIgnore, rest);
      } else {
        CountersReturn(began, shouldIgnore, inside);
        SinksIfTooDeep(ended, shouldIgnore, rest);
      }
  }

  /** The depth comes back exactly if the trace is outside of every operation or stays within the hard limit. */
  lemma DepthReturnsIff<O>(s: State<O>, shouldIgnore: O -> bool, t: Trace<O>)
    requires s.ignore <= s.depth <= HARD_LIMIT
    ensures Run(s, shouldIgnore, Events(t)).depth == s.depth <==> s.depth == 0 || s.depth + Height(t) <= HARD_LIMIT
    ensures Run(s, shouldIgnore, Events(t)).depth <= s.depth
  {
    CountersNeverRise(s, shouldIgnore, t);
    if s.depth + Height(t) <= HARD_LIMIT {
      CountersReturn(s, shouldIgnore, t);
    } else if s.depth > 0 {
      SinksIfTooDeep(s, shouldIgnore, t);
    }
  }

  /** Chains of one operation inside the other. */
  function Chain<O>(op: O, n: nat): Trace<O> {
    if n == 0 then Nothing else Operation(op, Chain(op, n - 1), 0, Nothing)
  }

  lemma {:induction false} ChainHeight<O>(op: O, n: nat)
    ensures Height(Chain(op, n)) == n
  {
    if n == 0 {
    } else {
      ChainHeight(op, n - 1);
    }
  }

  /** An operation in which a chain of a thousand more is begun and ended has lost its depth by then. */
  lemma DepthLost<O>(shouldIgnore: O -> bool, op: O)
    ensures var s := Do(State(0, 0, []), shouldIgnore, Begin(op));
      s.depth == 1 && Run(s, shouldIgnore, Events(Chain(op, 1000))).depth == 0
  {
    var s := Do(State(0, 0, []), shouldIgnore, Begin(op));
    ChainHeight(op, HARD_LIMIT);
    CountersNeverRise(s, shouldIgnore, Chain(op, HARD_LIMIT));
    DepthReturnsIff(s, shouldIgnore, Chain(op, HARD_LIMIT));
  }

  /** From the start, both counters are back at zero after every well-nested trace, and it is printed as it
      should be exactly if its operations are not nested deeper than the hard limit. */
  lemma PrintedAsExpectedIffShallow<O>(shouldIgnore: O -> bool, t: Trace<O>)
    ensures var r := Run(State(0, 0, []), shouldIgnore, Events(t));
      && (r.lines == Expected(t, shouldIgnore, 0) <==> Height(t) <= 1000)
      && r.depth == r.ignore == 0
  {
    var s: State<O> := State(0, 0, []);
    CountersNeverRise(s, shouldIgnore, t);
    if Height(t) <= HARD_LIMIT {
      TracePrinted(s, shouldIgnore, t);
      assert s.lines + Expected(t, shouldIgnore, 0) == Expected(t, shouldIgnore, 0);
    } else {
      TooDeepComplains(s, shouldIgnore, t);
      ExpectsNoComplaint(t, shouldIgnore, 0);
    }
  }
}
