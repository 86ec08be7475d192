/** Owners and scope maps over whole runs, and when ownership stays free of cycles. */
module OwnershipRuns {
  import opened Ownership
  import opened OwnershipForest

  // ---------------------------------------------------------------- runs

  datatype Op =
    | Create(newcomer: Object)
    | AddOwned(o: Object, added: Object?, scope: nat)
    | RemoveOwned(o: Object, removed: Object)

  /** What a call does; an object is added only while it has no owner. */
  ghost predicate Step(f: Forest, op: Op, g: Forest) {
    match op
    case Create(x) => Joined(f, x, g) && DistinctIds(g.owner.Keys)
    case AddOwned(o, x, scope) =>
      && o in f.owner
      && if x == null || x == o then g == f else x in f.owner && f.owner[x] == null && Added(f, o, x, scope, g)
    case RemoveOwned(o, x) => o in f.owner && x in f.owner && Removed(f, o, x.id, g)
  }

  const NOBODY := Forest(map[], map[])

  ghost predicate Sound(f: Forest) {
    Agree(f) && DistinctIds(f.owner.Keys)
  }

  lemma AddedSound(f: Forest, o: Object, x: Object, scope: nat, g: Forest)
    requires Sound(f) && o in f.owner && x in f.owner && x != o && f.owner[x] == null && Added(f, o, x, scope, g)
    ensures Sound(g)
  {
    AddedAgrees(f, o, x, scope, g);
    assert g.owner.Keys == f.owner.Keys;
  }

  lemma RemovedSound(f: Forest, o: Object, x: Object, g: Forest)
    requires Sound(f) && o in f.owner && x in f.owner && Removed(f, o, x.id, g)
    ensures Sound(g) && g.owner == if f.owner[x] == o then f.owner[x := null] else f.owner
  {
    RemovedAgrees(f, o, x, g);
    assert g.owner.Keys == f.owner.Keys;
  }

  /** Every call keeps owners and scope maps in agreement. */
  lemma StepSound(f: Forest, op: Op, g: Forest)
    requires Sound(f) && Step(f, op, g)
    ensures Sound(g)
  {
    match op
    case Create(x) => JoinedAgrees(f, x, g);
    case AddOwned(o, x, scope) =>
      if x != null && x != o {
        AddedSound(f, o, x, scope, g);
      }
    case RemoveOwned(o, x) => RemovedSound(f, o, x, g);
  }

  ghost predicate StepAt(states: seq<Forest>, ops: seq<Op>, k: nat) {
    k < |ops| && k + 1 < |states| && Step(states[k], ops[k], states[k + 1])
  }

  ghost predicate IsRun(states: seq<Forest>, ops: seq<Op>) {
    |states| == |ops| + 1 && states[0] == NOBODY && forall k: nat :: k < |ops| ==> StepAt(states, ops, k)
  }

  lemma {:induction false} RunSound(states: seq<Forest>, ops: seq<Op>, k: nat)
    requires IsRun(states, ops) && k < |states|
    ensures Sound(states[k])
  {
    if k == 0 {
    } else {
      RunSound(states, ops, k - 1);
      assert StepAt(states, ops, k - 1);
      StepSound(states[k - 1], ops[k - 1], states[k]);
    }
  }

  /** In every state of every run, the owner of `x` is `o` exactly if `x` sits in exactly one scope map of `o`,
      and otherwise it sits in none of them. */
  lemma OwnerIffHeldOnceInRuns(states: seq<Forest>, ops: seq<Op>, k: nat, o: Object, x: Object)
    requires IsRun(states, ops) && k < |states| && o in states[k].owner && x in states[k].owner
    ensures states[k].owner[x] == o <==> HoldsOnce(states[k], o, x)
    ensures states[k].owner[x] != o ==> forall scope :: !Holds(states[k], o, scope, x)
  {
    RunSound(states, ops, k);
    OwnerIffHeldOnce(states[k], o, x);
  }

  // ---------------------------------------------------------------- cycles

  /** The owner's owner's ... owner, `n` times; null past the top. */
  ghost function Up(f: Forest, x: Object?, n: nat): Object? {
    if n == 0 then x
    else if x == null || x !in f.owner then null
    else Up(f, f.owner[x], n - 1)
  }

  /** `x` is `o`, or is owned by it, directly or not. */
  ghost predicate Under(f: Forest, x: Object, o: Object) {
    exists n: nat :: Up(f, x, n) == o
  }

  ghost predicate Acyclic(f: Forest) {
    forall x, n: nat {:trigger Up(f, x, n)} :: x in f.owner && n > 0 ==> Up(f, x, n) != x
  }

  lemma {:induction false} UpUp(f: Forest, x: Object?, m: nat, n: nat)
    ensures Up(f, x, m + n) == Up(f, Up(f, x, m), n)
    decreases m
  {
    if m == 0 {
    } else if x == null || x !in f.owner {
      NothingAboveNull(f, n);
    } else {
      UpUp(f, f.owner[x], m - 1, n);
    }
  }

  lemma NothingAboveNull(f: Forest, n: nat)
    ensures Up(f, null, n) == null
  {
  }

  /** Up to where it comes upon `x`, the way up is what it was before `x` got an owner. */
  lemma {:induction false} SameWay(f: Forest, g: Forest, x: Object, y: Object?, n: nat) returns (k: nat)
    requires x in f.owner && g.owner.Keys == f.owner.Keys
    requires forall z :: z in f.owner && z != x ==> g.owner[z] == f.owner[z]
    ensures k <= n
    ensures Up(g, y, k) == Up(f, y, k) && (k == n || Up(f, y, k) == x)
    decreases n
  {
    if n == 0 || y == x {
      k := 0;
    } else if y == null || y !in f.owner {
      k := n;
    } else {
      k := SameWay(f, g, x, f.owner[y], n - 1);
      k := k + 1;
    }
  }

  /** A cycle that comes upon `x` is a cycle of `x`. */
  lemma CycleOf(g: Forest, y: Object, m: nat, x: Object, k: nat)
    requires Up(g, y, m) == y && Up(g, y, k) == x
    ensures Up(g, x, m) == x
  {
    UpUp(g, y, k, m);
    UpUp(g, y, m, k);
  }

  lemma AddClosesCycle(f: Forest, o: Object, x: Object, scope: nat, g: Forest)
    requires x in f.owner && o in f.owner && f.owner[x] == null && Added(f, o, x, scope, g) && Under(f, o, x)
    ensures !Acyclic(g)
  {
    var n: nat :| Up(f, o, n) == x;
    var k := SameWay(f, g, x, o, n);
    assert Up(g, o, k) == x;
    assert Up(g, x, k + 1) == x;
  }

  lemma AddOpensNone(f: Forest, o: Object, x: Object, scope: nat, g: Forest)
    requires Acyclic(f) && x in f.owner && o in f.owner && Added(f, o, x, scope, g) && !Under(f, o, x)
    ensures Acyclic(g)
  {
    forall y, m: nat | y in g.owner && m > 0
      ensures Up(g, y, m) != y
    {
      if Up(g, y, m) == y {
        var k := SameWay(f, g, x, y, m);
        assert k == m ==> Up(f, y, m) == y;
        CycleOf(g, y, m, x, k);
        assert Up(g, o, m - 1) == x;
        var j := SameWay(f, g, x, o, m - 1);
      }
    }
  }

  /** Adding `x` to `o` keeps the ownership free of cycles exactly if `o` is not `x` nor anywhere under it. */
  lemma AddKeepsAcyclicIff(f: Forest, o: Object, x: Object, scope: nat, g: Forest)
    requires Acyclic(f) && x in f.owner && o in f.owner && f.owner[x] == null && Added(f, o, x, scope, g)
    ensures Acyclic(g) <==> !Under(f, o, x)
  {
    if Under(f, o, x) {
      AddClosesCycle(f, o, x, scope, g);
    } else {
      AddOpensNone(f, o, x, scope, g);
    }
  }

  /** Which the code does not look at: two objects can be added to each other. */
  lemma MutualOwners(f: Forest, a: Object, b: Object, scope: nat, g: Forest, h: Forest)
    requires Sound(f) && a != b && a in f.owner && b in f.owner && f.owner[a] == f.owner[b] == null
    requires Step(f, AddOwned(a, b, scope), g) && Step(g, AddOwned(b, a, scope), h)
    ensures Sound(h) && h.owner[a] == b && h.owner[b] == a && !Acyclic(h)
  {
    StepSound(f, AddOwned(a, b, scope), g);
    StepSound(g, AddOwned(b, a, scope), h);
    assert Up(h, b, 1) == Up(h, a, 0);
    assert Up(h, a, 2) == Up(h, b, 1);
  }

  /** Taking an owner away leaves every way up as it was, or cuts it off. */
  lemma {:induction false} CutWay(f: Forest, g: Forest, x: Object, y: Object?, n: nat)
    requires x in f.owner && g.owner == f.owner[x := null]
    ensures Up(g, y, n) == Up(f, y, n) || Up(g, y, n) == null
    decreases n
  {
    if n == 0 || y == null || y !in f.owner {
    } else if y == x {
      NothingAboveNull(g, n - 1);
    } else {
      CutWay(f, g, x, f.owner[y], n - 1);
    }
  }

  lemma CutKeepsAcyclic(f: Forest, x: Object, g: Forest)
    requires Acyclic(f) && x in f.owner && g.owner == f.owner[x := null]
    ensures Acyclic(g)
  {
    forall y, m: nat | y in g.owner && m > 0
      ensures Up(g, y, m) != y
    {
      CutWay(f, g, x, y, m);
      assert Up(f, y, m) != y;
    }
  }

  lemma {:induction false} NewcomerAside(f: Forest, x: Object, g: Forest, y: Object?, n: nat)
    requires OwnersOk(f) && Joined(f, x, g) && y != x
    ensures Up(g, y, n) == Up(f, y, n)
    decreases n
  {
    if n == 0 || y == null || y !in f.owner {
    } else {
      NewcomerAside(f, x, g, f.owner[y], n - 1);
    }
  }

  lemma JoinKeepsAcyclic(f: Forest, x: Object, g: Forest)
    requires Acyclic(f) && OwnersOk(f) && Joined(f, x, g)
    ensures Acyclic(g)
  {
    forall y, m: nat | y in g.owner && m > 0
      ensures Up(g, y, m) != y
    {
      if y == x {
        NothingAboveNull(g, m - 1);
      } else {
        NewcomerAside(f, x, g, y, m);
        assert Up(f, y, m) != y;
      }
    }
  }

  /** An addition hangs nothing under what is under it already. */
  ghost predicate Downward(f: Forest, op: Op) {
    op.AddOwned? && op.added != null && op.added != op.o ==> !Under(f, op.o, op.added)
  }

  lemma StepAcyclicIff(f: Forest, op: Op, g: Forest)
    requires Sound(f) && Acyclic(f) && Step(f, op, g)
    ensures Acyclic(g) <==> Downward(f, op)
  {
    match op
    case Create(x) => JoinKeepsAcyclic(f, x, g);
    case AddOwned(o, x, scope) =>
      if x == null || x == o {
      } else {
        AddKeepsAcyclicIff(f, o, x, scope, g);
      }
    case RemoveOwned(o, x) =>
      RemovedAgrees(f, o, x, g);
      if f.owner[x] == o {
        CutKeepsAcyclic(f, x, g);
      } else {
        SameOwners(f, g);
      }
  }

  lemma SameOwners(f: Forest, g: Forest)
    requires Acyclic(f) && g.owner == f.owner
    ensures Acyclic(g)
  {
    forall y, m: nat | y in g.owner && m > 0
      ensures Up(g, y, m) != y
    {
      SameUp(f, g, y, m);
    }
  }

  lemma {:induction false} SameUp(f: Forest, g: Forest, y: Object?, n: nat)
    requires g.owner == f.owner
    ensures Up(g, y, n) == Up(f, y, n)
    decreases n
  {
    if n == 0 || y == null || y !in f.owner {
    } else {
      SameUp(f, g, f.owner[y], n - 1);
    }
  }

  /** So ownership is a forest all along a run as long as no addition is turned against what is above it. */
  lemma {:induction false} RunAcyclic(states: seq<Forest>, ops: seq<Op>, k: nat)
    requires IsRun(states, ops) && k < |states|
    requires forall i: nat :: i < |ops| && StepAt(states, ops, i) ==> Downward(states[i], ops[i])
    ensures Acyclic(states[k])
  {
    if k == 0 {
    } else {
      RunAcyclic(states, ops, k - 1);
      RunSound(states, ops, k - 1);
      assert StepAt(states, ops, k - 1);
      StepAcyclicIff(states[k - 1], ops[k - 1], states[k]);
    }
  }
}
