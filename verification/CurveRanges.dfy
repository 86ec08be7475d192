/** Building a curve range by range. */
module CurveRanges {
  import opened CurvePoints

  predicate Overlap(s: Segment, t: Segment) {
    s.rawMin < t.rawMax && s.rawMax > t.rawMin
  }

  /** The entries are kept sorted by where they start. */
  ghost predicate Sorted(c: seq<Segment>) {
    forall i :: 0 < i < |c| ==> c[i - 1].rawMin < c[i].rawMin
  }

  /** Insertion in the curve map, which does nothing if an entry starts at the same value. */
  function Inserted(c: seq<Segment>, s: Segment): seq<Segment> {
    if c == [] || s.rawMin < c[0].rawMin then [s] + c
    else if s.rawMin == c[0].rawMin then c
    else [c[0]] + Inserted(c[1..], s)
  }

  /** A range is turned away if it overlaps the first entry, or if it starts before all and overlaps any. */
  ghost predicate Refused(c: seq<Segment>, s: Segment) {
    exists i :: 0 <= i < |c| && Overlap(s, c[i]) && (i == 0 || s.rawMin < c[0].rawMin)
  }

  ghost function RangeAdded(c: seq<Segment>, s: Segment): seq<Segment> {
    if Refused(c, s) then c else Inserted(c, s)
  }

  ghost predicate Disjoint(c: seq<Segment>) {
    forall x, y :: x in c && y in c && x != y ==> !Overlap(x, y)
  }

  lemma {:induction false} SortedOrder(c: seq<Segment>, i: nat, j: nat)
    requires Sorted(c) && i < j < |c|
    ensures c[i].rawMin < c[j].rawMin
  {
    if i == j - 1 {
    } else {
      SortedOrder(c, i, j - 1);
    }
  }

  lemma SortedTail(c: seq<Segment>)
    requires Sorted(c) && c != []
    ensures Sorted(c[1..])
    ensures forall t :: t in c[1..] ==> c[0].rawMin < t.rawMin
  {
    forall i | 0 < i < |c|
      ensures c[0].rawMin < c[i].rawMin
    {
      SortedOrder(c, 0, i);
    }
  }

  /** What is in the map after an insertion. */
  lemma {:induction false} InsertedHolds(c: seq<Segment>, s: Segment, t: Segment)
    requires Sorted(c)
    ensures t in Inserted(c, s) <==> t in c || (t == s && forall u :: u in c ==> u.rawMin != s.rawMin)
  {
    if c == [] {
    } else {
      SortedTail(c);
      assert c == [c[0]] + c[1..];
      if s.rawMin > c[0].rawMin {
        InsertedHolds(c[1..], s, t);
        assert (forall u :: u in c ==> u.rawMin != s.rawMin) <==> (forall u :: u in c[1..] ==> u.rawMin != s.rawMin);
      }
    }
  }

  lemma {:induction false} InsertedSorted(c: seq<Segment>, s: Segment)
    requires Sorted(c)
    ensures Sorted(Inserted(c, s)) && Inserted(c, s) != []
    ensures Inserted(c, s)[0].rawMin == if c == [] || s.rawMin < c[0].rawMin then s.rawMin else c[0].rawMin
  {
    if c == [] || s.rawMin <= c[0].rawMin {
    } else {
      SortedTail(c);
      InsertedSorted(c[1..], s);
    }
  }

  ghost predicate OverlapsSome(c: seq<Segment>, s: Segment) {
    exists t :: t in c && Overlap(s, t)
  }

  ghost predicate StartTaken(c: seq<Segment>, s: Segment) {
    exists t :: t in c && t.rawMin == s.rawMin
  }

  /** Adding a range keeps the entries disjoint exactly if it overlaps none of them, or an entry starts at the
      same value, or it overlaps the first entry or starts before it. An overlap with only a later
      entry goes unnoticed. */
  lemma AddKeepsDisjoint(c: seq<Segment>, s: Segment)
    requires Sorted(c) && Disjoint(c) && s.rawMin < s.rawMax
    ensures Disjoint(RangeAdded(c, s)) <==>
              !OverlapsSome(c, s) || StartTaken(c, s) || Overlap(s, c[0]) || s.rawMin < c[0].rawMin
  {
    var d := RangeAdded(c, s);
    forall t
      ensures t in Inserted(c, s) <==> t in c || (t == s && !StartTaken(c, s))
    {
      InsertedHolds(c, s, t);
    }
    if OverlapsSome(c, s) {
      var t :| t in c && Overlap(s, t);
      if Overlap(s, c[0]) || s.rawMin < c[0].rawMin {
        var i :| 0 <= i < |c| && t == c[i];
        assert Refused(c, s);
      } else if !StartTaken(c, s) {
        assert s in d && t in d;
      }
    }
  }

  /** So there are curves that a range makes overlap. */
  lemma OverlapUnnoticed()
    ensures var c := [Segment(0, 10, 0.0, 1.0), Segment(20, 30, 1.0, 2.0)];
      Sorted(c) && Disjoint(c) && !Disjoint(RangeAdded(c, Segment(15, 25, 2.0, 3.0)))
  {
    var c := [Segment(0, 10, 0.0, 1.0), Segment(20, 30, 1.0, 2.0)];
    var s := Segment(15, 25, 2.0, 3.0);
    assert c[1] in c && Overlap(s, c[1]);
    AddKeepsDisjoint(c, s);
  }

  lemma {:induction false} InsertedLast(c: seq<Segment>, s: Segment)
    requires forall i :: 0 <= i < |c| ==> c[i].rawMin < s.rawMin
    ensures Inserted(c, s) == c + [s]
  {
    if c == [] {
    } else {
      InsertedLast(c[1..], s);
      assert c == [c[0]] + c[1..];
    }
  }

  /** Every curve of joined rising lines can be built range by range, from the left. */
  lemma AddExtends(c: seq<Segment>, s: Segment)
    requires Rising(s) && (c == [] || (ValidCurve(c) && Abut(c[|c| - 1], s)))
    ensures RangeAdded(c, s) == c + [s] && ValidCurve(c + [s])
  {
    if c != [] {
      forall i | 0 <= i < |c|
        ensures c[i].rawMin < c[i].rawMax <= s.rawMin
      {
        assert Rising(c[i]) && Rising(c[|c| - 1]);
        if i < |c| - 1 {
          InOrder(c, i, |c| - 1);
        }
      }
    }
    InsertedLast(c, s);
  }
}
