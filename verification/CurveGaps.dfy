/** Curves whose ranges do not join: what the conversions, which count steps, make of the gaps. */
module CurveGaps {
  import opened CurvePoints
  import opened CurveRanges

  ghost predicate AllRising(c: seq<Segment>) {
    forall i :: 0 <= i < |c| ==> Rising(c[i])
  }

  /** The segment, moved to where another one ends. */
  function Moved(s: Segment, end: Segment): Segment {
    Segment(end.rawMax, end.rawMax + (s.rawMax - s.rawMin), end.dbMax, end.dbMax + Height(s))
  }

  /** The curve with its segments pushed together. */
  function Joined(c: seq<Segment>): (joined: seq<Segment>)
    ensures |joined| == |c|
    decreases |c|
  {
    if |c| <= 1 then c
    else
      var rest := Joined(c[..|c| - 1]);
      rest + [Moved(c[|c| - 1], rest[|rest| - 1])]
  }

  /** Pushing together moves segments and leaves their lines as they are. */
  lemma {:induction false} JoinedAt(c: seq<Segment>, i: nat)
    requires i < |c|
    ensures Width(Joined(c)[i]) == Width(c[i]) && Height(Joined(c)[i]) == Height(c[i])
    ensures if i == 0 then Joined(c)[i] == c[i] else Abut(Joined(c)[i - 1], Joined(c)[i])
    decreases |c|
  {
    if |c| <= 1 || i == |c| - 1 {
    } else {
      assert c[..|c| - 1][i] == c[i];
      JoinedAt(c[..|c| - 1], i);
    }
  }

  lemma JoinedValid(c: seq<Segment>)
    requires c != [] && AllRising(c)
    ensures ValidCurve(Joined(c)) && MinRaw(Joined(c)) == MinRaw(c) && MinDB(Joined(c)) == MinDB(c)
  {
    forall i | 0 <= i < |c|
      ensures Rising(Joined(c)[i]) && (i > 0 ==> Abut(Joined(c)[i - 1], Joined(c)[i]))
    {
      JoinedAt(c, i);
      assert Rising(c[i]);
    }
    JoinedAt(c, 0);
  }

  /** A continuous curve is as it is. */
  lemma {:induction false} JoinedSame(c: seq<Segment>)
    requires Continuous(c)
    ensures Joined(c) == c
    decreases |c|
  {
    if |c| <= 1 {
    } else {
      var rest, last := c[..|c| - 1], c[|c| - 1];
      forall i | 0 < i < |rest|
        ensures Abut(rest[i - 1], rest[i])
      {
        assert Abut(c[i - 1], c[i]);
      }
      JoinedSame(rest);
      assert Abut(c[|c| - 2], last);
      assert Moved(last, rest[|rest| - 1]) == last;
      assert c == rest + [last];
    }
  }

  /** The level over a raw value, which is first brought into the range of the curve as it is. */
  ghost function LevelOver(c: seq<Segment>, raw: int): real
    requires c != [] && AllRising(c)
  {
    JoinedValid(c);
    RawToDB(Joined(c), ClampInt(raw, MinRaw(c), MaxRaw(c)))
  }

  /** The first segment that reaches up to a level. */
  ghost predicate FirstUpTo(c: seq<Segment>, level: real, k: nat) {
    k < |c| && level <= c[k].dbMax && forall j :: 0 <= j < k ==> c[j].dbMax < level
  }

  lemma {:induction false} SomeReaches(c: seq<Segment>, level: real, n: nat) returns (k: nat)
    requires n < |c| && level <= c[n].dbMax
    ensures k <= n && FirstUpTo(c, level, k)
  {
    if forall j :: 0 <= j < n ==> c[j].dbMax < level {
      k := n;
    } else {
      var j :| 0 <= j < n && level <= c[j].dbMax;
      k := SomeReaches(c, level, j);
    }
  }

  /** The raw value for a level: as many steps into the first segment that reaches up to it as the level is above
      where that segment begins, after as many as the segments before it have. */
  ghost function RawFor(c: seq<Segment>, db: real): int
    requires c != [] && AllRising(c)
  {
    var level := Clamp(db, MinDB(c), MaxDB(c));
    assert exists k: nat :: FirstUpTo(c, level, k) by {
      var k := SomeReaches(c, level, |c| - 1);
    }
    var k: nat :| FirstUpTo(c, level, k);
    RawIn(c, level, k)
  }

  ghost function RawIn(c: seq<Segment>, level: real, k: nat): int
    requires AllRising(c) && k < |c|
  {
    Joined(c)[k].rawMin + Round((level - c[k].dbMin) / Step(c[k]))
  }

  lemma RawForIs(c: seq<Segment>, db: real, k: nat)
    requires c != [] && AllRising(c) && FirstUpTo(c, Clamp(db, MinDB(c), MaxDB(c)), k)
    ensures RawFor(c, db) == RawIn(c, Clamp(db, MinDB(c), MaxDB(c)), k)
  {
    var level := Clamp(db, MinDB(c), MaxDB(c));
    var j: nat :| FirstUpTo(c, level, j) && RawFor(c, db) == RawIn(c, level, j);
    FirstUnique(c, level, j, k);
  }

  lemma FirstUnique(c: seq<Segment>, level: real, j: nat, k: nat)
    requires FirstUpTo(c, level, j) && FirstUpTo(c, level, k)
    ensures j == k
  {
  }

  /** In steps of that segment it is as near as can be to how far the level is above its beginning, or below. */
  lemma RawForIsNearest(c: seq<Segment>, db: real, k: nat)
    requires c != [] && AllRising(c) && FirstUpTo(c, Clamp(db, MinDB(c), MaxDB(c)), k)
    ensures var steps := (Clamp(db, MinDB(c), MaxDB(c)) - c[k].dbMin) / (Height(c[k]) / Width(c[k]));
      -0.5 <= (RawFor(c, db) - Joined(c)[k].rawMin) as real - steps <= 0.5
  {
    RawForIs(c, db, k);
    RoundMovesHalf((Clamp(db, MinDB(c), MaxDB(c)) - c[k].dbMin) / Step(c[k]));
  }

  lemma RoundMovesHalf(x: real)
    ensures -0.5 <= Round(x) as real - x <= 0.5
  {
  }

  lemma EndsOfSorted(c: seq<Segment>)
    requires c != [] && Sorted(c) && AllRising(c)
    ensures MinRaw(c) < MaxRaw(c)
  {
    if |c| > 1 {
      SortedOrder(c, 0, |c| - 1);
    }
    assert Rising(c[|c| - 1]);
  }

  lemma Quotient(steps: real, dbPerRaw: real, w: real, h: real)
    requires w > 0.0 && h > 0.0 && dbPerRaw == h / w
    ensures dbPerRaw > 0.0 && (steps * dbPerRaw) * w == steps * h
  {
    assert dbPerRaw * w == h;
    assert (steps * dbPerRaw) * w == steps * (dbPerRaw * w);
    SameSign(dbPerRaw, 1.0, w, h);
  }

  lemma Cancel(a: real, b: real, w: real)
    requires w > 0.0 && a * w == b * w
    ensures a == b
  {
    assert (a - b) * w == 0.0;
    SameSign(a - b, 0.0, w, 1.0);
  }

  /** Raw steps from the start of a segment lead to where the curve reaches the level. */
  lemma StepsInto(c: seq<Segment>, i: nat, inDB: real, dbPerRaw: real)
    requires ValidCurve(c) && i < |c|
    requires dbPerRaw == Height(c[i]) / Width(c[i])
    requires var db := Clamp(inDB, MinDB(c), MaxDB(c)); c[i].dbMin <= db <= c[i].dbMax
    ensures dbPerRaw > 0.0
    ensures c[i].rawMin + Round((Clamp(inDB, MinDB(c), MaxDB(c)) - c[i].dbMin) / dbPerRaw) == DBToRaw(c, inDB)
  {
    var db, s := Clamp(inDB, MinDB(c), MaxDB(c)), c[i];
    assert Rising(s);
    Quotient(1.0, dbPerRaw, Width(s), Height(s));
    var x := PointAt(s, db);
    DBToRawIs(c, inDB, x);
    StepsOfPoint(s, x, db, dbPerRaw);
    RoundShifted(x - s.rawMin as real, s.rawMin, x);
  }

  lemma StepsOfPoint(s: Segment, x: real, y: real, dbPerRaw: real)
    requires Rising(s) && OnSegment(s, x, y) && dbPerRaw == Height(s) / Width(s) > 0.0
    ensures (y - s.dbMin) / dbPerRaw == x - s.rawMin as real
  {
    var steps := x - s.rawMin as real;
    Quotient(steps, dbPerRaw, Width(s), Height(s));
    Cancel(steps * dbPerRaw, y - s.dbMin, Width(s));
  }

  lemma RoundShifted(x: real, n: int, shifted: real)
    requires x >= 0.0 && shifted == x + n as real
    ensures n + Round(x) == (shifted + 0.5).Floor
  {
  }

  /** On a curve without gaps these are the level of the curve over the raw value, and the raw value closest to
      where the curve reaches the level. */
  lemma NoGaps(c: seq<Segment>, raw: int, db: real)
    requires ValidCurve(c)
    ensures AllRising(c) && LevelOver(c, raw) == RawToDB(c, raw) && RawFor(c, db) == DBToRaw(c, db)
  {
    JoinedSame(c);
    EndsInOrder(c);
    RawToDBIs(c, raw, LevelOver(c, raw));
    var level := Clamp(db, MinDB(c), MaxDB(c));
    var k := SomeReaches(c, level, |c| - 1);
    RawForIs(c, db, k);
    if k > 0 {
      assert Abut(c[k - 1], c[k]);
    }
    StepsInto(c, k, db, Step(c[k]));
  }

  /** Gaps or not, a louder raw value is never fewer decibels; and it is more, exactly if the other one is not
      yet where the curve would end without the gaps. */
  lemma LevelRisesIff(c: seq<Segment>, raw1: int, raw2: int)
    requires c != [] && Sorted(c) && AllRising(c) && MinRaw(c) <= raw1 < raw2 <= MaxRaw(c)
    ensures LevelOver(c, raw1) <= LevelOver(c, raw2)
    ensures LevelOver(c, raw1) < LevelOver(c, raw2) <==> raw1 < MaxRaw(Joined(c))
  {
    var joined := Joined(c);
    JoinedValid(c);
    EndsInOrder(joined);
    CurveRises(joined, ClampInt(raw1, MinRaw(joined), MaxRaw(joined)) as real, LevelOver(c, raw1),
               ClampInt(raw2, MinRaw(joined), MaxRaw(joined)) as real, LevelOver(c, raw2));
  }
}
