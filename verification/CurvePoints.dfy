/** Volume curves as what they are drawn as: rising lines, joined end to end, over the raw values. */
module CurvePoints {

  /** One entry of the curve map: the raw values it spans, and the decibels at both ends. */
  datatype Segment = Segment(rawMin: int, rawMax: int, dbMin: real, dbMax: real)

  predicate Rising(s: Segment) {
    s.rawMin < s.rawMax && s.dbMin < s.dbMax
  }

  predicate Abut(s: Segment, t: Segment) {
    s.rawMax == t.rawMin && s.dbMax == t.dbMin
  }

  predicate Continuous(c: seq<Segment>) {
    forall i :: 0 < i < |c| ==> Abut(c[i - 1], c[i])
  }

  predicate ValidCurve(c: seq<Segment>) {
    |c| > 0 && Continuous(c) && forall i :: 0 <= i < |c| ==> Rising(c[i])
  }

  /** The ends of the curve; zero for a curve without entries. */
  function MinRaw(c: seq<Segment>): int { if c == [] then 0 else c[0].rawMin }

  function MaxRaw(c: seq<Segment>): int { if c == [] then 0 else c[|c| - 1].rawMax }

  function MinDB(c: seq<Segment>): real { if c == [] then 0.0 else c[0].dbMin }

  function MaxDB(c: seq<Segment>): real { if c == [] then 0.0 else c[|c| - 1].dbMax }

  function ClampInt(x: int, low: int, high: int): int {
    var y := if x < low then low else x;
    if y > high then high else y
  }

  function Clamp(x: real, low: real, high: real): real {
    var y := if x < low then low else x;
    if y > high then high else y
  }

  /** roundf followed by the conversion to an integer: halves go away from zero. */
  function Round(x: real): int {
    if x >= 0.0 then (x + 0.5).Floor else -(0.5 - x).Floor
  }

  function Width(s: Segment): real { (s.rawMax - s.rawMin) as real }

  function Height(s: Segment): real { s.dbMax - s.dbMin }

  /** Decibels per raw step. */
  function Step(s: Segment): real
    requires Rising(s)
  {
    Height(s) / Width(s)
  }

  /** The point lies on the line between the ends of the segment. */
  predicate OnSegment(s: Segment, x: real, y: real) {
    && s.rawMin as real <= x <= s.rawMax as real
    && s.dbMin <= y <= s.dbMax
    && (y - s.dbMin) * Width(s) == (x - s.rawMin as real) * Height(s)
  }

  ghost predicate OnCurve(c: seq<Segment>, x: real, y: real) {
    exists i :: 0 <= i < |c| && OnSegment(c[i], x, y)
  }

  // Arithmetic.

  lemma SameSign(a: real, b: real, w: real, h: real)
    requires w > 0.0 && h > 0.0 && a * w == b * h
    ensures (a > 0.0 <==> b > 0.0) && (a < 0.0 <==> b < 0.0)
  {
  }

  lemma Proportion(a: real, w: real, h: real) returns (b: real)
    requires w > 0.0 && h > 0.0 && 0.0 <= a <= w
    ensures b * w == a * h && 0.0 <= b <= h
  {
    b := a * h / w;
    assert b * w == a * h;
    assert (h - b) * w == (w - a) * h;
  }

  // Points of one segment.

  lemma PointOver(s: Segment, x: real) returns (y: real)
    requires Rising(s) && s.rawMin as real <= x <= s.rawMax as real
    ensures OnSegment(s, x, y)
  {
    var b := Proportion(x - s.rawMin as real, Width(s), Height(s));
    y := s.dbMin + b;
  }

  lemma PointAt(s: Segment, y: real) returns (x: real)
    requires Rising(s) && s.dbMin <= y <= s.dbMax
    ensures OnSegment(s, x, y)
  {
    var b := Proportion(y - s.dbMin, Height(s), Width(s));
    x := s.rawMin as real + b;
  }

  lemma SegmentRises(s: Segment, x1: real, y1: real, x2: real, y2: real)
    requires Rising(s) && OnSegment(s, x1, y1) && OnSegment(s, x2, y2)
    ensures (y2 - y1) * Width(s) == (x2 - x1) * Height(s)
    ensures x1 < x2 <==> y1 < y2
    ensures x1 == x2 <==> y1 == y2
  {
    assert (y2 - y1) * Width(s) == (y2 - s.dbMin) * Width(s) - (y1 - s.dbMin) * Width(s);
    assert (x2 - x1) * Height(s) == (x2 - s.rawMin as real) * Height(s) - (x1 - s.rawMin as real) * Height(s);
    SameSign(y2 - y1, x2 - x1, Width(s), Height(s));
  }

  lemma SegmentEnds(s: Segment)
    requires Rising(s)
    ensures OnSegment(s, s.rawMin as real, s.dbMin) && OnSegment(s, s.rawMax as real, s.dbMax)
  {
  }

  // Points of the whole curve.

  /** Where one segment ends and where a later one begins. */
  lemma {:induction false} InOrder(c: seq<Segment>, i: nat, j: nat)
    requires ValidCurve(c) && i < j < |c|
    ensures c[i].rawMax <= c[j].rawMin && c[i].dbMax <= c[j].dbMin
    ensures j > i + 1 ==> c[i].rawMax < c[j].rawMin && c[i].dbMax < c[j].dbMin
  {
    assert Abut(c[j - 1], c[j]) && Rising(c[j - 1]);
    if j == i + 1 {
    } else {
      InOrder(c, i, j - 1);
    }
  }

  lemma SegmentsRise(c: seq<Segment>, i: nat, j: nat, x1: real, y1: real, x2: real, y2: real)
    requires ValidCurve(c) && i < j < |c| && OnSegment(c[i], x1, y1) && OnSegment(c[j], x2, y2)
    ensures x1 <= x2 && y1 <= y2
    ensures x1 < x2 <==> y1 < y2
  {
    InOrder(c, i, j);
    if x1 == x2 || y1 == y2 {
      assert j == i + 1;
      assert Abut(c[i], c[i + 1]) && Rising(c[i]) && Rising(c[j]);
      SegmentEnds(c[i]);
      SegmentEnds(c[j]);
      SegmentRises(c[i], x1, y1, c[i].rawMax as real, c[i].dbMax);
      SegmentRises(c[j], c[j].rawMin as real, c[j].dbMin, x2, y2);
    }
  }

  /** The curve rises strictly: of two points the one further right is the one further up. So there is
      one point over every raw value, and one at every level. */
  lemma CurveRises(c: seq<Segment>, x1: real, y1: real, x2: real, y2: real)
    requires ValidCurve(c) && OnCurve(c, x1, y1) && OnCurve(c, x2, y2)
    ensures x1 < x2 <==> y1 < y2
    ensures x1 == x2 <==> y1 == y2
  {
    var i :| 0 <= i < |c| && OnSegment(c[i], x1, y1);
    var j :| 0 <= j < |c| && OnSegment(c[j], x2, y2);
    if i == j {
      assert Rising(c[i]);
      SegmentRises(c[i], x1, y1, x2, y2);
    } else if i < j {
      SegmentsRise(c, i, j, x1, y1, x2, y2);
    } else {
      SegmentsRise(c, j, i, x2, y2, x1, y1);
    }
  }

  lemma {:induction false} SegmentOverRaw(c: seq<Segment>, x: real, n: nat) returns (i: nat)
    requires ValidCurve(c) && n < |c| && c[0].rawMin as real <= x <= c[n].rawMax as real
    ensures i <= n && c[i].rawMin as real <= x <= c[i].rawMax as real
  {
    if n == 0 || x >= c[n].rawMin as real {
      i := n;
    } else {
      assert Abut(c[n - 1], c[n]);
      i := SegmentOverRaw(c, x, n - 1);
    }
  }

  lemma {:induction false} SegmentAtDB(c: seq<Segment>, y: real, n: nat) returns (i: nat)
    requires ValidCurve(c) && n < |c| && c[0].dbMin <= y <= c[n].dbMax
    ensures i <= n && c[i].dbMin <= y <= c[i].dbMax
  {
    if n == 0 || y >= c[n].dbMin {
      i := n;
    } else {
      assert Abut(c[n - 1], c[n]);
      i := SegmentAtDB(c, y, n - 1);
    }
  }

  lemma CurveOverRaw(c: seq<Segment>, x: real) returns (y: real)
    requires ValidCurve(c) && MinRaw(c) as real <= x <= MaxRaw(c) as real
    ensures OnCurve(c, x, y)
  {
    var i := SegmentOverRaw(c, x, |c| - 1);
    assert Rising(c[i]);
    y := PointOver(c[i], x);
  }

  lemma CurveAtDB(c: seq<Segment>, y: real) returns (x: real)
    requires ValidCurve(c) && MinDB(c) <= y <= MaxDB(c)
    ensures OnCurve(c, x, y)
  {
    var i := SegmentAtDB(c, y, |c| - 1);
    assert Rising(c[i]);
    x := PointAt(c[i], y);
  }

  lemma EndsInOrder(c: seq<Segment>)
    requires ValidCurve(c)
    ensures MinRaw(c) < MaxRaw(c) && MinDB(c) < MaxDB(c)
  {
    assert Rising(c[0]) && Rising(c[|c| - 1]);
    if |c| > 1 {
      InOrder(c, 0, |c| - 1);
    }
  }

  // What the two conversions are.

  /** The level of the curve over the raw value, which is first brought into range. */
  ghost function RawToDB(c: seq<Segment>, raw: int): (y: real)
    requires ValidCurve(c)
    ensures OnCurve(c, ClampInt(raw, MinRaw(c), MaxRaw(c)) as real, y)
  {
    EndsInOrder(c);
    var x := ClampInt(raw, MinRaw(c), MaxRaw(c)) as real;
    assert exists y :: OnCurve(c, x, y) by {
      var y := CurveOverRaw(c, x);
    }
    var y :| OnCurve(c, x, y);
    y
  }

  /** Where the curve reaches a level. */
  ghost function Position(c: seq<Segment>, level: real): (x: real)
    requires ValidCurve(c) && MinDB(c) <= level <= MaxDB(c)
    ensures OnCurve(c, x, level)
  {
    assert exists x :: OnCurve(c, x, level) by {
      var x := CurveAtDB(c, level);
    }
    var x :| OnCurve(c, x, level);
    x
  }

  /** The raw value closest to where the curve reaches the level, the higher one if there are two. */
  ghost function DBToRaw(c: seq<Segment>, db: real): int
    requires ValidCurve(c)
  {
    EndsInOrder(c);
    (Position(c, Clamp(db, MinDB(c), MaxDB(c))) + 0.5).Floor
  }

  lemma RawToDBIs(c: seq<Segment>, raw: int, y: real)
    requires ValidCurve(c) && OnCurve(c, ClampInt(raw, MinRaw(c), MaxRaw(c)) as real, y)
    ensures RawToDB(c, raw) == y
  {
    var x := ClampInt(raw, MinRaw(c), MaxRaw(c)) as real;
    CurveRises(c, x, y, x, RawToDB(c, raw));
  }

  lemma DBToRawIs(c: seq<Segment>, db: real, x: real)
    requires ValidCurve(c) && OnCurve(c, x, Clamp(db, MinDB(c), MaxDB(c)))
    ensures DBToRaw(c, db) == (x + 0.5).Floor
  {
    var y := Clamp(db, MinDB(c), MaxDB(c));
    EndsInOrder(c);
    CurveRises(c, x, y, Position(c, y), y);
  }
}
