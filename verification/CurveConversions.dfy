/** What the conversions between raw values and decibels promise, on every curve of joined rising lines. */
module CurveConversions {
  import opened CurvePoints

  lemma ClampIntRange(c: seq<Segment>, raw: int)
    requires ValidCurve(c)
    ensures MinRaw(c) <= ClampInt(raw, MinRaw(c), MaxRaw(c)) <= MaxRaw(c)
  {
    EndsInOrder(c);
  }

  /** The nearest whole value to a point of a segment belongs to the segment. */
  lemma RoundedStaysInside(s: Segment, x: real)
    requires s.rawMin as real <= x <= s.rawMax as real
    ensures s.rawMin <= (x + 0.5).Floor <= s.rawMax
  {
  }

  lemma RoundedInRange(c: seq<Segment>, db: real)
    requires ValidCurve(c)
    ensures MinRaw(c) <= DBToRaw(c, db) <= MaxRaw(c)
  {
    EndsInOrder(c);
    var level := Clamp(db, MinDB(c), MaxDB(c));
    var x := Position(c, level);
    var i :| 0 <= i < |c| && OnSegment(c[i], x, level);
    RoundedStaysInside(c[i], x);
    if i > 0 {
      InOrder(c, 0, i);
      assert Rising(c[0]);
    }
    if i < |c| - 1 {
      InOrder(c, i, |c| - 1);
      assert Rising(c[|c| - 1]);
    }
  }

  lemma LevelInRange(c: seq<Segment>, raw: int)
    requires ValidCurve(c)
    ensures MinDB(c) <= RawToDB(c, raw) <= MaxDB(c)
  {
    ClampIntRange(c, raw);
    SegmentEnds(c[0]);
    SegmentEnds(c[|c| - 1]);
    var x := ClampInt(raw, MinRaw(c), MaxRaw(c)) as real;
    CurveRises(c, MinRaw(c) as real, MinDB(c), x, RawToDB(c, raw));
    CurveRises(c, x, RawToDB(c, raw), MaxRaw(c) as real, MaxDB(c));
  }

  /** Going to decibels and back gives the raw value again, and the nearest one if it was out of range. */
  lemma RawSurvivesDB(c: seq<Segment>, raw: int)
    requires ValidCurve(c)
    ensures DBToRaw(c, RawToDB(c, raw)) == ClampInt(raw, MinRaw(c), MaxRaw(c))
  {
    LevelInRange(c, raw);
    DBToRawIs(c, RawToDB(c, raw), ClampInt(raw, MinRaw(c), MaxRaw(c)) as real);
  }

  /** A louder raw value is more decibels, strictly. */
  lemma RawToDBRises(c: seq<Segment>, raw1: int, raw2: int)
    requires ValidCurve(c) && MinRaw(c) <= raw1 <= MaxRaw(c) && MinRaw(c) <= raw2 <= MaxRaw(c)
    ensures raw1 < raw2 <==> RawToDB(c, raw1) < RawToDB(c, raw2)
  {
    CurveRises(c, raw1 as real, RawToDB(c, raw1), raw2 as real, RawToDB(c, raw2));
  }

  lemma FloorRises(x1: real, x2: real)
    requires x1 <= x2
    ensures x1.Floor <= x2.Floor
  {
  }

  /** More decibels never give a smaller raw value. */
  lemma DBToRawRises(c: seq<Segment>, db1: real, db2: real)
    requires ValidCurve(c) && db1 <= db2
    ensures DBToRaw(c, db1) <= DBToRaw(c, db2)
  {
    EndsInOrder(c);
    var y1, y2 := Clamp(db1, MinDB(c), MaxDB(c)), Clamp(db2, MinDB(c), MaxDB(c));
    CurveRises(c, Position(c, y1), y1, Position(c, y2), y2);
    FloorRises(Position(c, y1) + 0.5, Position(c, y2) + 0.5);
  }

  function Distance(a: real, b: real): real {
    if a < b then b - a else a - b
  }

  /** Distances on one line are in proportion. */
  lemma Scaled(s: Segment, x: real, y: real, x1: real, y1: real) returns (near: real, level: real, step: real)
    requires Rising(s) && OnSegment(s, x, y) && OnSegment(s, x1, y1)
    ensures near == Distance(x1, x) && level == Distance(y1, y) && step == Step(s) > 0.0
    ensures level == near * step
  {
    near, level, step := Distance(x1, x), Distance(y1, y), Step(s);
    SegmentRises(s, x, y, x1, y1);
    Divided(y1 - y, x1 - x, Width(s), Height(s), step);
  }

  lemma Divided(a: real, b: real, w: real, h: real, step: real)
    requires w > 0.0 && h > 0.0 && a * w == b * h && step == h / w
    ensures step > 0.0 && a == b * step && -a == -b * step
  {
    assert step * w == h;
    assert (a - b * step) * w == 0.0;
    SameSign(a - b * step, 0.0, w, h);
    SameSign(step, 1.0, w, h);
  }

  /** On one line, the nearer raw value is the nearer level. */
  lemma NearerIsNearer(s: Segment, x: real, y: real, x1: real, y1: real, x2: real, y2: real)
    requires Rising(s) && OnSegment(s, x, y) && OnSegment(s, x1, y1) && OnSegment(s, x2, y2)
    requires Distance(x1, x) <= Distance(x2, x)
    ensures Distance(y1, y) <= Distance(y2, y)
  {
    var near1, level1, step := Scaled(s, x, y, x1, y1);
    var near2, level2, step2 := Scaled(s, x, y, x2, y2);
    SameOrder(near1, level1, near2, level2, step);
  }

  /** No whole value is nearer than the rounded one. */
  lemma NearestWhole(x: real, other: int)
    ensures Distance((x + 0.5).Floor as real, x) <= Distance(other as real, x)
  {
    var r := (x + 0.5).Floor;
    if other < r {
      assert other as real <= r as real - 1.0;
    } else if other > r {
      assert other as real >= r as real + 1.0;
    }
  }

  lemma SameOrder(a: real, aScaled: real, b: real, bScaled: real, step: real)
    requires a <= b && step > 0.0 && aScaled == a * step && bScaled == b * step
    ensures aScaled <= bScaled
  {
  }

  /** The exact point of segment `k` at the wanted level, and the rounded point, which is on it too. */
  lemma RoundedPoint(c: seq<Segment>, db: real, k: nat) returns (x: real)
    requires ValidCurve(c) && k < |c|
    requires var level := Clamp(db, MinDB(c), MaxDB(c)); c[k].dbMin <= level <= c[k].dbMax
    ensures OnSegment(c[k], x, Clamp(db, MinDB(c), MaxDB(c)))
    ensures DBToRaw(c, db) == (x + 0.5).Floor
    ensures OnSegment(c[k], DBToRaw(c, db) as real, RawToDB(c, DBToRaw(c, db)))
  {
    var level := Clamp(db, MinDB(c), MaxDB(c));
    assert Rising(c[k]);
    x := PointAt(c[k], level);
    DBToRawIs(c, db, x);
    RoundedStaysInside(c[k], x);
    RoundedInRange(c, db);
    var y := PointOver(c[k], DBToRaw(c, db) as real);
    RawToDBIs(c, DBToRaw(c, db), y);
  }

  /** How far the rounded point is from the exact one, in raw steps and in decibels. */
  lemma RoundedGap(c: seq<Segment>, db: real, k: nat) returns (near: real, gap: real, step: real)
    requires ValidCurve(c) && k < |c|
    requires var level := Clamp(db, MinDB(c), MaxDB(c)); c[k].dbMin <= level <= c[k].dbMax
    ensures near <= 0.5 && gap == Distance(RawToDB(c, DBToRaw(c, db)), Clamp(db, MinDB(c), MaxDB(c)))
    ensures Rising(c[k]) && step == Step(c[k]) > 0.0 && gap == near * step
  {
    assert Rising(c[k]);
    var x := RoundedPoint(c, db, k);
    var level, raw := Clamp(db, MinDB(c), MaxDB(c)), DBToRaw(c, db);
    near, gap, step := Scaled(c[k], x, level, raw as real, RawToDB(c, raw));
  }

  /** Rounding to whole raw values moves the level by at most half a step of the segment the level is in. */
  lemma HalfStepAtMost(c: seq<Segment>, db: real, k: nat)
    requires ValidCurve(c) && k < |c|
    requires var level := Clamp(db, MinDB(c), MaxDB(c)); c[k].dbMin <= level <= c[k].dbMax
    ensures Rising(c[k])
    ensures Distance(RawToDB(c, DBToRaw(c, db)), Clamp(db, MinDB(c), MaxDB(c))) <= Step(c[k]) / 2.0
  {
    var near, gap, step := RoundedGap(c, db, k);
    SameOrder(near, gap, 0.5, 0.5 * step, step);
  }

  /** No raw value has a level closer to the wanted one than the raw value that is chosen. */
  lemma NearestLevel(c: seq<Segment>, db: real, other: int)
    requires ValidCurve(c)
    ensures var level := Clamp(db, MinDB(c), MaxDB(c));
      Distance(RawToDB(c, DBToRaw(c, db)), level) <= Distance(RawToDB(c, other), level)
  {
    var level := Clamp(db, MinDB(c), MaxDB(c));
    EndsInOrder(c);
    var i := SegmentAtDB(c, level, |c| - 1);
    var x := RoundedPoint(c, db, i);
    var s, raw := c[i], ClampInt(other, MinRaw(c), MaxRaw(c));
    var chosen, y := DBToRaw(c, db), RawToDB(c, DBToRaw(c, db));
    assert Rising(s);
    ClampIntRange(c, other);
    SegmentEnds(s);
    NearestWhole(x, s.rawMin);
    NearestWhole(x, s.rawMax);
    NearestWhole(x, raw);
    if raw < s.rawMin {
      NearerIsNearer(s, x, level, chosen as real, y, s.rawMin as real, s.dbMin);
      CurveRises(c, raw as real, RawToDB(c, other), s.rawMin as real, s.dbMin);
    } else if raw > s.rawMax {
      NearerIsNearer(s, x, level, chosen as real, y, s.rawMax as real, s.dbMax);
      CurveRises(c, s.rawMax as real, s.dbMax, raw as real, RawToDB(c, other));
    } else {
      var z := PointOver(s, raw as real);
      RawToDBIs(c, other, z);
      NearerIsNearer(s, x, level, chosen as real, y, raw as real, z);
    }
  }

  lemma SameOrderStrictly(a: real, aScaled: real, b: real, bScaled: real, step: real)
    requires a < b && step > 0.0 && aScaled == a * step && bScaled == b * step
    ensures aScaled < bScaled
  {
  }

  lemma NearerIsStrictlyNearer(s: Segment, x: real, y: real, x1: real, y1: real, x2: real, y2: real)
    requires Rising(s) && OnSegment(s, x, y) && OnSegment(s, x1, y1) && OnSegment(s, x2, y2)
    requires Distance(x1, x) < Distance(x2, x)
    ensures Distance(y1, y) < Distance(y2, y)
  {
    var near1, level1, step := Scaled(s, x, y, x1, y1);
    var near2, level2, step2 := Scaled(s, x, y, x2, y2);
    SameOrderStrictly(near1, level1, near2, level2, step);
  }

  lemma NearestWholeIsHigher(x: real, other: int)
    requires other > (x + 0.5).Floor
    ensures Distance((x + 0.5).Floor as real, x) < Distance(other as real, x)
  {
    assert other as real >= (x + 0.5).Floor as real + 1.0;
  }

  /** And every higher raw value has a level that is farther: of two equally close ones the higher is chosen. */
  lemma HigherOfTwo(c: seq<Segment>, db: real, other: int)
    requires ValidCurve(c) && DBToRaw(c, db) < other <= MaxRaw(c)
    ensures var level := Clamp(db, MinDB(c), MaxDB(c));
      Distance(RawToDB(c, DBToRaw(c, db)), level) < Distance(RawToDB(c, other), level)
  {
    var level := Clamp(db, MinDB(c), MaxDB(c));
    EndsInOrder(c);
    RoundedInRange(c, db);
    var i := SegmentAtDB(c, level, |c| - 1);
    var x := RoundedPoint(c, db, i);
    var s, chosen, y := c[i], DBToRaw(c, db), RawToDB(c, DBToRaw(c, db));
    assert Rising(s);
    SegmentEnds(s);
    if other <= s.rawMax {
      var z := PointOver(s, other as real);
      RawToDBIs(c, other, z);
      NearestWholeIsHigher(x, other);
      NearerIsStrictlyNearer(s, x, level, chosen as real, y, other as real, z);
    } else {
      NearestWhole(x, s.rawMax);
      NearerIsNearer(s, x, level, chosen as real, y, s.rawMax as real, s.dbMax);
      CurveRises(c, s.rawMax as real, s.dbMax, other as real, RawToDB(c, other));
    }
  }

  /** Once a level is one of the curve's levels, going to raw and back leaves it. */
  lemma QuantizedOnce(c: seq<Segment>, db: real)
    requires ValidCurve(c)
    ensures var quantized := RawToDB(c, DBToRaw(c, db)); RawToDB(c, DBToRaw(c, quantized)) == quantized
  {
    RoundedInRange(c, db);
    RawSurvivesDB(c, DBToRaw(c, db));
  }
}
