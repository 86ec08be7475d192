/** The volume curve object: its map of ranges and its transfer function. */
module VolumeCurve {
  import opened CurvePoints
  import opened CurveGaps
  import opened CurveRanges
  import opened CurveScalars
  import C = CurveConversions

  /** kPow2Over1Curve, and kLinearCurve. */
  const POW2OVER1: nat := 5
  const LINEAR: nat := 0

  /** The power that each transfer function stands for, by the names of the enumerators. */
  function ExponentOf(transferFunction: nat): (nat, nat) {
    match transferFunction
    case 0 => (1, 1)
    case 1 => (1, 3)
    case 2 => (1, 2)
    case 3 => (3, 4)
    case 4 => (3, 2)
    case _ => if transferFunction <= 15 then (transferFunction - 3, 1) else (2, 1)
  }

  /** The later of two enumerators that bend the scale, up to the twelfth power, bends it more. */
  lemma ExponentsRise(a: nat, b: nat)
    requires LINEAR < a < b <= 15
    ensures ExponentOf(a).0 * ExponentOf(b).1 < ExponentOf(b).0 * ExponentOf(a).1
  {
    if b >= 5 {
      assert ExponentOf(b) == (b - 3, 1);
    }
    if a >= 5 {
      assert ExponentOf(a) == (a - 3, 1);
    }
  }

  /** The scalar scale is only bent if the curve spans more than thirty decibels. */
  function BendOf(c: seq<Segment>, isApplying: bool, p: nat, q: nat): Bend {
    if isApplying && MaxDB(c) - MinDB(c) > 30.0 then Exponent(p, q) else Straight
  }

  class Curve {
    const powf: Power
    var ranges: seq<Segment>
    var isApplying: bool
    var transferFunction: nat
    var numerator: nat
    var denominator: nat

    ghost predicate Valid()
      reads this
    {
      Sorted(ranges) && numerator > 0 && denominator > 0
    }

    /** The conversions step through the ranges, dividing by their widths and heights. */
    ghost predicate Convertible()
      reads this
    {
      Valid() && ranges != [] && AllRising(ranges)
    }

    ghost predicate Usable()
      reads this
    {
      Valid() && ValidCurve(ranges) && MinRaw(ranges) < MaxRaw(ranges) && IsPowf(powf)
    }

    function TheBend(): Bend
      reads this
    {
      BendOf(ranges, isApplying, numerator, denominator)
    }

    /** The scalar scale is bent. */
    ghost predicate Bends()
      reads this
    {
      isApplying && ranges != [] && ranges[|ranges| - 1].dbMax - ranges[0].dbMin > 30.0
    }

    constructor (powf: Power)
      ensures Valid() && ranges == [] && this.powf == powf
      ensures isApplying && transferFunction == POW2OVER1 && (numerator, denominator) == ExponentOf(transferFunction)
      ensures numerator == 2 && denominator == 1
    {
      this.powf := powf;
      ranges, isApplying, transferFunction, numerator, denominator := [], true, POW2OVER1, 2, 1;
    }

    method SetIsApplyingTransferFunction(applying: bool)
      modifies this`isApplying
      ensures isApplying == applying
    {
      isApplying := applying;
    }

    method SetTransferFunction(curve: nat)
      modifies this`isApplying, this`transferFunction, this`numerator, this`denominator
      ensures transferFunction == curve && isApplying == (curve != LINEAR)
      ensures (numerator, denominator) == ExponentOf(curve) && numerator > 0 && denominator > 0
    {
      transferFunction := curve;
      match curve {
        case 0 =>
          isApplying, numerator, denominator := false, 1, 1;
        case 1 =>
          isApplying, numerator, denominator := true, 1, 3;
        case 2 =>
          isApplying, numerator, denominator := true, 1, 2;
        case 3 =>
          isApplying, numerator, denominator := true, 3, 4;
        case 4 =>
          isApplying, numerator, denominator := true, 3, 2;
        case 5 =>
          isApplying, numerator, denominator := true, 2, 1;
        case 6 =>
          isApplying, numerator, denominator := true, 3, 1;
        case 7 =>
          isApplying, numerator, denominator := true, 4, 1;
        case 8 =>
          isApplying, numerator, denominator := true, 5, 1;
        case 9 =>
          isApplying, numerator, denominator := true, 6, 1;
        case 10 =>
          isApplying, numerator, denominator := true, 7, 1;
        case 11 =>
          isApplying, numerator, denominator := true, 8, 1;
        case 12 =>
          isApplying, numerator, denominator := true, 9, 1;
        case 13 =>
          isApplying, numerator, denominator := true, 10, 1;
        case 14 =>
          isApplying, numerator, denominator := true, 11, 1;
        case 15 =>
          isApplying, numerator, denominator := true, 12, 1;
        case _ =>
          isApplying, numerator, denominator := true, 2, 1;
      }
    }

    method AddRange(minRaw: int, maxRaw: int, minDB: real, maxDB: real)
      requires Valid()
      modifies this`ranges
      ensures Valid() && ranges == RangeAdded(old(ranges), Segment(minRaw, maxRaw, minDB, maxDB))
    {
      var s := Segment(minRaw, maxRaw, minDB, maxDB);
      var c, isOverlapped, isDone, i := ranges, false, false, 0;
      while i < |c| && !isOverlapped && !isDone
        invariant i <= |c| && ranges == c && Valid()
        invariant isOverlapped ==> Refused(c, s)
        invariant forall j :: 0 <= j < i ==> !Overlap(s, c[j])
        invariant i > 0 ==> s.rawMin < c[0].rawMin
        invariant isDone && !isOverlapped ==> !Refused(c, s)
        decreases |c| - i, !isOverlapped && !isDone
      {
        if i > 0 {
          SortedOrder(c, 0, i);
        }
        isOverlapped := Overlap(s, c[i]);
        isDone := s.rawMin >= c[i].rawMin;
        if !isOverlapped && !isDone {
          i := i + 1;
        }
      }
      if !isOverlapped {
        InsertedSorted(ranges, s);
        ranges := Inserted(ranges, s);
      }
    }

    method ResetRange()
      requires Valid()
      modifies this`ranges
      ensures Valid() && ranges == []
    {
      ranges := [];
    }

    method CheckForContinuity() returns (answer: bool)
      ensures answer <==> Continuous(ranges)
    {
      answer := true;
      if |ranges| > 0 {
        var raw, db, i := ranges[0].rawMin, ranges[0].dbMin, 0;
        while i < |ranges| && answer
          invariant i <= |ranges|
          invariant answer ==> forall j :: 0 < j < i ==> Abut(ranges[j - 1], ranges[j])
          invariant answer && i > 0 ==> raw == ranges[i - 1].rawMax && db == ranges[i - 1].dbMax
          invariant i == 0 ==> raw == ranges[0].rawMin && db == ranges[0].dbMin
          invariant !answer ==> exists j :: 0 < j < i && !Abut(ranges[j - 1], ranges[j])
          decreases |ranges| - i
        {
          var rawRange, dbRange := ranges[i].rawMax - ranges[i].rawMin, ranges[i].dbMax - ranges[i].dbMin;
          answer := raw == ranges[i].rawMin;
          answer := answer && db == ranges[i].dbMin;
          assert i > 0 ==> (answer <==> Abut(ranges[i - 1], ranges[i]));
          raw, db, i := raw + rawRange, db + dbRange, i + 1;
        }
      }
    }

    method ConvertDBToRaw(inDB: real) returns (answer: int)
      requires Convertible()
      ensures answer == RawFor(ranges, inDB)
      ensures Continuous(ranges) ==> answer == DBToRaw(ranges, inDB)
    {
      ghost var joined := Joined(ranges);
      var db := Clamp(inDB, MinDB(ranges), MaxDB(ranges));
      answer := ranges[0].rawMin;
      var isDone, i := false, 0;
      JoinedAt(ranges, 0);
      while !isDone && i < |ranges|
        invariant i <= |ranges|
        invariant !isDone ==> forall j :: 0 <= j < i ==> ranges[j].dbMax < db
        invariant !isDone ==> i < |ranges| && answer == joined[i].rawMin
        invariant isDone ==> answer == RawFor(ranges, inDB)
        decreases |ranges| - i
      {
        var s := ranges[i];
        var rawRange := s.rawMax - s.rawMin;
        assert Rising(s);
        var dbPerRaw := (s.dbMax - s.dbMin) / rawRange as real;
        if db > s.dbMax {
          answer := answer + rawRange;
          JoinedAt(ranges, i);
          JoinedAt(ranges, i + 1);
        } else {
          RawForIs(ranges, inDB, i);
          Quotient(1.0, dbPerRaw, Width(s), Height(s));
          var steps := (db - s.dbMin) / dbPerRaw;
          answer := answer + Round(steps);
          isDone := true;
        }
        i := i + 1;
      }
      if Continuous(ranges) {
        NoGaps(ranges, 0, inDB);
      }
    }

    method ConvertRawToDB(inRaw: int) returns (answer: real)
      requires Convertible()
      ensures answer == LevelOver(ranges, inRaw)
      ensures Continuous(ranges) ==> answer == RawToDB(ranges, inRaw)
    {
      EndsOfSorted(ranges);
      JoinedValid(ranges);
      ghost var joined := Joined(ranges);
      var raw := ClampInt(inRaw, MinRaw(ranges), MaxRaw(ranges));
      var steps := raw - MinRaw(ranges);
      answer := ranges[0].dbMin;
      var i := 0;
      EndsInOrder(joined);
      AtStart(joined, raw);
      JoinedAt(ranges, 0);
      while steps > 0 && i < |ranges|
        invariant 0 <= i <= |ranges| && steps >= 0
        invariant steps > 0 && i < |ranges| ==> answer == joined[i].dbMin && steps == raw - joined[i].rawMin
        invariant steps == 0 || i == |ranges| ==> answer == RawToDB(joined, raw)
        decreases |ranges| - i
      {
        var s := ranges[i];
        var rawRange := s.rawMax - s.rawMin;
        assert Rising(s);
        var dbPerRaw := (s.dbMax - s.dbMin) / rawRange as real;
        var stepsToAdd := if steps < rawRange then steps else rawRange;
        JoinedAt(ranges, i);
        BelowTop(joined, i);
        StepsUp(joined, i, raw, stepsToAdd, dbPerRaw);
        answer := answer + stepsToAdd as real * dbPerRaw;
        steps := steps - stepsToAdd;
        i := i + 1;
      }
      if Continuous(ranges) {
        NoGaps(ranges, inRaw, 0.0);
      }
    }

    method ConvertRawToScalar(inRaw: int) returns (answer: real)
      requires MinRaw(ranges) < MaxRaw(ranges)
      ensures answer == RawToScalar(powf, TheBend(), MinRaw(ranges), MaxRaw(ranges), inRaw)
      ensures var low, high := MinRaw(ranges), MaxRaw(ranges);
        var share := (ClampInt(inRaw, low, high) - low) as real / (high - low) as real;
        && (!Bends() ==> answer == share)
        && (Bends() && IsPowf(powf) && numerator > 0 && denominator > 0 ==>
              answer >= 0.0 && Pow(answer, denominator) == Pow(share, numerator))
    {
      var dbRange := MaxDB(ranges) - MinDB(ranges);
      var rawRange := MaxRaw(ranges) - MinRaw(ranges);
      var raw := ClampInt(inRaw, MinRaw(ranges), MaxRaw(ranges));
      answer := (raw - MinRaw(ranges)) as real / rawRange as real;
      if isApplying && dbRange > 30.0 {
        answer := powf(answer, numerator, denominator);
      }
      if IsPowf(powf) && BendOk(TheBend()) {
        RawToScalarIsPower(powf, TheBend(), MinRaw(ranges), MaxRaw(ranges), inRaw);
      }
    }

    lemma AnswersAreClosest(inScalar: real)
      ensures IsPowf(powf) && numerator > 0 && denominator > 0 && MinRaw(ranges) < MaxRaw(ranges) ==>
        ClosestForSome(if Bends() then Exponent(numerator, denominator) else Straight,
                       MinRaw(ranges), MaxRaw(ranges), inScalar,
                       ScalarToRaw(powf, TheBend(), MinRaw(ranges), MaxRaw(ranges), inScalar))
    {
      if IsPowf(powf) && BendOk(TheBend()) && MinRaw(ranges) < MaxRaw(ranges) {
        ScalarToRawIsClosestToOne(powf, TheBend(), MinRaw(ranges), MaxRaw(ranges), inScalar);
      }
    }

    method ConvertScalarToRaw(inScalar: real) returns (answer: int)
      ensures answer == ScalarToRaw(powf, TheBend(), MinRaw(ranges), MaxRaw(ranges), inScalar)
      ensures IsPowf(powf) && numerator > 0 && denominator > 0 && MinRaw(ranges) < MaxRaw(ranges) ==>
        ClosestForSome(if Bends() then Exponent(numerator, denominator) else Straight,
                       MinRaw(ranges), MaxRaw(ranges), inScalar, answer)
    {
      var scalar := Clamp(inScalar, 0.0, 1.0);
      var dbRange := MaxDB(ranges) - MinDB(ranges);
      var rawRange := MaxRaw(ranges) - MinRaw(ranges);
      if isApplying && dbRange > 30.0 {
        scalar := powf(scalar, denominator, numerator);
      }
      var steps := scalar * rawRange as real;
      answer := MinRaw(ranges) + Round(steps);
      StepsAre(scalar, rawRange, steps);
      AnswersAreClosest(inScalar);
    }

    method ConvertDBToScalar(inDB: real) returns (answer: real)
      requires Convertible()
      ensures MinRaw(ranges) < MaxRaw(ranges)
      ensures answer == RawToScalar(powf, TheBend(), MinRaw(ranges), MaxRaw(ranges), RawFor(ranges, inDB))
    {
      EndsOfSorted(ranges);
      var raw := ConvertDBToRaw(inDB);
      answer := ConvertRawToScalar(raw);
    }

    method ConvertScalarToDB(inScalar: real) returns (answer: real)
      requires Convertible()
      ensures answer == LevelOver(ranges, ScalarToRaw(powf, TheBend(), MinRaw(ranges), MaxRaw(ranges), inScalar))
    {
      var raw := ConvertScalarToRaw(inScalar);
      answer := ConvertRawToDB(raw);
    }
  }

  // How the loops reach the point of the curve.

  lemma AtStart(c: seq<Segment>, raw: int)
    requires ValidCurve(c)
    ensures ClampInt(raw, MinRaw(c), MaxRaw(c)) == MinRaw(c) ==> RawToDB(c, raw) == c[0].dbMin
  {
    if ClampInt(raw, MinRaw(c), MaxRaw(c)) == MinRaw(c) {
      SegmentEnds(c[0]);
      RawToDBIs(c, raw, c[0].dbMin);
    }
  }

  lemma BelowTop(c: seq<Segment>, i: nat)
    requires ValidCurve(c) && i < |c|
    ensures c[i].rawMin < c[i].rawMax <= MaxRaw(c) && (i + 1 < |c| ==> c[i].rawMax < MaxRaw(c))
  {
    assert Rising(c[i]) && Rising(c[|c| - 1]);
    if i + 1 < |c| {
      InOrder(c, i, |c| - 1);
    }
  }

  /** One turn of the loop that goes up from the first raw value: either past the whole segment, or to
      the point over the wanted raw value. */
  lemma StepsUp(c: seq<Segment>, i: nat, inRaw: int, steps: int, dbPerRaw: real)
    requires ValidCurve(c) && i < |c|
    requires dbPerRaw == Height(c[i]) / Width(c[i])
    requires var raw := ClampInt(inRaw, MinRaw(c), MaxRaw(c));
      raw > c[i].rawMin && steps == if raw < c[i].rawMax then raw - c[i].rawMin else c[i].rawMax - c[i].rawMin
    ensures var raw := ClampInt(inRaw, MinRaw(c), MaxRaw(c)); var level := c[i].dbMin + steps as real * dbPerRaw;
      if raw <= c[i].rawMax then level == RawToDB(c, inRaw)
      else i + 1 < |c| && level == c[i + 1].dbMin && c[i].rawMax == c[i + 1].rawMin
  {
    var raw, s := ClampInt(inRaw, MinRaw(c), MaxRaw(c)), c[i];
    assert Rising(s);
    var level := s.dbMin + steps as real * dbPerRaw;
    LevelAfter(s, steps, dbPerRaw);
    EndsInOrder(c);
    if raw <= s.rawMax {
      RawToDBIs(c, inRaw, level);
    } else {
      SegmentEnds(s);
      SegmentRises(s, s.rawMax as real, level, s.rawMax as real, s.dbMax);
      assert Abut(s, c[i + 1]);
    }
  }

  lemma LevelAfter(s: Segment, steps: int, dbPerRaw: real)
    requires Rising(s) && dbPerRaw == Height(s) / Width(s) && 0 <= steps <= s.rawMax - s.rawMin
    ensures OnSegment(s, (s.rawMin + steps) as real, s.dbMin + steps as real * dbPerRaw)
  {
    Quotient(steps as real, dbPerRaw, Width(s), Height(s));
    var b := Proportion(steps as real, Width(s), Height(s));
    Cancel(b, steps as real * dbPerRaw, Width(s));
  }

  // What the composed conversions promise.

  /** From the scalar scale to decibels and back: only the rounding to a raw value is lost. */
  lemma ScalarSurvivesDB(powf: Power, b: Bend, c: seq<Segment>, scalar: real)
    requires IsPowf(powf) && BendOk(b) && ValidCurve(c) && MinRaw(c) < MaxRaw(c)
    ensures var raw := ScalarToRaw(powf, b, MinRaw(c), MaxRaw(c), scalar);
      && DBToRaw(c, RawToDB(c, raw)) == raw
      && ScalarToRaw(powf, b, MinRaw(c), MaxRaw(c),
                     RawToScalar(powf, b, MinRaw(c), MaxRaw(c), DBToRaw(c, RawToDB(c, raw)))) == raw
  {
    var raw := ScalarToRaw(powf, b, MinRaw(c), MaxRaw(c), scalar);
    ScalarToRawRises(powf, b, MinRaw(c), MaxRaw(c), scalar, scalar);
    C.RawSurvivesDB(c, raw);
    RawSurvivesScalar(powf, b, MinRaw(c), MaxRaw(c), raw);
  }

  /** And from decibels to the scalar scale and back. */
  lemma DBSurvivesScalar(powf: Power, b: Bend, c: seq<Segment>, db: real)
    requires IsPowf(powf) && BendOk(b) && ValidCurve(c) && MinRaw(c) < MaxRaw(c)
    ensures var scalar := RawToScalar(powf, b, MinRaw(c), MaxRaw(c), DBToRaw(c, db));
      RawToDB(c, ScalarToRaw(powf, b, MinRaw(c), MaxRaw(c), scalar)) == RawToDB(c, DBToRaw(c, db))
  {
    C.RoundedInRange(c, db);
    RawSurvivesScalar(powf, b, MinRaw(c), MaxRaw(c), DBToRaw(c, db));
  }
}
