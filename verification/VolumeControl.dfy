/** The volume control: one raw value, seen on three scales, and the processing of samples by it. */
module VolumeControl {
  import opened CurvePoints
  import opened CurveRanges
  import opened CurveScalars
  import opened VolumeCurve
  import C = CurveConversions

  class Control {
    const curve: Curve
    var rawVolume: int

    /** The stored value is on the curve. */
    ghost predicate Valid()
      reads this, curve
    {
      && curve.Usable()
      && MinRaw(curve.ranges) <= rawVolume <= MaxRaw(curve.ranges)
    }

    ghost function Scalar(raw: int): real
      requires Valid()
      reads this, curve
    {
      RawToScalar(curve.powf, curve.TheBend(), MinRaw(curve.ranges), MaxRaw(curve.ranges), raw)
    }

    ghost function FromScalar(scalar: real): int
      requires Valid()
      reads this, curve
    {
      ScalarToRaw(curve.powf, curve.TheBend(), MinRaw(curve.ranges), MaxRaw(curve.ranges), scalar)
    }

    constructor (minRaw: int, maxRaw: int, minDB: real, maxDB: real, powf: Power)
      requires minRaw < maxRaw && minDB < maxDB && IsPowf(powf)
      ensures Valid() && fresh(curve)
      ensures rawVolume == maxRaw && curve.ranges == [Segment(minRaw, maxRaw, minDB, maxDB)]
    {
      var c := new Curve(powf);
      AddExtends([], Segment(minRaw, maxRaw, minDB, maxDB));
      c.AddRange(minRaw, maxRaw, minDB, maxDB);
      assert c.ranges == [Segment(minRaw, maxRaw, minDB, maxDB)];
      curve := c;
      rawVolume := maxRaw;
    }

    method SetRawValueImpl(value: int)
      requires Valid()
      modifies this`rawVolume
      ensures Valid()
      ensures rawVolume == ClampInt(value, MinRaw(curve.ranges), MaxRaw(curve.ranges))
    {
      var v := if value > MaxRaw(curve.ranges) then MaxRaw(curve.ranges) else value;
      v := if v < MinRaw(curve.ranges) then MinRaw(curve.ranges) else v;
      rawVolume := v;
    }

    /** Listeners are told of every call that asks for another value than the stored one. */
    method SetRawValue(value: int) returns (notified: bool)
      requires Valid()
      modifies this`rawVolume
      ensures Valid()
      ensures rawVolume == ClampInt(value, MinRaw(curve.ranges), MaxRaw(curve.ranges))
      ensures notified <==> value != old(rawVolume)
    {
      if value == rawVolume {
        return false;
      }
      SetRawValueImpl(value);
      notified := true;
    }

    method GetDecibelValue() returns (value: real)
      requires Valid()
      ensures value == RawToDB(curve.ranges, rawVolume)
    {
      value := curve.ConvertRawToDB(rawVolume);
    }

    /** Setting what is read changes nothing and tells nobody. */
    method SetDecibelValue(value: real) returns (notified: bool)
      requires Valid()
      modifies this`rawVolume
      ensures Valid() && rawVolume == DBToRaw(curve.ranges, value)
      ensures notified <==> rawVolume != old(rawVolume)
      ensures value == RawToDB(curve.ranges, old(rawVolume)) ==> rawVolume == old(rawVolume) && !notified
    {
      var c := curve.ranges;
      EndsInOrder(c);
      var v := if value > MaxDB(c) then MaxDB(c) else value;
      v := if v < MinDB(c) then MinDB(c) else v;
      assert v == Clamp(value, MinDB(c), MaxDB(c)) == Clamp(v, MinDB(c), MaxDB(c));
      C.RoundedInRange(c, value);
      C.RawSurvivesDB(c, rawVolume);
      var raw := curve.ConvertDBToRaw(v);
      notified := SetRawValue(raw);
    }

    method GetScalarValue() returns (value: real)
      requires Valid()
      ensures value == Scalar(rawVolume)
    {
      value := curve.ConvertRawToScalar(rawVolume);
    }

    method SetScalarValue(value: real) returns (notified: bool)
      requires Valid()
      modifies this`rawVolume
      ensures Valid() && rawVolume == FromScalar(value)
      ensures notified <==> rawVolume != old(rawVolume)
      ensures value == old(Scalar(rawVolume)) ==> rawVolume == old(rawVolume) && !notified
    {
      var v := if value > 1.0 then 1.0 else value;
      v := if v < 0.0 then 0.0 else v;
      assert FromScalar(v) == FromScalar(value);
      ScalarToRawRises(curve.powf, curve.TheBend(), MinRaw(curve.ranges), MaxRaw(curve.ranges), value, value);
      RawSurvivesScalar(curve.powf, curve.TheBend(), MinRaw(curve.ranges), MaxRaw(curve.ranges), rawVolume);
      var raw := curve.ConvertScalarToRaw(v);
      notified := SetRawValue(raw);
    }

    /** Multiplies the samples by the scalar volume, in place, and keeps them between minus one and one. */
    method ApplyProcessing(frames: array<real>, frameCount: nat, channelCount: nat)
      requires Valid() && frameCount * channelCount <= frames.Length
      modifies frames
      ensures forall i :: 0 <= i < frameCount * channelCount ==>
        frames[i] == Processed(old(frames[i]), Scalar(rawVolume))
      ensures forall i :: 0 <= i < frameCount * channelCount ==>
        var product := old(frames[i]) * Scalar(rawVolume);
        frames[i] == if product > 1.0 then 1.0 else if product < -1.0 then -1.0 else product
      ensures forall i :: frameCount * channelCount <= i < frames.Length ==> frames[i] == old(frames[i])
    {
      var volume := GetScalarValue();
      var n, i := frameCount * channelCount, 0;
      while i < n
        invariant i <= n
        invariant forall j :: 0 <= j < i ==> frames[j] == Processed(old(frames[j]), volume)
        invariant forall j :: i <= j < frames.Length ==> frames[j] == old(frames[j])
      {
        frames[i] := Limited(frames[i], volume);
        i := i + 1;
      }
    }

    /** One turn of the loop. */
    method Limited(sample: real, volume: real) returns (s: real)
      ensures s == Processed(sample, volume)
    {
      s := sample * volume;
      s := if s > 1.0 then 1.0 else s;
      s := if s < -1.0 then -1.0 else s;
    }
  }

  function Processed(sample: real, volume: real): real {
    Clamp(sample * volume, -1.0, 1.0)
  }

  lemma PartOf(sample: real, volume: real) returns (part: real)
    requires 0.0 <= volume <= 1.0
    ensures part == sample * volume
    ensures sample >= 0.0 ==> 0.0 <= part <= sample
    ensures sample <= 0.0 ==> sample <= part <= 0.0
  {
    part := sample * volume;
    var rest := sample * (1.0 - volume);
    assert part + rest == sample;
  }

  /** Within one, nothing is clipped. */
  lemma Unclipped(sample: real, volume: real) returns (part: real)
    requires 0.0 <= volume <= 1.0 && -1.0 <= sample <= 1.0
    ensures part == Processed(sample, volume) == sample * volume
    ensures sample >= 0.0 ==> 0.0 <= part <= sample
    ensures sample <= 0.0 ==> sample <= part <= 0.0
  {
    part := PartOf(sample, volume);
  }

  lemma ProcessedOrder(sample: real, v1: real, v2: real)
    requires 0.0 <= v1 <= v2 <= 1.0 && -1.0 <= sample <= 1.0
    ensures sample >= 0.0 ==> 0.0 <= Processed(sample, v1) <= Processed(sample, v2) <= sample
    ensures sample <= 0.0 ==> 0.0 >= Processed(sample, v1) >= Processed(sample, v2) >= sample
  {
    var p1 := Unclipped(sample, v1);
    var p2 := Unclipped(sample, v2);
    InOrderOfVolume(sample, v1, v2, p1, p2);
  }

  /** It is multiplied by the scalar volume and nothing else. */
  lemma ProcessedIsProduct(powf: Power, b: Bend, low: int, high: int, raw: int, sample: real)
    requires IsPowf(powf) && BendOk(b) && low < high && -1.0 <= sample <= 1.0
    ensures var v := RawToScalar(powf, b, low, high, raw); Processed(sample, v) == sample * v
  {
    ScalarInRange(powf, b, low, high, raw);
    var part := Unclipped(sample, RawToScalar(powf, b, low, high, raw));
  }

  /** Processing never makes a sample louder nor turns its sign, and of two volumes the greater leaves more
      of it. The full volume leaves it alone, the least silences it. */
  lemma ProcessedSample(powf: Power, b: Bend, low: int, high: int, raw1: int, raw2: int, sample: real)
    requires IsPowf(powf) && BendOk(b) && low <= raw1 <= raw2 <= high && low < high && -1.0 <= sample <= 1.0
    ensures var v1, v2 := RawToScalar(powf, b, low, high, raw1), RawToScalar(powf, b, low, high, raw2);
      && (sample >= 0.0 ==> 0.0 <= Processed(sample, v1) <= Processed(sample, v2) <= sample)
      && (sample <= 0.0 ==> 0.0 >= Processed(sample, v1) >= Processed(sample, v2) >= sample)
      && (raw1 == low ==> Processed(sample, v1) == 0.0)
      && (raw2 == high ==> Processed(sample, v2) == sample)
  {
    RawToScalarRises(powf, b, low, high, raw1, raw2);
    ScalarInRange(powf, b, low, high, raw1);
    ScalarInRange(powf, b, low, high, raw2);
    ProcessedOrder(sample, RawToScalar(powf, b, low, high, raw1), RawToScalar(powf, b, low, high, raw2));
    var silenced := Unclipped(sample, 0.0);
    var whole := Unclipped(sample, 1.0);
  }

  lemma InOrderOfVolume(sample: real, v1: real, v2: real, p1: real, p2: real)
    requires 0.0 <= v1 <= v2 && p1 == sample * v1 && p2 == sample * v2
    ensures sample >= 0.0 ==> p1 <= p2
    ensures sample <= 0.0 ==> p1 >= p2
  {
    assert p2 - p1 == sample * (v2 - v1);
  }
}
