/** The scalar scale: the share of the raw range, bent by a power when the range of decibels is wide. */
module CurveScalars {
  import opened CurvePoints
  import C = CurveConversions

  function Pow(x: real, n: nat): real {
    if n == 0 then 1.0 else x * Pow(x, n - 1)
  }

  /** `y` is `x` raised to `p / q`. */
  ghost predicate IsPower(x: real, p: nat, q: nat, y: real) {
    y >= 0.0 && Pow(y, q) == Pow(x, p)
  }

  /** powf, for exponents that are quotients of positive numbers. */
  type Power = (real, nat, nat) -> real

  ghost predicate IsPowf(powf: Power) {
    forall x, p, q :: x >= 0.0 && p > 0 && q > 0 ==> IsPower(x, p, q, powf(x, p, q))
  }

  lemma MulRises(a: real, b: real, u: real, v: real)
    requires 0.0 <= a < b && 0.0 <= u && 0.0 < v && u <= v
    ensures a * u < b * v
  {
    assert a * u <= a * v < b * v;
  }

  lemma {:induction false} PowSign(x: real, n: nat)
    requires x >= 0.0
    ensures Pow(x, n) >= 0.0
    ensures x > 0.0 ==> Pow(x, n) > 0.0
  {
    if n == 0 {
    } else {
      PowSign(x, n - 1);
    }
  }

  /** Powers with a positive exponent keep strict order. */
  lemma {:induction false} PowRises(x: real, y: real, n: nat)
    requires 0.0 <= x < y && n > 0
    ensures Pow(x, n) < Pow(y, n)
  {
    if n == 1 {
      assert Pow(x, 1) == x * Pow(x, 0) && Pow(y, 1) == y * Pow(y, 0);
    } else {
      PowRises(x, y, n - 1);
      PowSign(x, n - 1);
      MulRises(x, y, Pow(x, n - 1), Pow(y, n - 1));
    }
  }

  lemma {:induction false} PowOfOne(n: nat)
    ensures Pow(1.0, n) == 1.0
  {
    if n == 0 {
    } else {
      PowOfOne(n - 1);
    }
  }

  lemma PowOfZero(n: nat)
    requires n > 0
    ensures Pow(0.0, n) == 0.0
  {
  }

  /** So they can be compared and cancelled. */
  lemma PowOrder(x: real, y: real, n: nat)
    requires x >= 0.0 && y >= 0.0 && n > 0
    ensures Pow(x, n) <= Pow(y, n) <==> x <= y
    ensures Pow(x, n) == Pow(y, n) <==> x == y
  {
    if x < y {
      PowRises(x, y, n);
    } else if y < x {
      PowRises(y, x, n);
    }
  }

  /** Raising to `p / q` and then to `q / p` changes nothing. */
  lemma PowersCancel(powf: Power, x: real, p: nat, q: nat)
    requires IsPowf(powf) && x >= 0.0 && p > 0 && q > 0
    ensures powf(x, p, q) >= 0.0 && powf(powf(x, p, q), q, p) == x
  {
    var y := powf(x, p, q);
    assert IsPower(x, p, q, y);
    var z := powf(y, q, p);
    assert IsPower(y, q, p, z);
    PowOrder(z, x, p);
  }

  /** The order is kept, and so are both ends of the scalar scale. */
  lemma PowfRises(powf: Power, x: real, y: real, p: nat, q: nat)
    requires IsPowf(powf) && x >= 0.0 && y >= 0.0 && p > 0 && q > 0
    ensures powf(x, p, q) <= powf(y, p, q) <==> x <= y
  {
    assert IsPower(x, p, q, powf(x, p, q)) && IsPower(y, p, q, powf(y, p, q));
    PowOrder(x, y, p);
    PowOrder(powf(x, p, q), powf(y, p, q), q);
  }

  lemma PowfEnds(powf: Power, p: nat, q: nat)
    requires IsPowf(powf) && p > 0 && q > 0
    ensures powf(0.0, p, q) == 0.0 && powf(1.0, p, q) == 1.0
  {
    assert IsPower(0.0, p, q, powf(0.0, p, q)) && IsPower(1.0, p, q, powf(1.0, p, q));
    PowOfZero(p);
    PowOfZero(q);
    PowOrder(powf(0.0, p, q), 0.0, q);
    PowOfOne(p);
    PowOfOne(q);
    PowOrder(powf(1.0, p, q), 1.0, q);
  }

  /** How the scalar scale is bent: by no power, or by `p / q`. */
  datatype Bend = Straight | Exponent(p: nat, q: nat)

  ghost predicate BendOk(b: Bend) {
    b.Exponent? ==> b.p > 0 && b.q > 0
  }

  function Bent(powf: Power, b: Bend, x: real): real {
    if b.Straight? then x else powf(x, b.p, b.q)
  }

  function Unbent(powf: Power, b: Bend, x: real): real {
    if b.Straight? then x else powf(x, b.q, b.p)
  }

  /** Both ways the order is kept, and the scale from zero to one is mapped onto itself. */
  lemma BentRises(powf: Power, b: Bend, x: real, y: real)
    requires IsPowf(powf) && BendOk(b) && 0.0 <= x && 0.0 <= y
    ensures Bent(powf, b, x) <= Bent(powf, b, y) <==> x <= y
    ensures Unbent(powf, b, x) <= Unbent(powf, b, y) <==> x <= y
  {
    if b.Exponent? {
      PowfRises(powf, x, y, b.p, b.q);
      PowfRises(powf, x, y, b.q, b.p);
    }
  }

  lemma BentEnds(powf: Power, b: Bend)
    requires IsPowf(powf) && BendOk(b)
    ensures Bent(powf, b, 0.0) == Unbent(powf, b, 0.0) == 0.0
    ensures Bent(powf, b, 1.0) == Unbent(powf, b, 1.0) == 1.0
  {
    if b.Exponent? {
      PowfEnds(powf, b.p, b.q);
      PowfEnds(powf, b.q, b.p);
    }
  }

  lemma BendUndone(powf: Power, b: Bend, x: real)
    requires IsPowf(powf) && BendOk(b) && x >= 0.0
    ensures Unbent(powf, b, Bent(powf, b, x)) == x
  {
    if b.Exponent? {
      PowersCancel(powf, x, b.p, b.q);
    }
  }

  // The two conversions over a raw range.

  /** The share of the raw range below a raw value, which is first brought into range. */
  function Share(low: int, high: int, raw: int): real
    requires low < high
  {
    (ClampInt(raw, low, high) - low) as real / (high - low) as real
  }

  function RawToScalar(powf: Power, b: Bend, low: int, high: int, raw: int): real
    requires low < high
  {
    Bent(powf, b, Share(low, high, raw))
  }

  /** The number of whole steps in a share of a range. */
  function Steps(share: real, width: int): int {
    Round(share * width as real)
  }

  function ScalarToRaw(powf: Power, b: Bend, low: int, high: int, scalar: real): int {
    low + Steps(Unbent(powf, b, Clamp(scalar, 0.0, 1.0)), high - low)
  }

  lemma StepsAre(share: real, width: int, steps: real)
    requires steps == share * width as real
    ensures Round(steps) == Steps(share, width)
  {
  }

  lemma ShareRange(low: int, high: int, raw: int)
    requires low < high
    ensures 0.0 <= Share(low, high, raw) <= 1.0
    ensures Share(low, high, raw) * (high - low) as real == (ClampInt(raw, low, high) - low) as real
  {
    var part, whole := (ClampInt(raw, low, high) - low) as real, (high - low) as real;
    var share := Share(low, high, raw);
    assert share * whole == part && 0.0 <= part <= whole;
    Between(share, part, whole);
  }

  lemma Between(share: real, part: real, whole: real)
    requires whole > 0.0 && 0.0 <= part <= whole && share * whole == part
    ensures 0.0 <= share <= 1.0
  {
    SameSign(share, part, whole, 1.0);
    SameSign(1.0 - share, whole - part, whole, 1.0);
  }

  lemma ScalarInRange(powf: Power, b: Bend, low: int, high: int, raw: int)
    requires IsPowf(powf) && BendOk(b) && low < high
    ensures 0.0 <= RawToScalar(powf, b, low, high, raw) <= 1.0
  {
    ShareRange(low, high, raw);
    BentEnds(powf, b);
    BentRises(powf, b, 0.0, Share(low, high, raw));
    BentRises(powf, b, Share(low, high, raw), 1.0);
  }

  lemma RoundWhole(x: real, n: int)
    requires x == n as real
    ensures Round(x) == n
  {
  }

  /** Going to the scalar scale and back gives the raw value again, whatever the power, and the nearest
      one if it was out of range. */
  lemma RawSurvivesScalar(powf: Power, b: Bend, low: int, high: int, raw: int)
    requires IsPowf(powf) && BendOk(b) && low < high
    ensures ScalarToRaw(powf, b, low, high, RawToScalar(powf, b, low, high, raw)) == ClampInt(raw, low, high)
  {
    ScalarInRange(powf, b, low, high, raw);
    ShareRange(low, high, raw);
    BendUndone(powf, b, Share(low, high, raw));
    RoundWhole(Share(low, high, raw) * (high - low) as real, ClampInt(raw, low, high) - low);
  }

  lemma RoundRises(x: real, y: real)
    requires 0.0 <= x <= y
    ensures 0 <= Round(x) <= Round(y)
  {
  }

  lemma PartsRise(x: real, y: real, whole: real)
    requires 0.0 <= x <= y <= 1.0 && whole > 0.0
    ensures 0.0 <= x * whole <= y * whole <= whole
  {
  }

  lemma UnbentRange(powf: Power, b: Bend, x1: real, x2: real)
    requires IsPowf(powf) && BendOk(b) && 0.0 <= x1 <= x2 <= 1.0
    ensures 0.0 <= Unbent(powf, b, x1) <= Unbent(powf, b, x2) <= 1.0
  {
    BentEnds(powf, b);
    BentRises(powf, b, 0.0, x1);
    BentRises(powf, b, x1, x2);
    BentRises(powf, b, x2, 1.0);
  }

  lemma RoundedParts(x: real, y: real, width: int)
    requires 0.0 <= x <= y <= 1.0 && width > 0
    ensures 0 <= Steps(x, width) <= Steps(y, width) <= width
  {
    PartsRise(x, y, width as real);
    RoundedInOrder(x * width as real, y * width as real, width);
  }

  lemma RoundedInOrder(part1: real, part2: real, width: int)
    requires 0.0 <= part1 <= part2 <= width as real
    ensures 0 <= Round(part1) <= Round(part2) <= width
  {
    RoundRises(part1, part2);
    RoundRises(part2, width as real);
    RoundWhole(width as real, width);
  }

  /** More on the scalar scale is never a smaller raw value, and the raw value is always in range. */
  lemma ScalarToRawRises(powf: Power, b: Bend, low: int, high: int, s1: real, s2: real)
    requires IsPowf(powf) && BendOk(b) && low < high && s1 <= s2
    ensures low <= ScalarToRaw(powf, b, low, high, s1) <= ScalarToRaw(powf, b, low, high, s2) <= high
  {
    var x1, x2 := Clamp(s1, 0.0, 1.0), Clamp(s2, 0.0, 1.0);
    UnbentRange(powf, b, x1, x2);
    RoundedParts(Unbent(powf, b, x1), Unbent(powf, b, x2), high - low);
    assert ScalarToRaw(powf, b, low, high, s1) == low + Steps(Unbent(powf, b, x1), high - low);
    assert ScalarToRaw(powf, b, low, high, s2) == low + Steps(Unbent(powf, b, x2), high - low);
  }

  // What the two conversions are, by the power that they take and without their own formulas.

  /** The value on the scalar scale is the share of the range raised to `p / q`, or the share itself. */
  lemma RawToScalarIsPower(powf: Power, b: Bend, low: int, high: int, raw: int)
    requires IsPowf(powf) && BendOk(b) && low < high
    ensures var share, y := (ClampInt(raw, low, high) - low) as real / (high - low) as real,
                            RawToScalar(powf, b, low, high, raw);
      if b.Straight? then y == share else y >= 0.0 && Pow(y, b.q) == Pow(share, b.p)
  {
    ShareRange(low, high, raw);
    if b.Exponent? {
      assert IsPower(Share(low, high, raw), b.p, b.q, powf(Share(low, high, raw), b.p, b.q));
    }
  }

  /** So with the exponent that a curve has from the start it is the square of the share. */
  lemma SquareFromTheStart(powf: Power, low: int, high: int, raw: int)
    requires IsPowf(powf) && low < high
    ensures var share := (ClampInt(raw, low, high) - low) as real / (high - low) as real;
      RawToScalar(powf, Exponent(2, 1), low, high, raw) == share * share
  {
    var share, y := Share(low, high, raw), RawToScalar(powf, Exponent(2, 1), low, high, raw);
    RawToScalarIsPower(powf, Exponent(2, 1), low, high, raw);
    assert Pow(y, 1) == y * Pow(y, 0);
    assert Pow(share, 2) == share * Pow(share, 1) && Pow(share, 1) == share * Pow(share, 0);
  }

  predicate NoCloser(low: int, position: real, raw: int, other: int) {
    var near, far := C.Distance((raw - low) as real, position), C.Distance((other - low) as real, position);
    near <= far && (other > raw ==> near < far)
  }

  /** `raw` is as close to the position, counted in steps from the low end, as any raw value of the range; of two that
      are equally close it is the higher one. */
  ghost predicate Closest(low: int, high: int, position: real, raw: int) {
    low <= raw <= high && forall other: int | low <= other <= high :: NoCloser(low, position, raw, other)
  }

  lemma RoundIsNearest(low: int, position: real, other: int)
    requires position >= 0.0
    ensures NoCloser(low, position, low + Round(position), other)
  {
    C.NearestWhole(position, other - low);
    if other - low > Round(position) {
      assert (other - low) as real >= Round(position) as real + 1.0;
    }
  }

  lemma RoundIsClosest(low: int, high: int, position: real)
    requires low <= high && 0.0 <= position <= (high - low) as real
    ensures Closest(low, high, position, low + Round(position))
  {
    RoundedInOrder(position, position, high - low);
    var raw := low + Round(position);
    forall other: int | low <= other <= high
      ensures NoCloser(low, position, raw, other)
    {
      RoundIsNearest(low, position, other);
    }
  }

  /** The share of the range that a scalar stands for: the scalar brought into range, raised to `q / p`. */
  ghost predicate StandsFor(b: Bend, scalar: real, share: real) {
    var x := Clamp(scalar, 0.0, 1.0);
    if b.Straight? then share == x else IsPower(x, b.q, b.p, share)
  }

  lemma UnbentStandsFor(powf: Power, b: Bend, scalar: real)
    requires IsPowf(powf) && BendOk(b)
    ensures StandsFor(b, scalar, Unbent(powf, b, Clamp(scalar, 0.0, 1.0)))
  {
    var x := Clamp(scalar, 0.0, 1.0);
    if b.Exponent? {
      assert IsPower(x, b.q, b.p, powf(x, b.q, b.p));
    }
  }

  lemma StandsForOne(powf: Power, b: Bend, scalar: real, share: real)
    requires IsPowf(powf) && BendOk(b) && StandsFor(b, scalar, share)
    ensures share == Unbent(powf, b, Clamp(scalar, 0.0, 1.0))
  {
    var x := Clamp(scalar, 0.0, 1.0);
    if b.Exponent? {
      assert IsPower(x, b.q, b.p, powf(x, b.q, b.p));
      PowOrder(share, powf(x, b.q, b.p), b.p);
    }
  }

  lemma PositionInRange(share: real, width: int, position: real)
    requires 0.0 <= share <= 1.0 && width > 0 && position == share * width as real
    ensures 0.0 <= position <= width as real
  {
    PartsRise(share, share, width as real);
  }

  /** For every scalar, the raw value is the closest one to its share of the range. */
  lemma ScalarToRawIsClosest(powf: Power, b: Bend, low: int, high: int, scalar: real, share: real)
    requires IsPowf(powf) && BendOk(b) && low < high && StandsFor(b, scalar, share)
    ensures Closest(low, high, share * (high - low) as real, ScalarToRaw(powf, b, low, high, scalar))
  {
    StandsForOne(powf, b, scalar, share);
    var x := Clamp(scalar, 0.0, 1.0);
    UnbentRange(powf, b, x, x);
    var position := share * (high - low) as real;
    PositionInRange(share, high - low, position);
    RoundIsClosest(low, high, position);
    assert ScalarToRaw(powf, b, low, high, scalar) == low + Round(position);
  }

  ghost predicate ClosestForSome(b: Bend, low: int, high: int, scalar: real, raw: int) {
    exists share :: StandsFor(b, scalar, share) && Closest(low, high, share * (high - low) as real, raw)
  }

  /** And there is such a share. */
  lemma ScalarToRawIsClosestToOne(powf: Power, b: Bend, low: int, high: int, scalar: real)
    requires IsPowf(powf) && BendOk(b) && low < high
    ensures ClosestForSome(b, low, high, scalar, ScalarToRaw(powf, b, low, high, scalar))
  {
    var share, raw := Unbent(powf, b, Clamp(scalar, 0.0, 1.0)), ScalarToRaw(powf, b, low, high, scalar);
    UnbentStandsFor(powf, b, scalar);
    ScalarToRawIsClosest(powf, b, low, high, scalar, share);
    ClosestForThis(b, low, high, scalar, share, share * (high - low) as real, raw);
  }

  lemma ClosestForThis(b: Bend, low: int, high: int, scalar: real, share: real, position: real, raw: int)
    requires StandsFor(b, scalar, share)
    requires position == share * (high - low) as real && Closest(low, high, position, raw)
    ensures ClosestForSome(b, low, high, scalar, raw)
  {
  }

  lemma ShareEnds(low: int, high: int)
    requires low < high
    ensures Share(low, high, low) == 0.0 && Share(low, high, high) == 1.0
  {
  }

  lemma ShareRises(low: int, high: int, raw1: int, raw2: int)
    requires low <= raw1 <= high && low <= raw2 <= high && low < high
    ensures raw1 <= raw2 <==> Share(low, high, raw1) <= Share(low, high, raw2)
  {
    ShareRange(low, high, raw1);
    ShareRange(low, high, raw2);
    Apart(Share(low, high, raw1), Share(low, high, raw2), (raw1 - low) as real, (raw2 - low) as real,
          (high - low) as real);
  }

  lemma Apart(x1: real, x2: real, part1: real, part2: real, whole: real)
    requires whole > 0.0 && x1 * whole == part1 && x2 * whole == part2
    ensures x1 <= x2 <==> part1 <= part2
  {
    assert (x2 - x1) * whole == part2 - part1;
    SameSign(x2 - x1, part2 - part1, whole, 1.0);
  }

  /** A greater raw value is more on the scalar scale, strictly; the ends of the range are zero and one. */
  lemma RawToScalarRises(powf: Power, b: Bend, low: int, high: int, raw1: int, raw2: int)
    requires IsPowf(powf) && BendOk(b) && low <= raw1 <= high && low <= raw2 <= high && low < high
    ensures raw1 <= raw2 <==> RawToScalar(powf, b, low, high, raw1) <= RawToScalar(powf, b, low, high, raw2)
    ensures RawToScalar(powf, b, low, high, low) == 0.0 && RawToScalar(powf, b, low, high, high) == 1.0
  {
    ShareRange(low, high, raw1);
    ShareRange(low, high, raw2);
    ShareRises(low, high, raw1, raw2);
    BentRises(powf, b, Share(low, high, raw1), Share(low, high, raw2));
    BentEnds(powf, b);
    ShareEnds(low, high);
  }
}
