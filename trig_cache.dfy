// TrigonometricCache of the gmapping scan matcher: sine and cosine tables of
// the beam angles angle_min, angle_min + delta, ... (strictly below
// angle_max), and the sine and cosine of a global rotation theta that a
// lookup composes with a table entry.

module TrigonometricTables {
  import opened Common

  /** The i-th angle of a range: its start with the increment added i times,
      one addition after the other. */
  function Angle(start: real, delta: real, i: nat): real
    decreases i
  {
    if i == 0 then start else Angle(start, delta, i - 1) + delta
  }

  /** The tables hold, index by index, the sine and cosine of the angles of
      the range, all of them below `bound`. */
  ghost predicate Tables(sins: seq<real>, coss: seq<real>, start: real, delta: real, bound: real, m: Elementary)
  {
    && |sins| == |coss|
    && forall i :: 0 <= i < |sins| ==>
         Angle(start, delta, i) < bound && sins[i] == m.sin(Angle(start, delta, i)) && coss[i] == m.cos(Angle(start, delta, i))
  }

  /** Appending the next angle's sine and cosine, when that angle is below
      the bound, extends the tables. */
  lemma TablesAppend(sins: seq<real>, coss: seq<real>, start: real, delta: real, bound: real, m: Elementary)
    requires Tables(sins, coss, start, delta, bound, m) && Angle(start, delta, |sins|) < bound
    ensures var a := Angle(start, delta, |sins|);
      Tables(sins + [m.sin(a)], coss + [m.cos(a)], start, delta, bound, m)
  {
  }

  /** How many increments are left before `angle` reaches `bound`, plus
      one; zero once it has. */
  function StepsLeft(angle: real, bound: real, delta: real): real
    requires 0.0 < delta
  {
    if angle < bound then (bound - angle) / delta + 1.0 else 0.0
  }

  /** One increment takes at least one off the steps left, which are never
      negative. */
  lemma StepsLeftDecrease(angle: real, bound: real, delta: real)
    requires 0.0 < delta && angle < bound
    ensures 0.0 <= StepsLeft(angle + delta, bound, delta) <= StepsLeft(angle, bound, delta) - 1.0
  {
    var gap := bound - angle;
    assert 0.0 <= gap / delta;
    assert delta / delta == 1.0;
    assert (gap - delta) / delta == gap / delta - delta / delta;
  }

  /** With a non-positive increment and a_min < a_max, every angle the table
      loop reaches stays below a_max, so the loop condition never fails and
      createCache does not return. */
  lemma {:induction false} CreateCacheDiverges(aMin: real, aInc: real, aMax: real, n: nat)
    requires aInc <= 0.0 && aMin < aMax
    ensures Angle(aMin, aInc, n) <= aMin < aMax
    decreases n
  {
    if n > 0 {
      CreateCacheDiverges(aMin, aInc, aMax, n - 1);
    }
  }

  class TrigonometricCache {
    var sinTable: seq<real>
    var cosTable: seq<real>
    var sinTheta: real
    var cosTheta: real
    var angleMin: real
    var angleMax: real
    var angleDelta: real
    /** std::sin and std::cos. */
    const math: Elementary

    /** The i-th beam angle of the stored range. */
    function AngleAt(i: nat): real
      reads this`angleMin, this`angleDelta
    {
      Angle(angleMin, angleDelta, i)
    }

    /** The tables hold, index by index, the sine and cosine of every angle
        of the range that lies below angle_max, and no more. */
    ghost predicate Valid()
      reads this`sinTable, this`cosTable, this`angleMin, this`angleMax, this`angleDelta
    {
      && Tables(sinTable, cosTable, angleMin, angleDelta, angleMax, math)
      && angleMax <= AngleAt(|sinTable|)
    }

    constructor (math: Elementary)
      ensures Valid() && this.math == math
      ensures sinTable == [] && cosTable == []
      ensures sinTheta == 0.0 && cosTheta == 0.0
      ensures angleMin == 0.0 && angleMax == 0.0 && angleDelta == 0.0
    {
      sinTable, cosTable := [], [];
      sinTheta, cosTheta := 0.0, 0.0;
      angleMin, angleMax, angleDelta := 0.0, 0.0, 0.0;
      this.math := math;
    }

    /** sin(angle_idx): the sine of theta plus the idx-th beam angle, by the
        angle-addition formula over the stored sines and cosines. */
    function Sin(idx: int): (r: real)
      reads this
      requires Valid() && 0 <= idx < |sinTable|
      ensures r == sinTheta * math.cos(AngleAt(idx)) + cosTheta * math.sin(AngleAt(idx))
    {
      sinTheta * cosTable[idx] + cosTheta * sinTable[idx]
    }

    /** cos(angle_idx): the cosine of theta plus the idx-th beam angle, by the
        angle-addition formula over the stored sines and cosines. */
    function Cos(idx: int): (r: real)
      reads this
      requires Valid() && 0 <= idx < |cosTable|
      ensures r == cosTheta * math.cos(AngleAt(idx)) - sinTheta * math.sin(AngleAt(idx))
    {
      cosTheta * cosTable[idx] - sinTheta * sinTable[idx]
    }

    /** setTheta: only the two rotation scalars change. */
    method SetTheta(theta: real)
      modifies this`sinTheta, this`cosTheta
      ensures sinTheta == math.sin(theta) && cosTheta == math.cos(theta)
      ensures sinTable == old(sinTable) && cosTable == old(cosTable)
      ensures angleMin == old(angleMin) && angleMax == old(angleMax) && angleDelta == old(angleDelta)
      ensures Valid() == old(Valid())
    {
      sinTheta := math.sin(theta);
      cosTheta := math.cos(theta);
    }

    /** createCache: nothing changes when the range and increment are those of
        the last build; otherwise the bounds are stored and both tables are
        rebuilt for them. The rotation is kept either way. The loop runs
        forever when a_min < a_max and a_inc <= 0, so that case is excluded. */
    method CreateCache(aMin: real, aMax: real, aInc: real)
      requires Valid()
      requires (aMin == angleMin && aMax == angleMax && aInc == angleDelta) || aMax <= aMin || 0.0 < aInc
      modifies this
      ensures Valid()
      ensures old(aMin == angleMin && aMax == angleMax && aInc == angleDelta) ==> unchanged(this)
      ensures angleMin == aMin && angleMax == aMax && angleDelta == aInc
      ensures sinTheta == old(sinTheta) && cosTheta == old(cosTheta)
    {
      if aMin == angleMin && aMax == angleMax && aInc == angleDelta {
        return;
      }
      angleMin, angleMax, angleDelta := aMin, aMax, aInc;
      var sins: seq<real>, coss: seq<real> := [], [];
      var angle := aMin;
      while angle < aMax
        invariant angle == Angle(aMin, aInc, |sins|)
        invariant Tables(sins, coss, aMin, aInc, aMax, math)
        invariant 0.0 < aInc || aMax <= angle
        modifies {}
        decreases if 0.0 < aInc then StepsLeft(angle, aMax, aInc) else 0.0
      {
        TablesAppend(sins, coss, aMin, aInc, aMax, math);
        sins := sins + [math.sin(angle)];
        coss := coss + [math.cos(angle)];
        StepsLeftDecrease(angle, aMax, aInc);
        angle := angle + aInc;
      }
      sinTable, cosTable := sins, coss;
    }
  }
}
