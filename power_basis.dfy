/**
 * Elements of a real embedded number field in the power basis of its
 * generator.
 *
 * A field of degree d is given by its defining polynomial p, written as its
 * coefficients in ascending degree (|p| == d + 1, leading coefficient
 * nonzero).  An element is the vector of its d coefficients with respect to
 * 1, gen, ..., gen^(d-1).  Dafny's `real` stands for the rationals: every
 * operation here only adds, multiplies and divides by nonzero rationals.
 *
 * The exact arithmetic of the backend is reduced to the operations that the
 * element codec and the element class need: sum, scalar multiple and
 * multiplication by the generator.  Multiplication by the generator reduces
 * modulo the monic polynomial x^d + m[d-1] x^(d-1) + ... + m[0], where m is
 * p below its leading term divided by the leading coefficient (the
 * `Reducer` of p).
 *
 * `Value` evaluates a vector at a real number g: when g is the embedded
 * generator (a root of p) it is the real number that the element denotes.
 */
module PowerBasis {

  type Vec = seq<real>

  /** A defining polynomial: degree at least one, nonzero leading coefficient. */
  predicate ValidMinpoly(p: seq<real>)
  {
    |p| >= 2 && p[|p| - 1] != 0.0
  }

  function Degree(p: seq<real>): nat
    requires ValidMinpoly(p)
  {
    |p| - 1
  }

  function Zero(d: nat): (z: Vec)
    ensures |z| == d
  {
    seq(d, i => 0.0)
  }

  /** The k-th vector of the standard basis, i.e. gen^k when k < d. */
  function Unit(d: nat, k: nat): (u: Vec)
    ensures |u| == d
  {
    seq(d, i => if i == k then 1.0 else 0.0)
  }

  function One(d: nat): Vec
  {
    Unit(d, 0)
  }

  function Add(u: Vec, w: Vec): (r: Vec)
    requires |u| == |w|
    ensures |r| == |u|
  {
    seq(|u|, i requires 0 <= i < |u| => u[i] + w[i])
  }

  function Scale(c: real, u: Vec): (r: Vec)
    ensures |r| == |u|
  {
    seq(|u|, i requires 0 <= i < |u| => c * u[i])
  }

  function Neg(u: Vec): Vec
  {
    Scale(-1.0, u)
  }

  function Sub(u: Vec, w: Vec): Vec
    requires |u| == |w|
  {
    Add(u, Neg(w))
  }

  /** p below its leading term, divided by the leading coefficient: gen^d is
      minus the element with these coefficients. */
  function Reducer(p: seq<real>): (m: Vec)
    requires ValidMinpoly(p)
    ensures |m| == Degree(p)
  {
    seq(Degree(p), i requires 0 <= i < Degree(p) => p[i] / p[Degree(p)])
  }

  /** Multiplication by the variable before reduction: every coefficient
      moves one degree up and the top one falls off. */
  function Shift(u: Vec): (r: Vec)
    requires |u| >= 1
    ensures |r| == |u|
  {
    [0.0] + u[..|u| - 1]
  }

  /** Multiplication by the generator: shift, then subtract the top
      coefficient times the reducer, which stands for the term of degree d. */
  function MulGen(m: Vec, u: Vec): (r: Vec)
    requires |u| == |m| >= 1
    ensures |r| == |m|
  {
    Add(Shift(u), Scale(-u[|u| - 1], m))
  }

  /** gen^k * u */
  function MulGenPow(m: Vec, u: Vec, k: nat): (r: Vec)
    requires |u| == |m| >= 1
    ensures |r| == |m|
  {
    if k == 0 then u else MulGen(m, MulGenPow(m, u, k - 1))
  }

  /** gen^k in the field of p */
  function GenPow(p: seq<real>, k: nat): Vec
    requires ValidMinpoly(p)
  {
    MulGenPow(Reducer(p), One(Degree(p)), k)
  }

  /** The sum of c[i] * gen^i * u over all i < |c|. */
  function Combination(m: Vec, c: seq<real>, u: Vec): (r: Vec)
    requires |u| == |m| >= 1
    ensures |r| == |m|
  {
    if |c| == 0 then Zero(|m|)
    else Add(Combination(m, c[..|c| - 1], u), Scale(c[|c| - 1], MulGenPow(m, u, |c| - 1)))
  }

  /** The element c[0] + c[1] * gen + c[2] * gen^2 + ... of the field of p. */
  function Eval(p: seq<real>, c: seq<real>): Vec
    requires ValidMinpoly(p)
  {
    Combination(Reducer(p), c, One(Degree(p)))
  }

  /** c followed by zeros up to length d. */
  function Pad(c: seq<real>, d: nat): (r: Vec)
    requires |c| <= d
    ensures |r| == d
  {
    seq(d, i requires 0 <= i < d => if i < |c| then c[i] else 0.0)
  }

  /** The dense coefficient list of a polynomial: its coefficient vector
      without trailing zeros. */
  function StripTrailingZeros(v: seq<real>): (r: seq<real>)
    ensures |r| <= |v|
    ensures r == v[..|r|]
    ensures |r| == 0 || r[|r| - 1] != 0.0
    ensures forall i | |r| <= i < |v| :: v[i] == 0.0
  {
    if |v| > 0 && v[|v| - 1] == 0.0 then StripTrailingZeros(v[..|v| - 1]) else v
  }

  /** The real number v[0] + v[1] * g + v[2] * g^2 + ..., in Horner form. */
  function Value(v: seq<real>, g: real): real
  {
    if |v| == 0 then 0.0 else v[0] + g * Value(v[1..], g)
  }

  predicate IsRoot(p: seq<real>, g: real)
  {
    Value(p, g) == 0.0
  }

  // ---------------------------------------------------------------------
  // The power basis: gen^k is the k-th unit vector below the degree, so an
  // element built from at most d coefficients has exactly those
  // coefficients.

  /** Below the degree, the generator moves each basis vector one place up. */
  lemma MulGenUnit(m: Vec, j: nat)
    requires j + 1 < |m|
    ensures MulGen(m, Unit(|m|, j)) == Unit(|m|, j + 1)
  {
    var d := |m|;
    var u := Unit(d, j);
    assert u[d - 1] == 0.0;
    var r := MulGen(m, u);
    forall i | 0 <= i < d
      ensures r[i] == Unit(d, j + 1)[i]
    {
      assert Scale(-u[d - 1], m)[i] == 0.0;
      assert Shift(u)[i] == if i == 0 then 0.0 else u[i - 1];
    }
  }

  lemma {:induction false} GenPowIsUnit(p: seq<real>, k: nat)
    requires ValidMinpoly(p) && k < Degree(p)
    ensures GenPow(p, k) == Unit(Degree(p), k)
  {
    if k > 0 {
      GenPowIsUnit(p, k - 1);
      MulGenUnit(Reducer(p), k - 1);
    }
  }

  /** The reduction identity: gen^d == -(m[0] + m[1] gen + ... + m[d-1] gen^(d-1)),
      i.e. the generator is a root of p divided by its leading coefficient. */
  lemma GenPowDegree(p: seq<real>)
    requires ValidMinpoly(p)
    ensures GenPow(p, Degree(p)) == Neg(Reducer(p))
  {
    var d := Degree(p);
    var m := Reducer(p);
    GenPowIsUnit(p, d - 1);
    var u := Unit(d, d - 1);
    assert GenPow(p, d) == MulGen(m, u);
    forall i | 0 <= i < d
      ensures MulGen(m, u)[i] == Neg(m)[i]
    {
      assert Shift(u)[i] == 0.0;
    }
  }

  lemma {:induction false} EvalIsPad(p: seq<real>, c: seq<real>)
    requires ValidMinpoly(p) && |c| <= Degree(p)
    ensures Eval(p, c) == Pad(c, Degree(p))
  {
    var d := Degree(p);
    if |c| > 0 {
      var n := |c|;
      EvalIsPad(p, c[..n - 1]);
      GenPowIsUnit(p, n - 1);
      var r := Eval(p, c);
      assert r == Add(Pad(c[..n - 1], d), Scale(c[n - 1], Unit(d, n - 1)));
      forall i | 0 <= i < d
        ensures r[i] == Pad(c, d)[i]
      {
      }
      assert r == Pad(c, d);
    }
  }

  /** Padding the dense coefficient list back to the full length restores the vector. */
  lemma PadStrip(v: seq<real>)
    ensures Pad(StripTrailingZeros(v), |v|) == v
  {
    var s := StripTrailingZeros(v);
    forall i | 0 <= i < |v|
      ensures Pad(s, |v|)[i] == v[i]
    {
    }
  }

  // ---------------------------------------------------------------------
  // The real value: the linear operations agree with the arithmetic of the
  // reals, and padding with zeros does not change the number.

  lemma Distribute(c: real, a: real, b: real)
    ensures c * (a + b) == c * a + c * b
  {
  }

  /** c * h + g * (c * t) == c * (h + g * t), on plain reals. */
  lemma ScaleStep(c: real, h: real, g: real, t: real)
    ensures c * h + g * (c * t) == c * (h + g * t)
  {
    Distribute(c, h, g * t);
    assert g * (c * t) == c * (g * t);
  }

  lemma {:induction false} ValueAdd(u: Vec, w: Vec, g: real)
    requires |u| == |w|
    ensures Value(Add(u, w), g) == Value(u, g) + Value(w, g)
  {
    if |u| > 0 {
      assert Add(u, w)[1..] == Add(u[1..], w[1..]);
      ValueAdd(u[1..], w[1..], g);
      Distribute(g, Value(u[1..], g), Value(w[1..], g));
    }
  }

  lemma {:induction false} ValueScale(c: real, u: Vec, g: real)
    ensures Value(Scale(c, u), g) == c * Value(u, g)
  {
    if |u| > 0 {
      var s := Scale(c, u);
      assert s[1..] == Scale(c, u[1..]) by {
        forall i | 0 <= i < |u| - 1
          ensures s[i + 1] == Scale(c, u[1..])[i]
        {
        }
      }
      ValueScale(c, u[1..], g);
      ScaleStep(c, u[0], g, Value(u[1..], g));
    }
  }

  lemma {:induction false} ValueZero(d: nat, g: real)
    ensures Value(Zero(d), g) == 0.0
  {
    if d > 0 {
      assert Zero(d)[1..] == Zero(d - 1);
      ValueZero(d - 1, g);
    }
  }

  /** Trailing zero coefficients do not change the number. */
  lemma {:induction false} ValuePad(c: seq<real>, d: nat, g: real)
    requires |c| <= d
    ensures Value(Pad(c, d), g) == Value(c, g)
  {
    if |c| == 0 {
      assert Pad(c, d) == Zero(d);
      ValueZero(d, g);
    } else {
      assert Pad(c, d)[1..] == Pad(c[1..], d - 1);
      ValuePad(c[1..], d - 1, g);
    }
  }

  /** Encoding at most d coefficients yields the number c[0] + c[1] g + ... + c[k] g^k,
      whatever real number g the generator is embedded as. */
  lemma EvalValue(p: seq<real>, c: seq<real>, g: real)
    requires ValidMinpoly(p) && |c| <= Degree(p)
    ensures Value(Eval(p, c), g) == Value(c, g)
  {
    EvalIsPad(p, c);
    ValuePad(c, Degree(p), g);
  }

  lemma SubValue(u: Vec, w: Vec, g: real)
    requires |u| == |w|
    ensures Value(Sub(u, w), g) == Value(u, g) - Value(w, g)
  {
    ValueAdd(u, Neg(w), g);
    ValueScale(-1.0, w, g);
  }

  lemma NegValue(u: Vec, g: real)
    ensures Value(Neg(u), g) == -Value(u, g)
  {
    ValueScale(-1.0, u, g);
  }
}
