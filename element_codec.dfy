/**
 * The two conversions between an element of a Sage number field and the
 * backend element that wraps it.
 *
 * Encoding turns the dense coefficient list of a number field element into a
 * backend element by accumulating coeff * gen^i, keeping a running power of
 * the generator.  Decoding divides the backend's integer numerator vector by
 * its common denominator and pads the result with zeros up to the degree.
 */
module ElementCodec {
  import opened Errors
  import opened PowerBasis

  /** The dense coefficient list of a number field element given in the
      power basis: its vector without trailing zeros. */
  function Coefficients(value: Vec): (c: seq<real>)
    ensures |c| <= |value|
    ensures Pad(c, |value|) == value
  {
    PadStrip(value);
    StripTrailingZeros(value)
  }

  lemma PrefixStep(c: seq<real>, k: nat)
    requires k < |c|
    ensures c[..k + 1][..k] == c[..k] && c[..k + 1][k] == c[k]
  {
  }

  /**
   * The loop of the element constructor: starting from zero and from
   * gen^0 == one, add coeff * gen_pow for every coefficient and multiply
   * gen_pow by the generator.  The result is the element whose
   * coefficient vector is the list padded to the degree.
   */
  method EncodeCoefficients(p: seq<real>, coefficients: seq<real>) returns (renfElem: Vec)
    requires ValidMinpoly(p) && |coefficients| <= Degree(p)
    ensures renfElem == Eval(p, coefficients)
    ensures renfElem == Pad(coefficients, Degree(p))
  {
    var d := Degree(p);
    var reducer := Reducer(p);
    renfElem := Zero(d);
    var genPow := One(d);
    for k := 0 to |coefficients|
      invariant renfElem == Eval(p, coefficients[..k])
      invariant genPow == GenPow(p, k)
    {
      PrefixStep(coefficients, k);
      renfElem := Add(renfElem, Scale(coefficients[k], genPow));
      genPow := MulGen(reducer, genPow);
    }
    assert coefficients[..|coefficients|] == coefficients;
    EvalIsPad(p, coefficients);
  }

  /**
   * Encoding a number field element, given by its power-basis vector,
   * through its dense coefficient list yields the same vector.
   */
  method Encode(p: seq<real>, value: Vec) returns (renfElem: Vec)
    requires ValidMinpoly(p) && |value| == Degree(p)
    ensures renfElem == value
  {
    renfElem := EncodeCoefficients(p, Coefficients(value));
  }

  /**
   * The conversion back to a number field element, as a total function:
   * every numerator divided by the denominator, then zeros up to the
   * degree.  Python raises ZeroDivisionError at the first division by a zero
   * denominator, so an empty numerator vector never raises.
   */
  function Decoded(degree: nat, num: seq<int>, den: int): (r: Result<seq<real>>)
    ensures r.Err? <==> den == 0 && |num| > 0
    ensures r.Err? ==> r.error == ZeroDivisionError
    ensures r.Ok? ==> |r.value| == if |num| < degree then degree else |num|
    ensures r.Ok? ==> forall i | 0 <= i < |r.value| ::
              r.value[i] == if i < |num| then (num[i] as real) / (den as real) else 0.0
  {
    if den == 0 && |num| > 0 then Err(ZeroDivisionError)
    else
      var len := if |num| < degree then degree else |num|;
      Ok(seq(len, i requires 0 <= i < len =>
        if i < |num| then (num[i] as real) / (den as real) else 0.0))
  }

  /**
   * The conversion loop: the quotients, then a while loop that appends zeros
   * until the degree is reached.
   */
  method Decode(degree: nat, num: seq<int>, den: int) returns (r: Result<seq<real>>)
    ensures r == Decoded(degree, num, den)
  {
    if den == 0 && |num| > 0 {
      return Err(ZeroDivisionError);
    }
    var rationalCoefficients := seq(|num|, i requires 0 <= i < |num| => (num[i] as real) / (den as real));
    while |rationalCoefficients| < degree
      invariant |num| <= |rationalCoefficients| <= if |num| < degree then degree else |num|
      invariant forall i | 0 <= i < |rationalCoefficients| ::
                  rationalCoefficients[i] == if i < |num| then (num[i] as real) / (den as real) else 0.0
      decreases degree - |rationalCoefficients|
    {
      rationalCoefficients := rationalCoefficients + [0.0];
    }
    assert rationalCoefficients == Decoded(degree, num, den).value;
    r := Ok(rationalCoefficients);
  }

  /**
   * The backend stores an element as an integer numerator vector and a
   * positive common denominator; the vector v it stands for has the
   * quotients as its first entries and zeros after them.
   */
  predicate Represents(num: seq<int>, den: int, v: Vec)
  {
    den > 0 && |num| <= |v| &&
    forall i | 0 <= i < |v| :: v[i] == if i < |num| then (num[i] as real) / (den as real) else 0.0
  }

  /** Decoding the backend representation of an element gives back its
      coefficient vector. */
  lemma DecodeRepresented(num: seq<int>, den: int, v: Vec)
    requires Represents(num, den, v)
    ensures Decoded(|v|, num, den) == Ok(v)
  {
    var r := Decoded(|v|, num, den);
    assert r.value == v;
  }

  /**
   * The serialisation round trip of an element: the state holds the
   * decoded number field element, restoring it encodes that element again,
   * and the result is the element that was serialised.
   */
  lemma StateRoundTrip(p: seq<real>, num: seq<int>, den: int, v: Vec)
    requires ValidMinpoly(p) && |v| == Degree(p) && Represents(num, den, v)
    ensures Decoded(Degree(p), num, den) == Ok(v)
    ensures Eval(p, Coefficients(v)) == v
  {
    DecodeRepresented(num, den, v);
    EvalIsPad(p, Coefficients(v));
  }
}
