/**
 * Choosing the embedding of a backend number field among the real roots of
 * its minimal polynomial.
 *
 * The printed form of the field carries a ball that contains the embedded
 * generator.  The real roots of the minimal polynomial are evaluated as balls
 * at the precisions 53, 64, 128 and 256 bits in turn; at each precision the
 * roots whose ball overlaps the printed ball are kept, and the first
 * precision that keeps exactly one root decides.  When no precision does,
 * the construction fails with a RuntimeError.
 *
 * Ball arithmetic is an input: `BallOracle.printed(prec)` is the printed
 * ball read at precision prec and `BallOracle.of(prec, x)` is the ball of
 * the real root x at that precision.
 */
module RootDisambiguation {
  import opened Errors

  /** A closed interval [center - radius, center + radius]. */
  datatype Ball = Ball(center: real, radius: real)

  datatype BallOracle = BallOracle(printed: nat -> Ball, of: (nat, real) -> Ball)

  const Precisions: seq<nat> := [53, 64, 128, 256]

  const Undecided: Error := RuntimeError("cannot distinguish roots with limited ball field precision")

  function Abs(x: real): real
  {
    if x < 0.0 then -x else x
  }

  predicate Overlaps(a: Ball, b: Ball)
  {
    Abs(a.center - b.center) <= a.radius + b.radius
  }

  predicate Contains(b: Ball, x: real)
  {
    Abs(x - b.center) <= b.radius
  }

  /** The roots whose ball at precision prec overlaps the printed ball at
      that precision, in their original order. */
  function Overlapping(roots: seq<real>, o: BallOracle, prec: nat): (r: seq<real>)
    ensures |r| <= |roots|
    ensures forall x :: x in r <==> x in roots && Overlaps(o.of(prec, x), o.printed(prec))
  {
    if |roots| == 0 then []
    else
      var rest := Overlapping(roots[1..], o, prec);
      assert forall x :: x in roots <==> x == roots[0] || x in roots[1..];
      if Overlaps(o.of(prec, roots[0]), o.printed(prec)) then [roots[0]] + rest else rest
  }

  /** Exactly one root overlaps at the i-th precision of the ladder. */
  predicate Decides(roots: seq<real>, o: BallOracle, i: nat)
    requires i < |Precisions|
  {
    |Overlapping(roots, o, Precisions[i])| == 1
  }

  /** The outcome of the ladder from its i-th precision on. */
  function ResolveFrom(roots: seq<real>, o: BallOracle, i: nat): Result<real>
    requires i <= |Precisions|
    decreases |Precisions| - i
  {
    if i == |Precisions| then Err(Undecided)
    else
      var kept := Overlapping(roots, o, Precisions[i]);
      if |kept| == 1 then Ok(kept[0]) else ResolveFrom(roots, o, i + 1)
  }

  function Resolve(roots: seq<real>, o: BallOracle): Result<real>
  {
    ResolveFrom(roots, o, 0)
  }

  /**
   * The loop over the ladder: `roots` is reassigned at every precision and
   * the loop breaks as soon as exactly one root is left.
   */
  method Disambiguate(aaRoots: seq<real>, o: BallOracle) returns (r: Result<real>)
    ensures r == Resolve(aaRoots, o)
  {
    var roots: seq<real> := [];
    var i := 0;
    while i < |Precisions|
      invariant 0 <= i <= |Precisions|
      invariant Resolve(aaRoots, o) == ResolveFrom(aaRoots, o, i)
      invariant i > 0 ==> roots == Overlapping(aaRoots, o, Precisions[i - 1]) && |roots| != 1
    {
      roots := Overlapping(aaRoots, o, Precisions[i]);
      if |roots| == 1 {
        break;
      }
      i := i + 1;
    }
    if |roots| != 1 {
      return Err(Undecided);
    }
    r := Ok(roots[0]);
  }

  // ---------------------------------------------------------------------
  // What the ladder decides.

  lemma {:induction false} ResolveFromOk(roots: seq<real>, o: BallOracle, i: nat)
    requires i <= |Precisions| && ResolveFrom(roots, o, i).Ok?
    ensures exists k | i <= k < |Precisions| ::
              Decides(roots, o, k) &&
              ResolveFrom(roots, o, i).value == Overlapping(roots, o, Precisions[k])[0] &&
              forall j | i <= j < k :: !Decides(roots, o, j)
    decreases |Precisions| - i
  {
    if !Decides(roots, o, i) {
      ResolveFromOk(roots, o, i + 1);
    }
  }

  lemma {:induction false} ResolveFromErr(roots: seq<real>, o: BallOracle, i: nat)
    requires i <= |Precisions|
    ensures ResolveFrom(roots, o, i).Err? <==> forall j | i <= j < |Precisions| :: !Decides(roots, o, j)
    ensures ResolveFrom(roots, o, i).Err? ==> ResolveFrom(roots, o, i).error == Undecided
    decreases |Precisions| - i
  {
    if i < |Precisions| {
      ResolveFromErr(roots, o, i + 1);
      assert (forall j | i <= j < |Precisions| :: !Decides(roots, o, j)) <==>
             !Decides(roots, o, i) && forall j | i + 1 <= j < |Precisions| :: !Decides(roots, o, j);
    }
  }

  /** The ladder returns the single overlapping root of the first precision
      that keeps exactly one; that root is a candidate and overlaps the
      printed ball there.  Precisions that keep none or several are passed
      over. */
  lemma ResolveOk(roots: seq<real>, o: BallOracle)
    requires Resolve(roots, o).Ok?
    ensures exists k | 0 <= k < |Precisions| ::
              Decides(roots, o, k) &&
              Resolve(roots, o).value == Overlapping(roots, o, Precisions[k])[0] &&
              Overlaps(o.of(Precisions[k], Resolve(roots, o).value), o.printed(Precisions[k])) &&
              forall j | 0 <= j < k :: !Decides(roots, o, j)
    ensures Resolve(roots, o).value in roots
  {
    ResolveFromOk(roots, o, 0);
    var k :| 0 <= k < |Precisions| &&
              Decides(roots, o, k) &&
              Resolve(roots, o).value == Overlapping(roots, o, Precisions[k])[0] &&
              forall j | 0 <= j < k :: !Decides(roots, o, j);
    assert Resolve(roots, o).value in Overlapping(roots, o, Precisions[k]);
  }

  /** The construction fails exactly when no precision of the ladder keeps a
      single root, and then with the RuntimeError of the source. */
  lemma ResolveErr(roots: seq<real>, o: BallOracle)
    ensures Resolve(roots, o).Err? <==> forall j | 0 <= j < |Precisions| :: !Decides(roots, o, j)
    ensures Resolve(roots, o).Err? ==> Resolve(roots, o).error == Undecided
  {
    ResolveFromErr(roots, o, 0);
  }

  /** Balls that contain what they stand for overlap when they stand for the
      same number. */
  lemma ContainsOverlap(a: Ball, b: Ball, x: real)
    requires Contains(a, x) && Contains(b, x)
    ensures Overlaps(a, b)
  {
  }

  /** The balls are sound at precision prec for the embedding t when the
      printed ball and the ball of t both contain t. */
  predicate SoundAt(o: BallOracle, prec: nat, t: real)
  {
    Contains(o.printed(prec), t) && Contains(o.of(prec, t), t)
  }

  /** With sound balls the ladder never picks a wrong root: the embedding t
      overlaps at every precision, so a precision keeping a single root keeps
      t. */
  lemma ResolveSound(roots: seq<real>, o: BallOracle, t: real)
    requires t in roots
    requires forall j | 0 <= j < |Precisions| :: SoundAt(o, Precisions[j], t)
    requires Resolve(roots, o).Ok?
    ensures Resolve(roots, o).value == t
  {
    ResolveOk(roots, o);
    var k :| 0 <= k < |Precisions| &&
              Decides(roots, o, k) &&
              Resolve(roots, o).value == Overlapping(roots, o, Precisions[k])[0];
    var prec := Precisions[k];
    assert SoundAt(o, prec, t);
    ContainsOverlap(o.of(prec, t), o.printed(prec), t);
    var kept := Overlapping(roots, o, prec);
    assert t in kept;
    assert kept == [kept[0]];
  }

  /** The real roots of a polynomial, listed without multiplicities. */
  predicate Distinct(s: seq<real>)
  {
    forall i, j | 0 <= i < j < |s| :: s[i] != s[j]
  }

  lemma {:induction false} OverlappingNone(roots: seq<real>, o: BallOracle, prec: nat)
    requires forall x | x in roots :: !Overlaps(o.of(prec, x), o.printed(prec))
    ensures Overlapping(roots, o, prec) == []
  {
    if |roots| > 0 {
      var y := roots[0];
      assert y in roots;
      assert !Overlaps(o.of(prec, y), o.printed(prec));
      assert forall x | x in roots[1..] :: x in roots;
      OverlappingNone(roots[1..], o, prec);
      assert Overlapping(roots, o, prec) == Overlapping(roots[1..], o, prec);
    }
  }

  lemma {:induction false} OverlappingSingle(roots: seq<real>, o: BallOracle, prec: nat, t: real)
    requires t in roots && Distinct(roots)
    requires Overlaps(o.of(prec, t), o.printed(prec))
    requires forall x | x in roots && x != t :: !Overlaps(o.of(prec, x), o.printed(prec))
    ensures Overlapping(roots, o, prec) == [t]
  {
    var rest := Overlapping(roots[1..], o, prec);
    if roots[0] == t {
      assert t !in roots[1..] by {
        forall i | 0 <= i < |roots| - 1
          ensures roots[1..][i] != t
        {
          assert roots[1..][i] == roots[i + 1];
        }
      }
      OverlappingNone(roots[1..], o, prec);
    } else {
      assert t in roots[1..];
      OverlappingSingle(roots[1..], o, prec, t);
    }
  }

  /** With sound balls that separate t from every other root at the first
      precision, the ladder returns t at once. */
  lemma ResolveSeparated(roots: seq<real>, o: BallOracle, t: real)
    requires t in roots && Distinct(roots) && SoundAt(o, 53, t)
    requires forall x | x in roots && x != t :: !Overlaps(o.of(53, x), o.printed(53))
    ensures Resolve(roots, o) == Ok(t)
  {
    ContainsOverlap(o.of(53, t), o.printed(53), t);
    OverlappingSingle(roots, o, 53, t);
  }
}
