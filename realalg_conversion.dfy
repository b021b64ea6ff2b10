/**
 * Conversion from realalg real number fields and their elements.
 *
 * A polynomial with integer coefficients c[0], c[1], ... is written for the
 * backend as "c[0] + c[i] * var^i + ..." with one term for every nonzero
 * coefficient past the constant one, in ascending degree.  A realalg field
 * becomes a backend field request made of that text, the generator name and
 * the text of an isolating interval; a realalg element becomes the data the
 * backend builds an element from.
 */
module RealalgConversion {
  import opened Errors

  // ---------------------------------------------------------------------
  // Python's str() of an integer.

  function DigitChar(d: nat): char
    requires d < 10
  {
    ('0' as int + d) as char
  }

  function NatToString(n: nat): (s: string)
    ensures |s| >= 1
    ensures forall k | 0 <= k < |s| :: '0' <= s[k] <= '9'
  {
    if n < 10 then [DigitChar(n)] else NatToString(n / 10) + [DigitChar(n % 10)]
  }

  function IntToString(i: int): string
  {
    if i < 0 then "-" + NatToString(-i) else NatToString(i)
  }

  /** The value of a text of decimal digits. */
  function DigitsValue(s: string): int
  {
    if |s| == 0 then 0 else DigitsValue(s[..|s| - 1]) * 10 + (s[|s| - 1] as int - '0' as int)
  }

  /** Reading an optionally signed decimal text. */
  function ParseInt(s: string): int
  {
    if |s| > 0 && s[0] == '-' then -DigitsValue(s[1..]) else DigitsValue(s)
  }

  lemma {:induction false} NatToStringRoundTrip(n: nat)
    ensures DigitsValue(NatToString(n)) == n
  {
    if n >= 10 {
      NatToStringRoundTrip(n / 10);
      var s := NatToString(n);
      assert s[..|s| - 1] == NatToString(n / 10);
    }
  }

  /** The decimal text of an integer reads back as that integer. */
  lemma IntToStringRoundTrip(i: int)
    ensures ParseInt(IntToString(i)) == i
  {
    if i < 0 {
      NatToStringRoundTrip(-i);
      assert IntToString(i)[1..] == NatToString(-i);
    } else {
      NatToStringRoundTrip(i);
    }
  }

  // ---------------------------------------------------------------------
  // The polynomial text.

  /** The text ' + %s * %s^%s' of the coefficient x of degree i. */
  function TermText(x: int, variable: string, i: nat): string
  {
    " + " + IntToString(x) + " * " + variable + "^" + NatToString(i)
  }

  /** The term of the coefficient x of degree i: nothing when x is zero. */
  function Term(x: int, variable: string, i: nat): string
  {
    if x == 0 then "" else TermText(x, variable, i)
  }

  /** The text after the coefficients of degrees below n: the constant
      coefficient, then the terms of degrees 1 to n - 1 in ascending degree. */
  function TextUpTo(coeffs: seq<int>, variable: string, n: nat): string
    requires 1 <= n <= |coeffs|
  {
    if n == 1 then IntToString(coeffs[0])
    else TextUpTo(coeffs, variable, n - 1) + Term(coeffs[n - 1], variable, n - 1)
  }

  /** The text of the polynomial. */
  function PolyText(coeffs: seq<int>, variable: string): string
    requires |coeffs| >= 1
  {
    TextUpTo(coeffs, variable, |coeffs|)
  }

  lemma TextStep(coeffs: seq<int>, variable: string, i: nat)
    requires 1 <= i < |coeffs|
    ensures coeffs[i] == 0 ==> TextUpTo(coeffs, variable, i + 1) == TextUpTo(coeffs, variable, i)
    ensures coeffs[i] != 0 ==>
              TextUpTo(coeffs, variable, i + 1) == TextUpTo(coeffs, variable, i) + TermText(coeffs[i], variable, i)
  {
    var t := TextUpTo(coeffs, variable, i);
    if coeffs[i] == 0 {
      assert t + "" == t;
    }
  }

  /**
   * The serialiser: the constant coefficient, then a loop over the higher
   * degrees that skips zero coefficients with `continue` and appends one
   * term for every other.  An empty list fails on its first entry.
   */
  method PolyString(coeffs: seq<int>, variable: string) returns (r: Result<string>)
    ensures |coeffs| == 0 ==> r == Err(IndexError)
    ensures |coeffs| >= 1 ==> r == Ok(PolyText(coeffs, variable))
  {
    if |coeffs| == 0 {
      return Err(IndexError);
    }
    var s := IntToString(coeffs[0]);
    for i := 1 to |coeffs|
      invariant s == TextUpTo(coeffs, variable, i)
    {
      TextStep(coeffs, variable, i);
      if coeffs[i] == 0 {
        continue;
      }
      s := s + TermText(coeffs[i], variable, i);
    }
    r := Ok(s);
  }

  lemma {:induction false} TextUpToStart(coeffs: seq<int>, variable: string, n: nat)
    requires 1 <= n <= |coeffs|
    ensures IntToString(coeffs[0]) <= TextUpTo(coeffs, variable, n)
  {
    if n > 1 {
      TextUpToStart(coeffs, variable, n - 1);
      var start := IntToString(coeffs[0]);
      var before := TextUpTo(coeffs, variable, n - 1);
      var after := before + Term(coeffs[n - 1], variable, n - 1);
      assert TextUpTo(coeffs, variable, n) == after;
      assert after[..|start|] == before[..|start|];
    }
  }

  /** The text always starts with the constant coefficient, even a zero one. */
  lemma PolyTextStart(coeffs: seq<int>, variable: string)
    requires |coeffs| >= 1
    ensures IntToString(coeffs[0]) <= PolyText(coeffs, variable)
  {
    TextUpToStart(coeffs, variable, |coeffs|);
  }

  /** A single coefficient is written alone. */
  lemma PolyTextConstant(c: int, variable: string)
    ensures PolyText([c], variable) == IntToString(c)
  {
  }

  lemma {:induction false} TextUpToPrefix(coeffs: seq<int>, x: int, variable: string, n: nat)
    requires 1 <= n <= |coeffs|
    ensures TextUpTo(coeffs + [x], variable, n) == TextUpTo(coeffs, variable, n)
  {
    assert (coeffs + [x])[n - 1] == coeffs[n - 1];
    if n > 1 {
      TextUpToPrefix(coeffs, x, variable, n - 1);
    }
  }

  /** A zero coefficient of the next degree adds nothing to the text. */
  lemma PolyTextAppendZero(coeffs: seq<int>, variable: string)
    requires |coeffs| >= 1
    ensures PolyText(coeffs + [0], variable) == PolyText(coeffs, variable)
  {
    TextUpToPrefix(coeffs, 0, variable, |coeffs|);
    TextStep(coeffs + [0], variable, |coeffs|);
  }

  /** A nonzero coefficient x of the next degree adds exactly one term, with
      the sign of x inside it. */
  lemma PolyTextAppendNonzero(coeffs: seq<int>, x: int, variable: string)
    requires |coeffs| >= 1 && x != 0
    ensures PolyText(coeffs + [x], variable) == PolyText(coeffs, variable) + TermText(x, variable, |coeffs|)
  {
    TextUpToPrefix(coeffs, x, variable, |coeffs|);
    TextStep(coeffs + [x], variable, |coeffs|);
  }

  // ---------------------------------------------------------------------
  // One separator per nonzero term.

  function Count(c: char, s: string): nat
  {
    if |s| == 0 then 0 else (if s[0] == c then 1 else 0) + Count(c, s[1..])
  }

  lemma {:induction false} CountConcat(c: char, a: string, b: string)
    ensures Count(c, a + b) == Count(c, a) + Count(c, b)
  {
    if |a| > 0 {
      assert (a + b)[0] == a[0];
      assert (a + b)[1..] == a[1..] + b;
      CountConcat(c, a[1..], b);
    } else {
      assert a + b == b;
    }
  }

  lemma {:induction false} CountAbsent(c: char, s: string)
    requires c !in s
    ensures Count(c, s) == 0
  {
    if |s| > 0 {
      assert s[0] in s;
      assert forall k | k in s[1..] :: k in s;
      CountAbsent(c, s[1..]);
    }
  }

  lemma NoPlusInInt(i: int)
    ensures Count('+', IntToString(i)) == 0
  {
    var s := IntToString(i);
    assert forall k | 0 <= k < |s| :: s[k] != '+';
    CountAbsent('+', s);
  }

  lemma TermPluses(x: int, variable: string, i: nat)
    requires '+' !in variable
    ensures Count('+', Term(x, variable, i)) == if x == 0 then 0 else 1
  {
    if x != 0 {
      NoPlusInInt(x);
      NoPlusInInt(i);
      CountAbsent('+', variable);
      var s1 := " + " + IntToString(x);
      var s2 := s1 + " * ";
      var s3 := s2 + variable;
      var s4 := s3 + "^";
      CountConcat('+', " + ", IntToString(x));
      CountConcat('+', s1, " * ");
      CountConcat('+', s2, variable);
      CountConcat('+', s3, "^");
      CountConcat('+', s4, NatToString(i));
      assert TermText(x, variable, i) == s4 + NatToString(i);
    }
  }

  /** The number of nonzero coefficients of degrees 1 to n - 1. */
  function NonzeroTerms(coeffs: seq<int>, n: nat): nat
    requires n <= |coeffs|
  {
    if n <= 1 then 0 else NonzeroTerms(coeffs, n - 1) + (if coeffs[n - 1] != 0 then 1 else 0)
  }

  lemma {:induction false} TextUpToPluses(coeffs: seq<int>, variable: string, n: nat)
    requires 1 <= n <= |coeffs| && '+' !in variable
    ensures Count('+', TextUpTo(coeffs, variable, n)) == NonzeroTerms(coeffs, n)
  {
    if n == 1 {
      NoPlusInInt(coeffs[0]);
    } else {
      var before := TextUpTo(coeffs, variable, n - 1);
      var term := Term(coeffs[n - 1], variable, n - 1);
      assert TextUpTo(coeffs, variable, n) == before + term;
      TextUpToPluses(coeffs, variable, n - 1);
      TermPluses(coeffs[n - 1], variable, n - 1);
      CountConcat('+', before, term);
    }
  }

  /** With a variable name free of '+', the text holds exactly one '+' per
      nonzero coefficient past the constant one: one " + " separator per
      term. */
  lemma PolyTextSeparators(coeffs: seq<int>, variable: string)
    requires |coeffs| >= 1 && '+' !in variable
    ensures Count('+', PolyText(coeffs, variable)) == NonzeroTerms(coeffs, |coeffs|)
  {
    TextUpToPluses(coeffs, variable, |coeffs|);
  }

  /** The element of the documentation: 1 - a. */
  lemma PolyTextExampleElement()
    ensures PolyText([1, -1], "a") == "1 + -1 * a^1"
  {
    assert IntToString(-1) == "-1";
    assert IntToString(1) == "1";
    assert TermText(-1, "a", 1) == " + -1 * a^1";
    var c := [1, -1];
    TextStep(c, "a", 1);
    assert TextUpTo(c, "a", 1) == "1";
    assert PolyText(c, "a") == "1" + " + -1 * a^1";
  }

  /** The field of the documentation defined by x^2 - 2. */
  lemma PolyTextExampleQuadratic()
    ensures PolyText([-2, 0, 1], "a") == "-2 + 1 * a^2"
  {
    var c := [-2, 0, 1];
    assert IntToString(-2) == "-2";
    assert TextUpTo(c, "a", 2) == "-2" + "" == "-2";
    assert TermText(1, "a", 2) == " + 1 * a^2";
  }

  /** The constant and linear terms of x^4 + 3x - 13. */
  lemma QuarticLowTerms()
    ensures TextUpTo([-13, 3, 0, 0, 1], "a", 2) == "-13 + 3 * a^1"
  {
    var c := [-13, 3, 0, 0, 1];
    assert NatToString(13) == "13" by {
      assert NatToString(1) == "1";
      assert NatToString(3) == "3";
    }
    var s1 := TextUpTo(c, "a", 1);
    assert s1 == "-13";
    TextStep(c, "a", 1);
    assert TextUpTo(c, "a", 2) == s1 + TermText(3, "a", 1);
  }

  /** The field of the documentation defined by x^4 + 3x - 13. */
  lemma PolyTextExampleQuartic()
    ensures PolyText([-13, 3, 0, 0, 1], "a") == "-13 + 3 * a^1 + 1 * a^4"
  {
    var c := [-13, 3, 0, 0, 1];
    QuarticLowTerms();
    var s2 := TextUpTo(c, "a", 2);
    TextStep(c, "a", 2);
    TextStep(c, "a", 3);
    assert TextUpTo(c, "a", 4) == s2;
    TextStep(c, "a", 4);
    var t4 := TermText(1, "a", 4);
    assert t4 == " + 1 * a^4";
    assert TextUpTo(c, "a", 5) == s2 + t4;
    assert s2 + t4 == "-13 + 3 * a^1 + 1 * a^4";
  }

  // ---------------------------------------------------------------------
  // The conversions.

  /** A realalg field: a real number field with its integer defining
      polynomial, or any other object. */
  datatype RealalgField = RealNumberField(coefficients: seq<int>) | OtherField

  /** The arguments of the backend field constructor: polynomial text,
      generator name and embedding text. */
  datatype RenfRequest = RenfRequest(poly: string, name: string, embedding: string)

  /** A realalg element: an integral number, a text, a real algebraic number
      with its integer coefficients in the generator, or anything else,
      given by its str(). */
  datatype RealalgElement =
    | Integral(value: int)
    | Text(text: string)
    | RealAlgebraic(coefficients: seq<int>)
    | OtherElement(str: string)

  /** The data the backend builds an element from: an integer or a text. */
  datatype ElementData = IntData(value: int) | StrData(text: string)

  /**
   * A realalg field as a backend field request: refused with a ValueError
   * unless it is a real number field; otherwise its polynomial written in
   * `name`, the name, and `intervalText`, the ball text of the isolating
   * interval of the embedding.
   */
  method NfToEantic(k: RealalgField, name: string, intervalText: string) returns (r: Result<RenfRequest>)
    ensures k.OtherField? ==> r == Err(ValueError(""))
    ensures k.RealNumberField? && |k.coefficients| == 0 ==> r == Err(IndexError)
    ensures k.RealNumberField? && |k.coefficients| >= 1 ==>
              r == Ok(RenfRequest(PolyText(k.coefficients, name), name, intervalText))
  {
    if !k.RealNumberField? {
      return Err(ValueError(""));
    }
    var p := PolyString(k.coefficients, name);
    if p.Err? {
      return Err(p.error);
    }
    r := Ok(RenfRequest(p.value, name, intervalText));
  }

  /**
   * A realalg element as backend element data, for a field whose generator
   * is named `genName`: an integral value passes as an integer, a text
   * unchanged, a real algebraic number as its polynomial text in the
   * generator, and anything else as its str().
   */
  method NfElemToEantic(genName: string, elem: RealalgElement) returns (r: Result<ElementData>)
    ensures elem.Integral? ==> r == Ok(IntData(elem.value))
    ensures elem.Text? ==> r == Ok(StrData(elem.text))
    ensures elem.RealAlgebraic? && |elem.coefficients| == 0 ==> r == Err(IndexError)
    ensures elem.RealAlgebraic? && |elem.coefficients| >= 1 ==>
              r == Ok(StrData(PolyText(elem.coefficients, genName)))
    ensures elem.OtherElement? ==> r == Ok(StrData(elem.str))
  {
    match elem
    case Integral(n) =>
      r := Ok(IntData(n));
    case Text(s) =>
      r := Ok(StrData(s));
    case RealAlgebraic(coeffs) =>
      var p := PolyString(coeffs, genName);
      if p.Err? {
        return Err(p.error);
      }
      r := Ok(StrData(p.value));
    case OtherElement(s) =>
      r := Ok(StrData(s));
  }
}
