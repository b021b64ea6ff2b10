/**
 * Reading a backend number field back from its printed form.
 *
 * A backend number field prints as "NumberField(<minpoly>, [<ball>])".  The
 * printed form is split with the pattern
 *   ^NumberField\(([^,]+), (\[[^\]]+\])\)$
 * and the name of the generator is read off the minimal polynomial with
 *   ^\d*\*?([^\^ *]+)[\^ ]
 * which skips a leading integer coefficient and an optional '*'.  Both
 * are modelled with the matching semantics of Python's `re.match`: the
 * match is anchored at the start, `$` also matches just before a final
 * newline, and quantifiers are greedy with backtracking.
 */
module Descriptor {
  import opened Errors

  const Prefix: string := "NumberField("

  /** The two groups of the first pattern: the minimal polynomial and the
      ball around the embedding, brackets included. */
  datatype Parsed = Parsed(minpoly: string, rootStr: string)

  /** The index of the first occurrence of c in s at or after i, or |s|
      (`FindFromSpec` and `FindFromFirst` say so). */
  function FindFrom(s: string, c: char, i: nat): (j: nat)
    requires i <= |s|
    ensures i <= j <= |s|
    decreases |s| - i
  {
    if i == |s| || s[i] == c then i else FindFrom(s, c, i + 1)
  }

  lemma {:induction false} FindFromSpec(s: string, c: char, i: nat)
    requires i <= |s|
    ensures forall k | i <= k < FindFrom(s, c, i) :: s[k] != c
    ensures FindFrom(s, c, i) < |s| ==> s[FindFrom(s, c, i)] == c
    decreases |s| - i
  {
    if i < |s| && s[i] != c {
      FindFromSpec(s, c, i + 1);
    }
  }

  /** Any first occurrence at or after i is the one found. */
  lemma {:induction false} FindFromFirst(s: string, c: char, i: nat, j: nat)
    requires i <= j < |s| && s[j] == c
    requires forall k | i <= k < j :: s[k] != c
    ensures FindFrom(s, c, i) == j
    decreases j - i
  {
    if i < j {
      FindFromFirst(s, c, i + 1, j);
    }
  }

  /** What may follow the ball: the closing parenthesis, then the end of the
      text or a final newline (Python's `$`). */
  predicate IsTail(t: string)
  {
    t == ")" || t == ")\n"
  }

  /** The tail read in place: a closing parenthesis at i that ends the text
      or is followed by a final newline. */
  predicate TailAt(s: string, i: nat)
  {
    i < |s| && s[i] == ')' && (|s| == i + 1 || (|s| == i + 2 && s[i + 1] == '\n'))
  }

  lemma TailAtIsTail(s: string, i: nat)
    requires i <= |s|
    ensures TailAt(s, i) <==> IsTail(s[i..])
  {
    var t := s[i..];
    if |t| == 1 {
      assert t == [s[i]];
    } else if |t| == 2 {
      assert t == [s[i], s[i + 1]];
    }
  }

  /** The first pattern.  `[^,]+` can only end at the first comma and
      `[^\]]+` only at the first closing bracket, so backtracking never
      finds a second way to match. */
  function ParseDescriptor(s: string): Option<Parsed>
  {
    if !(Prefix <= s) then None
    else
      var comma := FindFrom(s, ',', |Prefix|);
      if comma == |Prefix| || |s| < comma + 3 || s[comma + 1] != ' ' || s[comma + 2] != '[' then None
      else
        var close := FindFrom(s, ']', comma + 3);
        if close == comma + 3 || !TailAt(s, close + 1) then None
        else Some(Parsed(s[|Prefix|..comma], s[comma + 2..close + 1]))
  }

  /** The parts the first pattern accepts: a non-empty polynomial without
      commas and a non-empty ball text without closing brackets. */
  predicate ValidParts(minpoly: string, ball: string)
  {
    |minpoly| >= 1 && ',' !in minpoly && |ball| >= 1 && ']' !in ball
  }

  function Render(minpoly: string, ball: string, tail: string): string
  {
    Prefix + minpoly + ", [" + ball + "]" + tail
  }

  /** A slice of s is t when s carries t character by character from i on. */
  lemma SliceIs(s: string, i: nat, t: string)
    requires i + |t| <= |s|
    requires forall k | 0 <= k < |t| :: s[i + k] == t[k]
    ensures s[i..i + |t|] == t
  {
    forall k | 0 <= k < |t|
      ensures s[i..i + |t|][k] == t[k]
    {
      assert s[i..i + |t|][k] == s[i + k];
    }
  }

  /** The first pattern matches any text that has the prefix, a non-empty
      run without commas, ", [", a non-empty run without closing brackets,
      a closing bracket and a tail. */
  lemma ParseShape(s: string, comma: nat, close: nat)
    requires |Prefix| < comma && comma + 3 < close < |s| && Prefix <= s
    requires s[comma] == ',' && s[comma + 1] == ' ' && s[comma + 2] == '[' && s[close] == ']'
    requires ',' !in s[|Prefix|..comma] && ']' !in s[comma + 3..close]
    requires TailAt(s, close + 1)
    ensures ParseDescriptor(s) == Some(Parsed(s[|Prefix|..comma], s[comma + 2..close + 1]))
  {
    var n := |Prefix|;
    forall k | n <= k < comma
      ensures s[k] != ','
    {
      var w := s[n..comma];
      assert w[k - n] == s[k];
      assert w[k - n] in w;
    }
    forall k | comma + 3 <= k < close
      ensures s[k] != ']'
    {
      var w := s[comma + 3..close];
      assert w[k - comma - 3] == s[k];
      assert w[k - comma - 3] in w;
    }
    FindFromFirst(s, ',', n, comma);
    FindFromFirst(s, ']', comma + 3, close);
  }

  lemma SliceLeft(a: string, b: string, i: nat, j: nat)
    requires i <= j <= |a|
    ensures (a + b)[i..j] == a[i..j]
  {
    SliceIs(a + b, i, a[i..j]);
  }

  lemma SliceRight(a: string, b: string, i: nat, j: nat)
    requires |a| <= i <= j <= |a| + |b|
    ensures (a + b)[i..j] == b[i - |a|..j - |a|]
  {
    SliceIs(a + b, i, b[i - |a|..j - |a|]);
  }

  lemma SliceAcross(a: string, b: string, i: nat, j: nat)
    requires i <= |a| <= j <= |a| + |b|
    ensures (a + b)[i..j] == a[i..] + b[..j - |a|]
  {
    SliceIs(a + b, i, a[i..] + b[..j - |a|]);
  }

  /** The pieces of a printed form, slice by slice. */
  lemma RenderSlices(minpoly: string, ball: string, tail: string)
    ensures var s := Render(minpoly, ball, tail);
      var n := |Prefix|;
      var comma := n + |minpoly|;
      var close := comma + 3 + |ball|;
      |s| == close + 1 + |tail| &&
      s[..n] == Prefix && s[n..comma] == minpoly && s[comma..comma + 3] == ", [" &&
      s[comma + 3..close] == ball && s[close] == ']' && s[close + 1..] == tail &&
      s[comma + 2..close + 1] == "[" + ball + "]"
  {
    var n := |Prefix|;
    var comma := n + |minpoly|;
    var close := comma + 3 + |ball|;
    var d := Prefix + minpoly;
    var c := d + ", [";
    var b := c + ball;
    var a := b + "]";
    var s := a + tail;
    assert s == Render(minpoly, ball, tail);
    SliceLeft(a, tail, 0, n);
    SliceLeft(b, "]", 0, n);
    SliceLeft(c, ball, 0, n);
    SliceLeft(d, ", [", 0, n);
    SliceLeft(Prefix, minpoly, 0, n);
    assert Prefix[0..n] == Prefix;
    SliceLeft(a, tail, n, comma);
    SliceLeft(b, "]", n, comma);
    SliceLeft(c, ball, n, comma);
    SliceLeft(d, ", [", n, comma);
    SliceRight(Prefix, minpoly, n, comma);
    assert minpoly[0..|minpoly|] == minpoly;
    SliceLeft(a, tail, comma, comma + 3);
    SliceLeft(b, "]", comma, comma + 3);
    SliceLeft(c, ball, comma, comma + 3);
    SliceRight(d, ", [", comma, comma + 3);
    assert ", ["[0..3] == ", [";
    SliceLeft(a, tail, comma + 3, close);
    SliceLeft(b, "]", comma + 3, close);
    SliceRight(c, ball, comma + 3, close);
    assert ball[0..|ball|] == ball;
    assert s[close] == a[close] == ']';
    SliceRight(a, tail, close + 1, |s|);
    assert tail[0..|tail|] == tail;
    SliceLeft(a, tail, comma + 2, close + 1);
    SliceAcross(b, "]", comma + 2, close + 1);
    SliceAcross(c, ball, comma + 2, |b|);
    SliceRight(d, ", [", comma + 2, comma + 3);
    assert c[comma + 2..] == c[comma + 2..comma + 3];
    assert ", ["[2..3] == "[";
    assert b[comma + 2..] == b[comma + 2..|b|];
    assert ball[..|ball|] == ball;
    assert "]"[..1] == "]";
  }

  /** A printed form of the expected shape has the shape `ParseShape`
      asks for. */
  lemma RenderShape(minpoly: string, ball: string, tail: string)
    requires ValidParts(minpoly, ball) && IsTail(tail)
    ensures var s := Render(minpoly, ball, tail);
      var comma := |Prefix| + |minpoly|;
      var close := comma + 3 + |ball|;
      |Prefix| < comma && comma + 3 < close < |s| && Prefix <= s &&
      s[comma] == ',' && s[comma + 1] == ' ' && s[comma + 2] == '[' && s[close] == ']' &&
      ',' !in s[|Prefix|..comma] && ']' !in s[comma + 3..close] &&
      TailAt(s, close + 1) &&
      s[|Prefix|..comma] == minpoly && s[comma + 2..close + 1] == "[" + ball + "]"
  {
    var s := Render(minpoly, ball, tail);
    var n := |Prefix|;
    var comma := n + |minpoly|;
    var close := comma + 3 + |ball|;
    RenderSlices(minpoly, ball, tail);
    assert Prefix <= s by {
      assert s[..n] == Prefix;
    }
    assert s[comma] == s[comma..comma + 3][0];
    assert s[comma + 1] == s[comma..comma + 3][1];
    assert s[comma + 2] == s[comma..comma + 3][2];
    TailAtIsTail(s, close + 1);
  }

  /** Every printed form of the expected shape is recognised, with the
      polynomial and the bracketed ball as its groups. */
  lemma ParseComplete(minpoly: string, ball: string, tail: string)
    requires ValidParts(minpoly, ball) && IsTail(tail)
    ensures ParseDescriptor(Render(minpoly, ball, tail)) == Some(Parsed(minpoly, "[" + ball + "]"))
  {
    var comma := |Prefix| + |minpoly|;
    RenderShape(minpoly, ball, tail);
    ParseShape(Render(minpoly, ball, tail), comma, comma + 3 + |ball|);
  }

  lemma AgreeOn(x: string, y: string, i: nat, j: nat)
    requires i <= j <= |x| && j <= |y| && x[i..j] == y[i..j]
    ensures forall k | i <= k < j :: x[k] == y[k]
  {
    forall k | i <= k < j
      ensures x[k] == y[k]
    {
      assert x[k] == x[i..j][k - i] == y[i..j][k - i] == y[k];
    }
  }

  /** A text that agrees with a printed form slice by slice is that
      printed form. */
  lemma RenderFrom(s: string, comma: nat, close: nat)
    requires |Prefix| <= comma && comma + 3 <= close < |s|
    requires s[..|Prefix|] == Prefix && s[comma..comma + 3] == ", [" && s[close] == ']'
    ensures s == Render(s[|Prefix|..comma], s[comma + 3..close], s[close + 1..])
  {
    var n := |Prefix|;
    var minpoly := s[n..comma];
    var ball := s[comma + 3..close];
    var tail := s[close + 1..];
    var t := Render(minpoly, ball, tail);
    RenderSlices(minpoly, ball, tail);
    AgreeOn(s, t, 0, n);
    AgreeOn(s, t, n, comma);
    AgreeOn(s, t, comma, comma + 3);
    AgreeOn(s, t, comma + 3, close);
    AgreeOn(s, t, close + 1, |s|);
    forall k | 0 <= k < |s|
      ensures s[k] == t[k]
    {
      if k < n {
      } else if k < comma {
      } else if k < comma + 3 {
      } else if k < close {
      } else if k == close {
      } else {
      }
    }
  }

  // What a successful match of the first pattern tells about the text,
  // one stage of the pattern at a time.

  lemma ParsePrefix(s: string)
    requires ParseDescriptor(s).Some?
    ensures |Prefix| <= |s| && s[..|Prefix|] == Prefix
  {
  }

  lemma ParseSeparator(s: string)
    requires ParseDescriptor(s).Some? && Prefix <= s
    ensures var comma := FindFrom(s, ',', |Prefix|);
      |Prefix| < comma && comma + 3 <= |s| && s[comma + 1] == ' ' && s[comma + 2] == '['
  {
  }

  lemma ParseClose(s: string)
    requires ParseDescriptor(s).Some? && Prefix <= s
    requires var comma := FindFrom(s, ',', |Prefix|);
      |Prefix| < comma && comma + 3 <= |s| && s[comma + 1] == ' ' && s[comma + 2] == '['
    ensures var comma := FindFrom(s, ',', |Prefix|);
      var close := FindFrom(s, ']', comma + 3);
      comma + 3 < close && TailAt(s, close + 1)
  {
  }

  lemma ParseGroups(s: string)
    requires ParseDescriptor(s).Some? && Prefix <= s
    requires var comma := FindFrom(s, ',', |Prefix|);
      var close := FindFrom(s, ']', comma + 3);
      |Prefix| < comma && comma + 3 < close && close + 1 < |s| &&
      s[comma + 1] == ' ' && s[comma + 2] == '[' && TailAt(s, close + 1)
    ensures var comma := FindFrom(s, ',', |Prefix|);
      var close := FindFrom(s, ']', comma + 3);
      ParseDescriptor(s).value == Parsed(s[|Prefix|..comma], s[comma + 2..close + 1])
  {
  }

  /** The groups r rebuild the text s: the ball group is a bracketed ball,
      both parts have the shape the pattern admits, and s is the printed
      form of the two, ended by either tail. */
  predicate Rebuilds(r: Parsed, s: string)
  {
    |r.rootStr| >= 3 && r.rootStr[0] == '[' && r.rootStr[|r.rootStr| - 1] == ']' &&
    ValidParts(r.minpoly, r.rootStr[1..|r.rootStr| - 1]) &&
    (s == Render(r.minpoly, r.rootStr[1..|r.rootStr| - 1], ")") ||
     s == Render(r.minpoly, r.rootStr[1..|r.rootStr| - 1], ")\n"))
  }

  /** The converse of `ParseShape`: a text of that shape is the printed form
      rebuilt from its groups. */
  lemma ShapeRender(s: string, comma: nat, close: nat)
    requires |Prefix| < comma && comma + 3 < close < |s|
    requires s[..|Prefix|] == Prefix
    requires s[comma] == ',' && s[comma + 1] == ' ' && s[comma + 2] == '[' && s[close] == ']'
    requires forall k | |Prefix| <= k < comma :: s[k] != ','
    requires forall k | comma + 3 <= k < close :: s[k] != ']'
    requires IsTail(s[close + 1..])
    ensures Rebuilds(Parsed(s[|Prefix|..comma], s[comma + 2..close + 1]), s)
  {
    var n := |Prefix|;
    var minpoly := s[n..comma];
    var ball := s[comma + 3..close];
    var rootStr := s[comma + 2..close + 1];
    assert rootStr[0] == s[comma + 2];
    assert rootStr[|rootStr| - 1] == s[close];
    forall k | 0 <= k < |ball|
      ensures rootStr[1 + k] == ball[k]
    {
      assert rootStr[1 + k] == s[comma + 3 + k];
    }
    SliceIs(rootStr, 1, ball);
    assert ',' !in minpoly by {
      forall k | 0 <= k < |minpoly|
        ensures minpoly[k] != ','
      {
        assert minpoly[k] == s[n + k];
      }
    }
    assert ']' !in ball by {
      forall k | 0 <= k < |ball|
        ensures ball[k] != ']'
      {
        assert ball[k] == s[comma + 3 + k];
      }
    }
    SliceIs(s, comma, ", [");
    RenderFrom(s, comma, close);
  }

  /** The comma and the closing bracket a successful match ends its groups
      at, with what the match guarantees about the text around them. */
  lemma ParseParts(s: string) returns (comma: nat, close: nat)
    requires ParseDescriptor(s).Some?
    ensures |Prefix| < comma && comma + 3 < close < |s|
    ensures s[..|Prefix|] == Prefix
    ensures s[comma] == ',' && s[comma + 1] == ' ' && s[comma + 2] == '[' && s[close] == ']'
    ensures forall k | |Prefix| <= k < comma :: s[k] != ','
    ensures forall k | comma + 3 <= k < close :: s[k] != ']'
    ensures IsTail(s[close + 1..])
    ensures ParseDescriptor(s).value == Parsed(s[|Prefix|..comma], s[comma + 2..close + 1])
  {
    var n := |Prefix|;
    ParsePrefix(s);
    ParseSeparator(s);
    comma := FindFrom(s, ',', n);
    ParseClose(s);
    close := FindFrom(s, ']', comma + 3);
    ParseGroups(s);
    FindFromSpec(s, ',', n);
    FindFromSpec(s, ']', comma + 3);
    TailAtIsTail(s, close + 1);
  }

  /** Only printed forms of the expected shape are recognised: the text is
      rebuilt from its two groups. */
  lemma ParseSound(s: string)
    requires ParseDescriptor(s).Some?
    ensures Rebuilds(ParseDescriptor(s).value, s)
  {
    var comma, close := ParseParts(s);
    ShapeRender(s, comma, close);
  }

  // ---------------------------------------------------------------------
  // The generator name: ^\d*\*?([^\^ *]+)[\^ ]

  predicate IsDigit(c: char)
  {
    '0' <= c <= '9'
  }

  /** The characters `[^\^ *]` admits. */
  predicate InName(c: char)
  {
    c != '^' && c != ' ' && c != '*'
  }

  /** The characters `[\^ ]` admits. */
  predicate IsSeparator(c: char)
  {
    c == '^' || c == ' '
  }

  /** The length of the longest run of digits that s starts with. */
  function LeadingDigits(s: string): (n: nat)
    ensures n <= |s|
    ensures forall k | 0 <= k < n :: IsDigit(s[k])
    ensures n == |s| || !IsDigit(s[n])
  {
    if |s| > 0 && IsDigit(s[0]) then 1 + LeadingDigits(s[1..]) else 0
  }

  /** The end of the longest run of name characters that starts at st. */
  function RunEnd(s: string, st: nat): (e: nat)
    requires st <= |s|
    ensures st <= e <= |s|
    ensures forall k | st <= k < e :: InName(s[k])
    ensures e == |s| || !InName(s[e])
    decreases |s| - st
  {
    if st < |s| && InName(s[st]) then RunEnd(s, st + 1) else st
  }

  /** `([^\^ *]+)[\^ ]` at position st: the greedy run, which must be
      followed by a separator (a shorter run is followed by a name
      character, so backtracking into the run cannot succeed). */
  function GroupAt(s: string, st: nat): Option<string>
    requires st <= |s|
  {
    var e := RunEnd(s, st);
    if st < e < |s| && IsSeparator(s[e]) then Some(s[st..e]) else None
  }

  /** The rest of the pattern after exactly n leading digits: `\*?` first
      tries to take a star, then tries without one. */
  function Attempt(s: string, n: nat): Option<string>
    requires n <= |s|
  {
    var withStar := if n < |s| && s[n] == '*' then GroupAt(s, n + 1) else None;
    if withStar.Some? then withStar else GroupAt(s, n)
  }

  /** `\d*` is greedy: the attempts go from n leading digits down to none. */
  function TryDigits(s: string, n: nat): Option<string>
    requires n <= LeadingDigits(s)
  {
    var attempt := Attempt(s, n);
    if attempt.Some? || n == 0 then attempt else TryDigits(s, n - 1)
  }

  /** The first group of the second pattern, or None when it does not match. */
  function GeneratorName(minpoly: string): Option<string>
  {
    TryDigits(minpoly, LeadingDigits(minpoly))
  }

  /** name is a run of name characters at st, followed by a separator. */
  predicate NameAt(s: string, st: nat, name: string)
  {
    |name| >= 1 && st + |name| < |s| && s[st..st + |name|] == name &&
    (forall k | 0 <= k < |name| :: InName(name[k])) && IsSeparator(s[st + |name|])
  }

  /** The second pattern matches s with n digits, a star or not, and name as
      its group. */
  predicate MatchesWith(s: string, n: nat, star: bool, name: string)
  {
    n <= |s| && (forall k | 0 <= k < n :: IsDigit(s[k])) &&
    (star ==> n < |s| && s[n] == '*') &&
    NameAt(s, if star then n + 1 else n, name)
  }

  lemma {:induction false} RunEndUnique(s: string, st: nat, e: nat)
    requires st <= e <= |s|
    requires forall k | st <= k < e :: InName(s[k])
    requires e == |s| || !InName(s[e])
    ensures RunEnd(s, st) == e
    decreases e - st
  {
    if st < e {
      RunEndUnique(s, st + 1, e);
    }
  }

  lemma GroupAtSound(s: string, st: nat)
    requires st <= |s| && GroupAt(s, st).Some?
    ensures NameAt(s, st, GroupAt(s, st).value)
  {
    var e := RunEnd(s, st);
    var name := s[st..e];
    forall k | 0 <= k < |name|
      ensures InName(name[k])
    {
      assert name[k] == s[st + k];
    }
  }

  lemma GroupAtComplete(s: string, st: nat, name: string)
    requires st <= |s| && NameAt(s, st, name)
    ensures GroupAt(s, st) == Some(name)
  {
    var e := st + |name|;
    forall k | st <= k < e
      ensures InName(s[k])
    {
      assert s[k] == name[k - st];
    }
    RunEndUnique(s, st, e);
  }

  /** An attempt that succeeds is a match with n digits, starred exactly when
      a star follows the digits. */
  lemma AttemptSound(s: string, n: nat)
    requires n <= LeadingDigits(s) && Attempt(s, n).Some?
    ensures MatchesWith(s, n, n < |s| && s[n] == '*', Attempt(s, n).value)
  {
    if n < |s| && s[n] == '*' {
      assert RunEnd(s, n) == n;
      GroupAtSound(s, n + 1);
    } else {
      GroupAtSound(s, n);
    }
  }

  /** Every match with n digits is found by the attempt at n. */
  lemma AttemptComplete(s: string, n: nat, star: bool, name: string)
    requires MatchesWith(s, n, star, name)
    ensures Attempt(s, n) == Some(name)
  {
    if star {
      GroupAtComplete(s, n + 1, name);
    } else {
      GroupAtComplete(s, n, name);
      assert name[0] == s[n];
    }
  }

  /** A match uses no more digits than s starts with. */
  lemma MatchDigits(s: string, n: nat, star: bool, name: string)
    requires MatchesWith(s, n, star, name)
    ensures n <= LeadingDigits(s)
  {
  }

  lemma {:induction false} TryDigitsSound(s: string, n: nat)
    requires n <= LeadingDigits(s) && TryDigits(s, n).Some?
    ensures exists k | 0 <= k <= n :: Attempt(s, k) == TryDigits(s, n) &&
              forall m | k < m <= n :: Attempt(s, m).None?
  {
    if Attempt(s, n).None? {
      TryDigitsSound(s, n - 1);
      var k :| 0 <= k <= n - 1 && Attempt(s, k) == TryDigits(s, n - 1) &&
                forall m | k < m <= n - 1 :: Attempt(s, m).None?;
      assert forall m | k < m <= n :: Attempt(s, m).None?;
    } else {
      assert Attempt(s, n) == TryDigits(s, n);
    }
  }

  lemma {:induction false} TryDigitsComplete(s: string, n: nat, k: nat)
    requires k <= n <= LeadingDigits(s) && Attempt(s, k).Some?
    ensures TryDigits(s, n).Some?
  {
    if n > k && Attempt(s, n).None? {
      TryDigitsComplete(s, n - 1, k);
    }
  }

  /** A generator name read off the polynomial is the group of a match,
      and that match takes the longest digit prefix any match can take. */
  lemma GeneratorNameSound(s: string)
    requires GeneratorName(s).Some?
    ensures exists n: nat, star: bool :: MatchesWith(s, n, star, GeneratorName(s).value) &&
              forall m: nat, star': bool, name': string | n < m :: !MatchesWith(s, m, star', name')
  {
    var d := LeadingDigits(s);
    TryDigitsSound(s, d);
    var k :| 0 <= k <= d && Attempt(s, k) == TryDigits(s, d) &&
              forall m | k < m <= d :: Attempt(s, m).None?;
    AttemptSound(s, k);
    var star := k < |s| && s[k] == '*';
    forall m: nat, star': bool, name': string | k < m
      ensures !MatchesWith(s, m, star', name')
    {
      if MatchesWith(s, m, star', name') {
        MatchDigits(s, m, star', name');
        AttemptComplete(s, m, star', name');
      }
    }
    assert MatchesWith(s, k, star, GeneratorName(s).value);
  }

  /** Whenever the pattern can match, a generator name is found. */
  lemma GeneratorNameComplete(s: string, n: nat, star: bool, name: string)
    requires MatchesWith(s, n, star, name)
    ensures GeneratorName(s).Some?
  {
    MatchDigits(s, n, star, name);
    AttemptComplete(s, n, star, name);
    TryDigitsComplete(s, LeadingDigits(s), n);
  }

  /** A monic polynomial printed by the backend names its variable. */
  lemma GeneratorNameMonic()
    ensures GeneratorName("a^2 - 2") == Some("a")
  {
    var s := "a^2 - 2";
    assert LeadingDigits(s) == 0;
    RunEndUnique(s, 0, 1);
    assert GroupAt(s, 0) == Some(s[0..1]);
    assert s[0..1] == "a";
  }

  /** A leading coefficient and its star are skipped. */
  lemma GeneratorNameLeadingCoefficient()
    ensures GeneratorName("12*b^3 - b + 1") == Some("b")
  {
    var s := "12*b^3 - b + 1";
    assert LeadingDigits(s) == 2 by {
      assert LeadingDigits(s[1..]) == 1 by {
        assert s[1..][1..] == s[2..];
      }
    }
    RunEndUnique(s, 3, 4);
    assert GroupAt(s, 3) == Some(s[3..4]);
    assert s[3..4] == "b";
    assert Attempt(s, 2) == Some("b");
  }
}
