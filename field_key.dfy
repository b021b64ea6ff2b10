/**
 * The normalisation that makes real embedded number fields unique.
 *
 * A real embedded number field can be requested from a backend number field,
 * from a Sage number field with a real embedding, or from an embedding map of
 * a number field into the reals.  Every request is brought to one canonical
 * key: the defining polynomial written in the variable x, the generator named
 * a, and the exact real image of the generator.  Requests that differ only in
 * presentation therefore name the same field.
 *
 * The Sage objects are described by the facts the normalisation reads from
 * them (whether the reals coerce from the field, whether it is absolute, its
 * coercion embedding, the image of its generator).  Parsing a polynomial,
 * isolating its real roots and evaluating balls are Sage and Arb operations;
 * they are given by `SageOracles`.
 */
module FieldKeys {
  import opened Errors
  import opened PowerBasis
  import opened Descriptor
  import opened RootDisambiguation

  /** The domain of an embedding map, as far as the normalisation reads it:
      a number field is given by its defining polynomial, the name of its
      variable and whether it is absolute. */
  datatype Domain =
    | NumberFieldDomain(poly: seq<real>, variable: string, absolute: bool)
    | OtherDomain

  /** A map into the reals: its domain, whether the real algebraic numbers
      coerce from its codomain, and the image of the domain's generator. */
  datatype EmbeddingMap = EmbeddingMap(domain: Domain, codomainIntoAA: bool, genImage: real)

  /** A Sage number field: its defining polynomial and variable, whether the
      reals coerce from it, whether it is absolute, and its coercion
      embedding (None when it has none). */
  datatype NumberFieldData = NumberFieldData(
    poly: seq<real>,
    variable: string,
    realCoercion: bool,
    absolute: bool,
    coerceEmbedding: Option<EmbeddingMap>)

  /** What a field may be requested from; any other object is described by
      the text of its type. */
  datatype Embed =
    | RenfClass(repr: string)
    | NumberFieldInput(field: NumberFieldData)
    | MapInput(embedding: EmbeddingMap)
    | OtherInput(typeText: string)

  /** The canonical key: the polynomial in `variable`, the generator `name`,
      the exact image of the generator and the category. */
  datatype FieldKey = FieldKey(poly: seq<real>, variable: string, name: string, genImage: real, category: string)

  /** polynomial parsing QQ[name](text), real root isolation over the real
      algebraic numbers, and the balls of the printed ball text. */
  datatype SageOracles = SageOracles(
    parsePolynomial: (string, string) -> seq<real>,
    realRoots: seq<real> -> seq<real>,
    balls: string -> BallOracle)

  /** A Sage embedding map: a number field domain has a defining polynomial. */
  predicate WellFormedMap(m: EmbeddingMap)
  {
    m.domain.NumberFieldDomain? ==> ValidMinpoly(m.domain.poly)
  }

  /** A Sage number field: it has a defining polynomial, and its coercion
      embedding, when it has one, is a map out of the field itself. */
  predicate WellFormedField(nf: NumberFieldData)
  {
    ValidMinpoly(nf.poly) &&
    (nf.coerceEmbedding.Some? ==>
       nf.coerceEmbedding.value.domain == NumberFieldDomain(nf.poly, nf.variable, nf.absolute))
  }

  /** A request made of genuine objects: Sage fields and maps are well
      formed, and the printed minimal polynomial of a backend field parses to
      a polynomial of degree at least one. */
  predicate SageRequest(embed: Embed, o: SageOracles)
  {
    match embed
    case RenfClass(repr) =>
      (match ParseDescriptor(repr)
       case None => true
       case Some(parsed) =>
         match GeneratorName(parsed.minpoly)
         case None => true
         case Some(name) => ValidMinpoly(o.parsePolynomial(name, parsed.minpoly)))
    case NumberFieldInput(nf) => WellFormedField(nf)
    case MapInput(m) => WellFormedMap(m)
    case OtherInput(_) => true
  }

  const DefaultCategory: string := "Fields"
  const NoneTypeText: string := "<class 'NoneType'>"

  const UnexpectedPrint: Error := AssertionError("renf_class printed in an unexpected way")
  const UnexpectedLeading: Error := AssertionError("renf_class printed leading coefficient in an unexpected way")
  const NoRealEmbedding: Error := ValueError("number field must be endowed with an embedding into the reals")
  const NotAbsolute: Error := NotImplementedError("number field must be absolute")
  const DomainNotNumberField: Error := ValueError("domain must be a number field")
  const CodomainNotReal: Error := ValueError("codomain must coerce into RR")

  function TypeErrorFor(typeText: string): Error
  {
    TypeError("cannot build RealEmbeddedNumberField from " + typeText)
  }

  /** The Sage number field rebuilt from a backend field: the parsed minimal
      polynomial in the parsed generator name, embedded at the chosen root.
      The reals coerce from it, it is absolute, and its coercion embedding
      sends the generator to that root. */
  function FromRenf(repr: string, o: SageOracles): Result<NumberFieldData>
  {
    match ParseDescriptor(repr)
    case None => Err(UnexpectedPrint)
    case Some(parsed) =>
      match GeneratorName(parsed.minpoly)
      case None => Err(UnexpectedLeading)
      case Some(name) =>
        var poly := o.parsePolynomial(name, parsed.minpoly);
        match Resolve(o.realRoots(poly), o.balls(parsed.rootStr))
        case Err(e) => Err(e)
        case Ok(root) =>
          Ok(NumberFieldData(poly, name, true, true, Some(EmbeddingMap(NumberFieldDomain(poly, name, true), true, root))))
  }

  /** The checks on an embedding map and the key built from it. */
  function FromMap(m: EmbeddingMap, category: string): Result<FieldKey>
  {
    if m.domain.OtherDomain? then Err(DomainNotNumberField)
    else if !m.codomainIntoAA then Err(CodomainNotReal)
    else if !m.domain.absolute then Err(NotAbsolute)
    else Ok(FieldKey(m.domain.poly, "x", "a", m.genImage, category))
  }

  /** The checks on a number field; its coercion embedding then goes through
      the checks on maps (no embedding at all is a TypeError on None). */
  function FromNumberField(nf: NumberFieldData, category: string): Result<FieldKey>
  {
    if !nf.realCoercion then Err(NoRealEmbedding)
    else if !nf.absolute then Err(NotAbsolute)
    else
      match nf.coerceEmbedding
      case None => Err(TypeErrorFor(NoneTypeText))
      case Some(m) => FromMap(m, category)
  }

  /** The whole normalisation, in the order of the source: a backend field
      is turned into a Sage number field, a number field into its embedding
      and an embedding into the key. */
  function Normalize(embed: Embed, category: Option<string>, o: SageOracles): Result<FieldKey>
  {
    var cat := if category.Some? then category.value else DefaultCategory;
    match embed
    case RenfClass(repr) =>
      (match FromRenf(repr, o)
       case Err(e) => Err(e)
       case Ok(nf) => FromNumberField(nf, cat))
    case NumberFieldInput(nf) => FromNumberField(nf, cat)
    case MapInput(m) => FromMap(m, cat)
    case OtherInput(t) => Err(TypeErrorFor(t))
  }

  // ---------------------------------------------------------------------
  // The key.

  /** A key always names the variable x and the generator a, and takes the
      category given or the default.  Its polynomial and generator image are
      those of the embedding map the request comes down to: the map itself,
      the coercion embedding of a number field (for a well formed field,
      the field's own polynomial), or, for a backend field, the parsed
      minimal polynomial and the root the ladder picks. */
  lemma NormalizeKey(embed: Embed, category: Option<string>, o: SageOracles)
    requires Normalize(embed, category, o).Ok?
    ensures var k := Normalize(embed, category, o).value;
      k.variable == "x" && k.name == "a" &&
      k.category == (if category.Some? then category.value else DefaultCategory)
    ensures var k := Normalize(embed, category, o).value;
      embed.MapInput? ==> k.poly == embed.embedding.domain.poly && k.genImage == embed.embedding.genImage
    ensures var k := Normalize(embed, category, o).value;
      embed.NumberFieldInput? ==>
        k.poly == embed.field.coerceEmbedding.value.domain.poly &&
        k.genImage == embed.field.coerceEmbedding.value.genImage &&
        (WellFormedField(embed.field) ==> k.poly == embed.field.poly)
    ensures var k := Normalize(embed, category, o).value;
      embed.RenfClass? ==>
        var parsed := ParseDescriptor(embed.repr).value;
        var poly := o.parsePolynomial(GeneratorName(parsed.minpoly).value, parsed.minpoly);
        k.poly == poly && k.genImage == Resolve(o.realRoots(poly), o.balls(parsed.rootStr)).value
  {
  }

  /** The key of a genuine request has a defining polynomial, so the field
      made from it is a number field of degree at least one. */
  lemma NormalizeMinpoly(embed: Embed, category: Option<string>, o: SageOracles)
    requires Normalize(embed, category, o).Ok? && SageRequest(embed, o)
    ensures ValidMinpoly(Normalize(embed, category, o).value.poly)
  {
    NormalizeKey(embed, category, o);
  }

  /** The order of the checks on a number field: without a coercion into the
      reals it is a ValueError whether or not the field is absolute; a field
      with one that is not absolute is a NotImplementedError. */
  lemma NumberFieldChecks(nf: NumberFieldData, category: Option<string>, o: SageOracles)
    ensures !nf.realCoercion ==> Normalize(NumberFieldInput(nf), category, o) == Err(NoRealEmbedding)
    ensures nf.realCoercion && !nf.absolute ==> Normalize(NumberFieldInput(nf), category, o) == Err(NotAbsolute)
    ensures nf.realCoercion && nf.absolute && nf.coerceEmbedding.None? ==>
              Normalize(NumberFieldInput(nf), category, o) == Err(TypeErrorFor(NoneTypeText))
    ensures Normalize(NumberFieldInput(nf), category, o).Ok? <==>
              nf.realCoercion && nf.absolute && nf.coerceEmbedding.Some? &&
              Normalize(MapInput(nf.coerceEmbedding.value), category, o).Ok?
  {
  }

  /** The order of the checks on a map: a domain that is not a number field
      is a ValueError before the codomain is looked at, a codomain that does
      not coerce into the real algebraic numbers is a ValueError before
      absoluteness is looked at. */
  lemma MapChecks(m: EmbeddingMap, category: Option<string>, o: SageOracles)
    ensures m.domain.OtherDomain? ==> Normalize(MapInput(m), category, o) == Err(DomainNotNumberField)
    ensures m.domain.NumberFieldDomain? && !m.codomainIntoAA ==>
              Normalize(MapInput(m), category, o) == Err(CodomainNotReal)
    ensures m.domain.NumberFieldDomain? && m.codomainIntoAA && !m.domain.absolute ==>
              Normalize(MapInput(m), category, o) == Err(NotAbsolute)
    ensures Normalize(MapInput(m), category, o).Ok? <==>
              m.domain.NumberFieldDomain? && m.codomainIntoAA && m.domain.absolute
  {
  }

  /** Any other object is refused with a TypeError naming its type. */
  lemma OtherInputRefused(t: string, category: Option<string>, o: SageOracles)
    ensures Normalize(OtherInput(t), category, o) == Err(TypeErrorFor(t))
    ensures Normalize(OtherInput(t), category, o).error.TypeError?
  {
  }

  // ---------------------------------------------------------------------
  // Presentation independence.

  /** A number field and its coercion embedding give the same key. */
  lemma NumberFieldAsEmbedding(nf: NumberFieldData, category: Option<string>, o: SageOracles)
    requires nf.realCoercion && nf.absolute && nf.coerceEmbedding.Some?
    ensures Normalize(NumberFieldInput(nf), category, o) == Normalize(MapInput(nf.coerceEmbedding.value), category, o)
  {
  }

  /** A number field with its variable renamed; its coercion embedding is
      then a map out of the renamed field. */
  function Renamed(nf: NumberFieldData, variable: string): NumberFieldData
  {
    nf.(variable := variable,
        coerceEmbedding :=
          match nf.coerceEmbedding
          case None => None
          case Some(m) => Some(m.(domain := NumberFieldDomain(nf.poly, variable, nf.absolute))))
  }

  /** The key forgets the name of the variable (the key's polynomial is
      rewritten in x): renaming the variable of a number field, or of the
      domain of a map, does not change the key. */
  lemma KeyIgnoresNames(nf: NumberFieldData, variable: string, category: Option<string>, o: SageOracles)
    requires WellFormedField(nf)
    ensures WellFormedField(Renamed(nf, variable)) && Renamed(nf, variable).variable == variable
    ensures Normalize(NumberFieldInput(nf), category, o) == Normalize(NumberFieldInput(Renamed(nf, variable)), category, o)
  {
  }

  lemma MapIgnoresNames(m: EmbeddingMap, variable: string, category: Option<string>, o: SageOracles)
    requires m.domain.NumberFieldDomain?
    ensures Normalize(MapInput(m), category, o) ==
            Normalize(MapInput(m.(domain := m.domain.(variable := variable))), category, o)
  {
  }

  /** Two admitted maps give the same key exactly when their domains have
      the same defining polynomial and they send the generator to the same
      real number: the key identifies the embedded field. */
  lemma SameEmbeddingSameKey(m1: EmbeddingMap, m2: EmbeddingMap, category: Option<string>, o: SageOracles)
    requires Normalize(MapInput(m1), category, o).Ok? && Normalize(MapInput(m2), category, o).Ok?
    ensures Normalize(MapInput(m1), category, o) == Normalize(MapInput(m2), category, o) <==>
            m1.domain.poly == m2.domain.poly && m1.genImage == m2.genImage
  {
  }

  /** A backend field whose printed form parses, and whose printed balls are
      sound for the real root t of its polynomial, either cannot be
      disambiguated (a RuntimeError) or names exactly the field given by the
      embedding of that polynomial at t. */
  lemma RenfKey(repr: string, category: Option<string>, o: SageOracles, t: real)
    requires ParseDescriptor(repr).Some?
    requires GeneratorName(ParseDescriptor(repr).value.minpoly).Some?
    requires var parsed := ParseDescriptor(repr).value;
      var poly := o.parsePolynomial(GeneratorName(parsed.minpoly).value, parsed.minpoly);
      t in o.realRoots(poly) &&
      forall j | 0 <= j < |Precisions| :: SoundAt(o.balls(parsed.rootStr), Precisions[j], t)
    ensures var parsed := ParseDescriptor(repr).value;
      var poly := o.parsePolynomial(GeneratorName(parsed.minpoly).value, parsed.minpoly);
      Normalize(RenfClass(repr), category, o) == Err(Undecided) ||
      Normalize(RenfClass(repr), category, o) ==
        Normalize(MapInput(EmbeddingMap(NumberFieldDomain(poly, GeneratorName(parsed.minpoly).value, true), true, t)), category, o)
  {
    var parsed := ParseDescriptor(repr).value;
    var poly := o.parsePolynomial(GeneratorName(parsed.minpoly).value, parsed.minpoly);
    var roots := o.realRoots(poly);
    var balls := o.balls(parsed.rootStr);
    ResolveErr(roots, balls);
    if Resolve(roots, balls).Ok? {
      ResolveSound(roots, balls, t);
    }
  }

  /** Oracles for the field defined by 2x - 3: its one real root 3/2, a
      printed ball of radius 1/8 around it and exact balls for the roots. */
  const ExampleOracles: SageOracles := SageOracles(
    (name, text) => [-3.0, 2.0],
    poly => [1.5],
    text => BallOracle(prec => Ball(1.5, 0.125), (prec, x) => Ball(x, 0.0)))

  /** The printed form "NumberField(2*a - 3, [1.5 +/- 0.125])". */
  const ExampleMinpoly: string := "2*a - 3"
  const ExampleBall: string := "1.5 +/- 0.125"
  const ExampleRepr: string := Render(ExampleMinpoly, ExampleBall, ")")

  lemma ExampleParse()
    ensures ParseDescriptor(ExampleRepr) == Some(Parsed(ExampleMinpoly, "[" + ExampleBall + "]"))
  {
    var minpoly := ExampleMinpoly;
    var ball := ExampleBall;
    assert ',' !in minpoly;
    assert ']' !in ball;
    ParseComplete(minpoly, ball, ")");
  }

  /** The leading coefficient and its star are skipped. */
  lemma ExampleGeneratorName()
    ensures GeneratorName(ExampleMinpoly) == Some("a")
  {
    var minpoly := ExampleMinpoly;
    assert LeadingDigits(minpoly) == 1 by {
      assert LeadingDigits(minpoly[1..]) == 0;
    }
    RunEndUnique(minpoly, 2, 3);
    assert GroupAt(minpoly, 2) == Some(minpoly[2..3]);
    assert minpoly[2..3] == "a";
    assert Attempt(minpoly, 1) == Some("a");
  }

  /** A backend field printed with a leading coefficient, "2*a - 3" with a
      ball around 3/2, names the same field as a Sage number field in b with
      defining polynomial 2x - 3 embedded at 3/2. */
  lemma RenfExample()
    ensures Normalize(RenfClass(ExampleRepr), None, ExampleOracles) ==
            Normalize(NumberFieldInput(NumberFieldData([-3.0, 2.0], "b", true, true,
              Some(EmbeddingMap(NumberFieldDomain([-3.0, 2.0], "b", true), true, 1.5)))), None, ExampleOracles) ==
            Ok(FieldKey([-3.0, 2.0], "x", "a", 1.5, DefaultCategory))
  {
    ExampleParse();
    ExampleGeneratorName();
    var balls := ExampleOracles.balls("[" + ExampleBall + "]");
    assert ExampleOracles.realRoots([-3.0, 2.0]) == [1.5];
    ResolveSeparated([1.5], balls, 1.5);
  }

  /** Oracles for the fields of the documentation, x^2 - 2 embedded at its
      positive root r: the backend's "a^2 - 2" parses to x^2 - 2, whose real
      roots are -r and r, and the printed ball is [1.4 +/- 0.1], the ball the
      backend field is made from; the balls of exact roots are exact. */
  function DocumentedOracles(r: real): SageOracles
  {
    SageOracles(
      (name, text) => SquareTwo,
      poly => [-r, r],
      text => BallOracle(prec => Ball(1.4, 0.1), (prec, x) => Ball(x, 0.0)))
  }

  const SquareTwo: seq<real> := [-2.0, 0.0, 1.0]
  const DocumentedMinpoly: string := "a^2 - 2"
  const DocumentedBall: string := "1.4 +/- 0.1"

  /** The positive square root of 2 lies in the printed ball 1.4 +/- 0.1. */
  lemma SquareTwoRoot(r: real)
    requires r > 0.0 && r * r == 2.0
    ensures 1.3 <= r <= 1.5
  {
  }

  /** The documented K, L and M: the Sage field x^2 - 2 in a embedded at
      sqrt(2), the second real embedding of the same field without an
      embedding, and the backend field "a^2 - 2" made with the ball
      1.4 +/- 0.1 all normalise to the same key, so `K is L` and `K is M`. */
  lemma DocumentedExample(r: real)
    requires r > 0.0 && r * r == 2.0
    ensures var o := DocumentedOracles(r);
      var domain := NumberFieldDomain(SquareTwo, "a", true);
      var k := NumberFieldInput(NumberFieldData(SquareTwo, "a", true, true, Some(EmbeddingMap(domain, true, r))));
      var l := MapInput(EmbeddingMap(domain, true, r));
      var m := RenfClass(Render(DocumentedMinpoly, DocumentedBall, ")"));
      Normalize(k, None, o) == Normalize(l, None, o) == Normalize(m, None, o) ==
        Ok(FieldKey(SquareTwo, "x", "a", r, DefaultCategory))
  {
    DocumentedResolve(r);
    ParseComplete(DocumentedMinpoly, DocumentedBall, ")") by {
      assert ',' !in DocumentedMinpoly;
      assert ']' !in DocumentedBall;
    }
    GeneratorNameMonic();
  }

  /** The ladder picks the positive root at its first precision. */
  lemma DocumentedResolve(r: real)
    requires r > 0.0 && r * r == 2.0
    ensures Resolve([-r, r], DocumentedOracles(r).balls("[" + DocumentedBall + "]")) == Ok(r)
  {
    var balls := DocumentedOracles(r).balls("[" + DocumentedBall + "]");
    SquareTwoRoot(r);
    forall x | x in [-r, r] && x != r
      ensures !Overlaps(balls.of(53, x), balls.printed(53))
    {
      assert x == -r;
    }
    ResolveSeparated([-r, r], balls, r);
  }
}
