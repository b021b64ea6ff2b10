# pyeantic core, modelled in Dafny

pyeantic wraps the e-antic library of real embedded number fields for
SageMath. This project models the exact, sequential logic underneath the
bindings and proves properties of it:

- **the element codec**:
  - a Sage number field element becomes a backend element through the
    `gen_pow` loop;
  - a backend element comes back by dividing its numerator vector by its
    denominator and padding with zeros;
  - pickling an element composes the two;
- **the parsing of a backend field's printed form**: the printed form
  `NumberField(<minpoly>, [<ball>])` is split, and the generator name is read
  off the polynomial. Both follow the matching rules of Python's `re.match`;
- **the root disambiguation**: a precision ladder of 53, 64, 128 and 256 bits
  picks the real root of the minimal polynomial whose ball overlaps the
  printed ball;
- **the normalisation of a field request**: a backend field, a Sage number
  field or an embedding map becomes a canonical key. The checks run in the
  source's order with its exceptions. A registry returns one field object per
  key;
- **the `poly_string` serialiser** and the realalg field and element
  conversions that use it.

Modules, one per concern:

- `Errors`: `Option`, `Result` and the Python exceptions raised.
- `PowerBasis`: elements as coefficient vectors in the power basis of the
  generator. Dafny's `real` stands for the rationals. Multiplication by the
  generator is shift-and-reduce by the defining polynomial. `Value` evaluates
  a vector at a real number.
- `ElementCodec`: the encode loop, the decode loop and their round trip.
- `Descriptor`: the two regular expressions.
- `RootDisambiguation`: the precision ladder over exact balls (center, radius).
- `FieldKeys`: the normalisation performed by `__classcall__`.
- `NumberFields`:
  - the classes `RealEmbeddedNumberField` and `Element` (its parent and its
    backend element);
  - `Registry`, standing in for the unique-representation cache.
- `RealalgConversion`: `poly_string`, `realalg_nf_to_eantic` and
  `realalg_nf_elem_to_eantic`.

Foreign operations are inputs. Three of them form `SageOracles`:
- Sage's polynomial parser;
- real root isolation over `AA`;
- Arb's balls.

The facts the normalisation reads from Sage objects are fields of datatypes:
- whether `RR` coerces from a field, and whether it is absolute;
- its coercion embedding;
- whether `AA` coerces from a codomain;
- the image of a generator.

The backend's numerator vector and denominator are parameters. They are tied
to the element's vector by `ElementCodec.Represents`.

## Model

| member | source | states |
|---|---|---|
| `PowerBasis.MulGen` | src/pyeantic/real_embedded_number_field.py:87 | multiplication of an element by the generator: the coefficients shift up one degree and the top one is reduced by the defining polynomial; of the same length |
| `PowerBasis.Pad` | src/pyeantic/real_embedded_number_field.py:437-438 | the coefficient list padded with zeros to the degree, of length the degree |
| `PowerBasis.Eval` | src/pyeantic/real_embedded_number_field.py:81-87 | the sum of c[i] * gen^i over the coefficient list; `EvalIsPad` and `EvalValue` state what it is |
| `PowerBasis.MulGenUnit` | src/pyeantic/real_embedded_number_field.py:87 | below the degree, multiplying by the generator moves the k-th basis vector to the (k+1)-th |
| `PowerBasis.GenPowIsUnit` | src/pyeantic/real_embedded_number_field.py:84-87 | the running power gen^k is the k-th power-basis vector for every k below the degree |
| `PowerBasis.GenPowDegree` | src/pyeantic/real_embedded_number_field.py:87 | gen^d reduces to minus the defining polynomial's lower coefficients over its leading one, i.e. the generator is a root of the defining polynomial |
| `PowerBasis.EvalIsPad` | src/pyeantic/real_embedded_number_field.py:82-87 | the sum of c[i] * gen^i over a list of at most d coefficients is the list padded with zeros to d |
| `PowerBasis.StripTrailingZeros` | src/pyeantic/real_embedded_number_field.py:85 | the dense coefficient list is a prefix of the vector that ends in a nonzero entry and drops only zeros |
| `PowerBasis.PadStrip` | src/pyeantic/real_embedded_number_field.py:85 | padding the dense coefficient list back to the degree restores the vector |
| `PowerBasis.ValueAdd` | src/pyeantic/real_embedded_number_field.py:104 | the real number of a sum of elements is the sum of their real numbers, at any embedding |
| `PowerBasis.ValueScale` | src/pyeantic/real_embedded_number_field.py:86 | scaling an element scales its real number |
| `PowerBasis.ValuePad` | src/pyeantic/real_embedded_number_field.py:437-438 | zero coefficients appended at the top do not change the real number |
| `PowerBasis.EvalValue` | src/pyeantic/real_embedded_number_field.py:82-87 | the encoded element denotes c[0] + c[1] g + ... at every embedding g of the generator |
| `PowerBasis.SubValue` | src/pyeantic/real_embedded_number_field.py:119 | the real number of a difference is the difference of the real numbers |
| `PowerBasis.NegValue` | src/pyeantic/real_embedded_number_field.py:164 | the real number of a negation is the negated real number |
| `ElementCodec.Represents` | src/pyeantic/real_embedded_number_field.py:436-439 | the backend readout: a positive denominator and a numerator vector no longer than the element, whose quotients padded with zeros are the element's coefficients |
| `ElementCodec.Coefficients` | src/pyeantic/real_embedded_number_field.py:85 | the dense coefficient list of an element is no longer than its vector and pads back to it |
| `ElementCodec.EncodeCoefficients` | src/pyeantic/real_embedded_number_field.py:82-87 | the loop keeps accumulator == sum of c[i] * gen^i over the coefficients seen and gen_pow == gen^k; the result is the coefficient list padded to the degree |
| `ElementCodec.Encode` | src/pyeantic/real_embedded_number_field.py:80-87 | encoding a number field element through its dense coefficient list yields the element's own vector |
| `ElementCodec.Decoded` | src/pyeantic/real_embedded_number_field.py:436-439 | the decoded list has length max(len(num), degree), entry i is num[i]/den below len(num) and 0 above; it raises ZeroDivisionError exactly when den is 0 and num is nonempty |
| `ElementCodec.Decode` | src/pyeantic/real_embedded_number_field.py:436-439 | the quotient list followed by the while loop that appends zeros computes `Decoded` |
| `ElementCodec.DecodeRepresented` | src/pyeantic/real_embedded_number_field.py:436-439 | decoding the backend numerators and denominator of an element gives back its coefficient vector |
| `ElementCodec.StateRoundTrip` | src/pyeantic/real_embedded_number_field.py:211-231 | the pickled state decodes to the element's vector and restoring it encodes to the same vector |
| `Descriptor.ParseDescriptor` | src/pyeantic/real_embedded_number_field.py:261-264 | the first pattern: the prefix, the run up to the first comma, ", [", the run up to the first ']' and a tail; `ParseSound` and `ParseComplete` characterise it |
| `Descriptor.FindFromSpec` | src/pyeantic/real_embedded_number_field.py:261 | no occurrence of the character lies between the start and the index found, and the index found holds the character unless it is the end |
| `Descriptor.FindFromFirst` | src/pyeantic/real_embedded_number_field.py:261 | any first occurrence at or after the start is the index found |
| `Descriptor.TailAtIsTail` | src/pyeantic/real_embedded_number_field.py:261 | the characters after the ball match `\)$` exactly when they are ")" or ")" and a final newline |
| `Descriptor.ParseShape` | src/pyeantic/real_embedded_number_field.py:261-264 | any text with the prefix, a comma-free run, ", [", a run free of ']', a ']' and a tail is recognised, and its groups are those two runs |
| `Descriptor.ParseComplete` | src/pyeantic/real_embedded_number_field.py:261-264 | every text NumberField(P, [B]) with P nonempty and comma-free and B nonempty and free of ']', ended by ')' or ')' and a final newline, is recognised with groups P and [B] |
| `Descriptor.ShapeRender` | src/pyeantic/real_embedded_number_field.py:261-264 | a text of that shape is NumberField(P, [B]) rebuilt from its two runs |
| `Descriptor.ParseSound` | src/pyeantic/real_embedded_number_field.py:261-264 | a recognised text is exactly NumberField(P, [B]) rebuilt from its groups, with P and B of the admitted shape |
| `Descriptor.GroupAt` | src/pyeantic/real_embedded_number_field.py:265 | the group `([^\^ *]+)` at a position followed by `[\^ ]`, greedy; `GroupAtSound` and `GroupAtComplete` characterise it |
| `Descriptor.Attempt` | src/pyeantic/real_embedded_number_field.py:265 | one attempt of the pattern after n digits: with the star first, then without; `AttemptSound` and `AttemptComplete` characterise it |
| `Descriptor.TryDigits` | src/pyeantic/real_embedded_number_field.py:265 | the backtracking of `\d*` from n digits down to none; `TryDigitsSound` and `TryDigitsComplete` characterise it |
| `Descriptor.GeneratorName` | src/pyeantic/real_embedded_number_field.py:265-267 | the second pattern's group, or None when the assertion would fail; `GeneratorNameSound` and `GeneratorNameComplete` characterise it |
| `Descriptor.LeadingDigits` | src/pyeantic/real_embedded_number_field.py:265 | the number of leading digits, greedy: all digits before it, no digit at it |
| `Descriptor.RunEnd` | src/pyeantic/real_embedded_number_field.py:265 | the end of the maximal run of characters other than '^', ' ' and '*' |
| `Descriptor.RunEndUnique` | src/pyeantic/real_embedded_number_field.py:265 | any run end with the maximality property is the one computed |
| `Descriptor.GroupAtSound` | src/pyeantic/real_embedded_number_field.py:265 | a group found is a nonempty run of name characters followed by '^' or a space |
| `Descriptor.GroupAtComplete` | src/pyeantic/real_embedded_number_field.py:265 | a name run followed by a separator is the group found there |
| `Descriptor.AttemptSound` | src/pyeantic/real_embedded_number_field.py:265 | an attempt at n digits that succeeds is a match with n digits, taking the star exactly when one follows |
| `Descriptor.AttemptComplete` | src/pyeantic/real_embedded_number_field.py:265 | every match with n digits is what the attempt at n digits finds |
| `Descriptor.MatchDigits` | src/pyeantic/real_embedded_number_field.py:265 | a match uses no more digits than the text starts with |
| `Descriptor.TryDigitsSound` | src/pyeantic/real_embedded_number_field.py:265 | the backtracking returns the first successful attempt going down from the greedy digit count |
| `Descriptor.TryDigitsComplete` | src/pyeantic/real_embedded_number_field.py:265 | if any attempt at or below n succeeds, the backtracking from n finds a group |
| `Descriptor.GeneratorNameSound` | src/pyeantic/real_embedded_number_field.py:265-267 | the generator name is the group of a match and that match takes more leading digits than any other match |
| `Descriptor.GeneratorNameComplete` | src/pyeantic/real_embedded_number_field.py:265-266 | whenever the pattern can match, a name is found, so the assertion fails only on texts no match exists for |
| `Descriptor.GeneratorNameMonic` | src/pyeantic/real_embedded_number_field.py:265 | "a^2 - 2" names the generator a |
| `Descriptor.GeneratorNameLeadingCoefficient` | src/pyeantic/real_embedded_number_field.py:265 | "12*b^3 - b + 1" names the generator b: digits and star are skipped |
| `RootDisambiguation.ResolveFrom` | src/pyeantic/real_embedded_number_field.py:270-277 | the ladder from its i-th precision on: the single root kept at the first precision keeping one, or the RuntimeError; `ResolveFromOk` and `ResolveFromErr` characterise it |
| `RootDisambiguation.Resolve` | src/pyeantic/real_embedded_number_field.py:268-277 | the whole ladder; `ResolveOk`, `ResolveErr` and `ResolveSound` characterise it |
| `RootDisambiguation.Overlapping` | src/pyeantic/real_embedded_number_field.py:273 | the kept roots are exactly the candidates whose ball overlaps the printed ball at that precision |
| `RootDisambiguation.Disambiguate` | src/pyeantic/real_embedded_number_field.py:268-278 | the loop over the ladder with its break computes the ladder's outcome, a root or the RuntimeError |
| `RootDisambiguation.ResolveFromOk` | src/pyeantic/real_embedded_number_field.py:270-275 | from a point of the ladder on, a result is the single root of the first precision keeping exactly one |
| `RootDisambiguation.ResolveFromErr` | src/pyeantic/real_embedded_number_field.py:270-277 | from a point of the ladder on, failure happens exactly when no later precision keeps exactly one root |
| `RootDisambiguation.ResolveOk` | src/pyeantic/real_embedded_number_field.py:270-278 | the chosen root is the single root kept at the first precision that keeps exactly one, it is a candidate and it overlaps the printed ball there; earlier precisions kept none or several |
| `RootDisambiguation.ResolveErr` | src/pyeantic/real_embedded_number_field.py:276-277 | RuntimeError("cannot distinguish roots with limited ball field precision") is raised if and only if no precision keeps exactly one root |
| `RootDisambiguation.ContainsOverlap` | src/pyeantic/real_embedded_number_field.py:273 | two balls containing the same number overlap |
| `RootDisambiguation.ResolveSound` | src/pyeantic/real_embedded_number_field.py:268-278 | with balls that contain the true embedding at every precision, the root chosen is the true embedding |
| `RootDisambiguation.OverlappingNone` | src/pyeantic/real_embedded_number_field.py:273 | no candidate overlapping means nothing is kept |
| `RootDisambiguation.OverlappingSingle` | src/pyeantic/real_embedded_number_field.py:273 | distinct candidates of which only t overlaps keep exactly [t] |
| `RootDisambiguation.ResolveSeparated` | src/pyeantic/real_embedded_number_field.py:270-275 | sound balls that separate the true root at 53 bits decide at once for it |
| `FieldKeys.FromRenf` | src/pyeantic/real_embedded_number_field.py:258-278 | a backend field becomes the Sage number field of its parsed minimal polynomial in its parsed generator name, embedded at the root the ladder picks; the two assertions and the RuntimeError are its errors |
| `FieldKeys.FromNumberField` | src/pyeantic/real_embedded_number_field.py:279-287 | the checks on a number field in order, then its coercion embedding goes through the checks on maps |
| `FieldKeys.FromMap` | src/pyeantic/real_embedded_number_field.py:288-298 | the checks on a map in order, then the key of its domain's polynomial in x, the generator a and the image of the generator |
| `FieldKeys.Normalize` | src/pyeantic/real_embedded_number_field.py:239-303 | the whole normalisation in the source's order, with the default category Fields; `NormalizeKey` and the check lemmas characterise it |
| `FieldKeys.NormalizeKey` | src/pyeantic/real_embedded_number_field.py:256-303 | every key names variable x and generator a and carries the given category or Fields; its polynomial and generator image are those of the map given, of the coercion embedding of the number field given (the field's own polynomial when well formed), or of the backend field's parsed minimal polynomial and the root the ladder picks |
| `FieldKeys.NormalizeMinpoly` | src/pyeantic/real_embedded_number_field.py:278-298 | the key of a well formed request has a defining polynomial of degree at least one |
| `FieldKeys.NumberFieldChecks` | src/pyeantic/real_embedded_number_field.py:279-287 | a number field without a coercion into RR is a ValueError whether or not it is absolute; with one but not absolute, a NotImplementedError; without an embedding, a TypeError on None; otherwise its embedding decides |
| `FieldKeys.MapChecks` | src/pyeantic/real_embedded_number_field.py:288-298 | a map whose domain is not a number field is a ValueError first, then a codomain not coercing into AA a ValueError, then a non-absolute domain a NotImplementedError; all three pass exactly when a key is made |
| `FieldKeys.OtherInputRefused` | src/pyeantic/real_embedded_number_field.py:299-300 | any other object is a TypeError naming its type |
| `FieldKeys.NumberFieldAsEmbedding` | src/pyeantic/real_embedded_number_field.py:284-287 | an admitted number field and its coercion embedding give the same key |
| `FieldKeys.KeyIgnoresNames` | src/pyeantic/real_embedded_number_field.py:287-298 | renaming the variable of a well formed number field, and with it the domain of its coercion embedding, keeps it well formed and does not change its key |
| `FieldKeys.MapIgnoresNames` | src/pyeantic/real_embedded_number_field.py:298 | renaming the variable of a map's domain does not change the key, as `change_variable_name('x')` rewrites the polynomial in x |
| `FieldKeys.SameEmbeddingSameKey` | src/pyeantic/real_embedded_number_field.py:298 | two admitted maps give the same key if and only if their domains have the same defining polynomial and they send the generator to the same number |
| `FieldKeys.RenfKey` | src/pyeantic/real_embedded_number_field.py:258-278 | a parsed backend field with sound balls either raises the RuntimeError or gives the key of its polynomial embedded at the true root |
| `FieldKeys.ExampleParse` | src/pyeantic/real_embedded_number_field.py:261-264 | "NumberField(2*a - 3, [1.5 +/- 0.125])" splits into "2*a - 3" and "[1.5 +/- 0.125]" |
| `FieldKeys.ExampleGeneratorName` | src/pyeantic/real_embedded_number_field.py:265 | "2*a - 3" names the generator a |
| `FieldKeys.RenfExample` | src/pyeantic/real_embedded_number_field.py:244-253 | an analogue of the documented `K is M`: a backend field printed as 2*a - 3 near 3/2 and a Sage field in b with the same embedding normalise to the same key |
| `FieldKeys.DocumentedResolve` | src/pyeantic/real_embedded_number_field.py:268-278 | for x^2 - 2 with roots -sqrt(2) and sqrt(2) and the ball 1.4 +/- 0.1, the ladder picks sqrt(2) at once |
| `FieldKeys.DocumentedExample` | src/pyeantic/real_embedded_number_field.py:244-253 | the documented K (x^2 - 2 in a embedded at sqrt(2)), L (its second real embedding as a map) and M (the backend field "a^2 - 2" with the ball 1.4 +/- 0.1) all normalise to the key of x^2 - 2 at sqrt(2) |
| `NumberFields.RealEmbeddedNumberField.Gen` | src/pyeantic/real_embedded_number_field.py:375-389 | the generator is the element gen^1: the second basis vector in degree two and above |
| `NumberFields.Element.FromBackend` | src/pyeantic/real_embedded_number_field.py:78-79 | a backend element is kept as it is |
| `NumberFields.Element.FromFieldElement` | src/pyeantic/real_embedded_number_field.py:80-87 | a number field element is encoded to its own vector |
| `NumberFields.Element.Add` | src/pyeantic/real_embedded_number_field.py:91-104 | a fresh element of the same parent holding the sum, denoting the sum of the real numbers |
| `NumberFields.Element.Sub` | src/pyeantic/real_embedded_number_field.py:106-119 | a fresh element of the same parent holding the difference, denoting the difference |
| `NumberFields.Element.Negate` | src/pyeantic/real_embedded_number_field.py:151-164 | a fresh element of the same parent holding the negation, denoting the negated number |
| `NumberFields.Element.Cmp` | src/pyeantic/real_embedded_number_field.py:181-200 | -1 exactly when the element is the smaller real number at the embedding, 0 exactly when it is not smaller and is the same element, 1 otherwise |
| `NumberFields.CmpReflexive` | src/pyeantic/real_embedded_number_field.py:196-199 | every element compares equal to itself |
| `NumberFields.CmpAntisymmetric` | src/pyeantic/real_embedded_number_field.py:196-200 | swapping the operands negates the comparison when equal real numbers mean equal elements |
| `NumberFields.Element.GetState` | src/pyeantic/real_embedded_number_field.py:202-215 | the state is the parent and the element decoded from the backend numerators to its own vector |
| `NumberFields.Element.FromState` | src/pyeantic/real_embedded_number_field.py:217-231 | restoring sets the parent and re-encodes the vector to the same vector |
| `NumberFields.PickleRoundTrip` | src/pyeantic/real_embedded_number_field.py:202-231 | a restored element has the same parent and backend element and compares equal to the original |
| `NumberFields.Registry.ClassCall` | src/pyeantic/real_embedded_number_field.py:239-303 | a refused request raises the normalisation's exception and leaves the cache alone; an admitted one returns the cached field of its key, or a fresh field recorded under it; for a well formed request the field returned is a number field of degree at least one |
| `NumberFields.Registry.ClassCallTwice` | src/pyeantic/real_embedded_number_field.py:240-253 | two requests with the same key return the same field object (`K is L`) |
| `NumberFields.Registry.ClassCallDistinct` | src/pyeantic/real_embedded_number_field.py:239-303 | two admitted maps that differ in the defining polynomial of their domain or in the generator's image return different field objects |
| `RealalgConversion.NatToString` | src/pyeantic/realalg_conversion.py:37 | the decimal text of a natural number is nonempty and made of digits |
| `RealalgConversion.NatToStringRoundTrip` | src/pyeantic/realalg_conversion.py:37 | the decimal text reads back as the number |
| `RealalgConversion.IntToStringRoundTrip` | src/pyeantic/realalg_conversion.py:33 | the signed decimal text of an integer reads back as the integer |
| `RealalgConversion.TextUpTo` | src/pyeantic/realalg_conversion.py:33-37 | the constant coefficient followed by the terms of the nonzero coefficients of degrees 1 to n - 1; `TextStep` characterises each step |
| `RealalgConversion.PolyText` | src/pyeantic/realalg_conversion.py:32-38 | the text of the whole coefficient list; the `PolyText` lemmas characterise it |
| `RealalgConversion.TextStep` | src/pyeantic/realalg_conversion.py:34-37 | a zero coefficient leaves the text as it is and a nonzero one appends its term |
| `RealalgConversion.PolyString` | src/pyeantic/realalg_conversion.py:32-38 | an empty list raises IndexError; otherwise the loop with `continue` yields the constant coefficient followed by one term per nonzero coefficient in ascending degree |
| `RealalgConversion.PolyTextStart` | src/pyeantic/realalg_conversion.py:33 | the text starts with str(coeffs[0]), also when it is 0 |
| `RealalgConversion.PolyTextConstant` | src/pyeantic/realalg_conversion.py:33-34 | a single coefficient is written alone |
| `RealalgConversion.PolyTextAppendZero` | src/pyeantic/realalg_conversion.py:35-36 | a zero coefficient of the next degree adds nothing |
| `RealalgConversion.PolyTextAppendNonzero` | src/pyeantic/realalg_conversion.py:37 | a nonzero coefficient x of degree i adds exactly " + " str(x) " * " var "^" str(i), sign inside |
| `RealalgConversion.CountConcat` | src/pyeantic/realalg_conversion.py:37 | counting a character is additive over concatenation |
| `RealalgConversion.PolyTextSeparators` | src/pyeantic/realalg_conversion.py:34-37 | with a '+'-free variable name, the text holds one '+' per nonzero coefficient past the constant one |
| `RealalgConversion.PolyTextExampleElement` | src/pyeantic/realalg_conversion.py:69-74 | [1, -1] in a is written "1 + -1 * a^1" |
| `RealalgConversion.PolyTextExampleQuadratic` | src/pyeantic/realalg_conversion.py:53-55 | [-2, 0, 1] in a is written "-2 + 1 * a^2" |
| `RealalgConversion.PolyTextExampleQuartic` | src/pyeantic/realalg_conversion.py:56-58 | [-13, 3, 0, 0, 1] in a is written "-13 + 3 * a^1 + 1 * a^4" |
| `RealalgConversion.NfToEantic` | src/pyeantic/realalg_conversion.py:47-65 | anything but a real number field is a ValueError; otherwise the request holds the polynomial text in the given name, the name and the interval text |
| `RealalgConversion.NfElemToEantic` | src/pyeantic/realalg_conversion.py:67-85 | an integral value passes as an integer, a text unchanged, a real algebraic number as its polynomial text in the generator name (IndexError without coefficients), anything else as its str() |

## Left out

- The e-antic arithmetic is not modelled. What remains is the abstraction
  the codec and the element wrappers need: sum, scalar multiple,
  multiplication by the generator and the real value of a vector.
- `_mul_` and `_div_` of elements are left out for the same reason. Products
  and inverses in the field need the full e-antic arithmetic, and the
  nonlinear real reasoning about products is beyond what is proved here.
- `_repr_`, `characteristic`, `an_element` and the field's `__init__`
  registrations of coercions are Sage plumbing. The field object holds only
  its key.
- The value of an element at a root is stated for sums, multiples,
  differences and negations, and for the encode loop. The generator's own
  value at its embedding involves a product with the generator and is not
  stated.
- `Element.Cmp` denotes the backend's `<` by comparing real numbers at the
  embedded generator, and `==` by vector equality. That equal numbers mean
  equal elements follows from the irreducibility of the defining polynomial.
  This is not proved; `CmpAntisymmetric` takes it as a hypothesis for the
  pair compared.
- `Element.FromFieldElement` takes the Sage element as its power-basis
  vector. The conversion `parent.number_field(value)` of arbitrary values is
  Sage's.
- The encode loop updates a local accumulator, which is then stored in the
  element. It does not reassign the element's field step by step. Nothing
  observes the intermediate states.
- Sage's polynomial parser `QQ[name](text)`, `roots(AA)`, `RealBallField`
  and the `coerce_embedding` and `has_coerce_map_from` predicates are
  inputs. A backend field rebuilt as a Sage number field is assumed to have
  a coercion into RR, to be absolute, and to be embedded at the chosen root,
  with that root as its generator's image.
- The datatypes describing Sage objects can describe objects Sage cannot
  build. `FieldKeys.SageRequest` states what every genuine request satisfies,
  and `Registry.ClassCall` requires it:
  - a number field has a defining polynomial of degree at least one;
  - its coercion embedding is a map out of the field itself;
  - the backend's printed minimal polynomial parses to such a polynomial.
- `FieldKeys.DocumentedExample` takes the backend field of the
  documentation to print the ball 1.4 +/- 0.1 it is made from. The backend
  may print a refined ball around sqrt(2) instead. The model does not
  state the outcome for that ball.
- The Python `\d` of the generator pattern also matches non-ASCII digits.
  The model takes ASCII digits `0`-`9`, which is all that the backend
  prints.
- Assertions are assumed enabled. Under `python -O` the two `assert`
  statements of the parser would not raise.
- The unique-representation cache is weak, and field objects can be
  collected. The registry is a plain map that keeps its fields alive.
- The category is represented by its name, with `Fields` the default.
  Category objects are not modelled.
- `realalg_interval_to_arb` uses floating-point division. The
  embedding text it produces is a parameter of `NfToEantic`, and so is the
  choice of the interval `K.intervals(15)[1]`.
- `RealalgConversion.NfToEantic` and `NfElemToEantic` return the arguments given to the
  backend constructors `eantic.renf` and `eantic.renf_elem`, which are
  foreign. Python's `bool` being `Integral` is not represented.
- Coefficients of realalg fields and elements are integers. Python's `str`
  of other numbers is not modelled.
