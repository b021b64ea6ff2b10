/**
 * Real embedded number fields and their elements.
 *
 * A field is identified by its canonical key; the registry hands out one
 * field object per key, so that requests that normalise to the same key
 * yield the very same field.  An element holds its parent field and the
 * backend element, here the vector of its coefficients in the power basis
 * of the generator.  The element operations wrap the backend operations,
 * comparison compares the real numbers the elements denote, and the pickled
 * state of an element is its parent together with the element converted to
 * a Sage number field element.
 */
module NumberFields {
  import opened Errors
  import opened PowerBasis
  import opened ElementCodec
  import opened FieldKeys

  class RealEmbeddedNumberField {
    const key: FieldKey

    constructor (key: FieldKey)
      requires ValidMinpoly(key.poly)
      ensures this.key == key && Valid()
    {
      this.key := key;
    }

    /** The defining polynomial of a Sage number field is a polynomial of
        degree at least one. */
    predicate Valid()
    {
      ValidMinpoly(key.poly)
    }

    function Deg(): nat
      requires Valid()
    {
      Degree(key.poly)
    }

    /** The generator: the generator of the Sage number field, converted.  In
        degree one the Sage generator is the rational root itself. */
    method Gen() returns (g: Element)
      requires Valid()
      ensures fresh(g) && g.parent == this && g.Valid()
      ensures g.renfElem == GenPow(key.poly, 1)
      ensures Deg() >= 2 ==> g.renfElem == Unit(Deg(), 1)
    {
      var p := key.poly;
      var sageGen := if Deg() >= 2 then Unit(Deg(), 1) else Neg(Reducer(p));
      if Deg() >= 2 {
        GenPowIsUnit(p, 1);
      } else {
        GenPowDegree(p);
      }
      g := new Element.FromFieldElement(this, sageGen);
    }
  }

  class Element {
    const parent: RealEmbeddedNumberField
    var renfElem: Vec

    predicate Valid()
      reads this
    {
      parent.Valid() && |renfElem| == parent.Deg()
    }

    /** An element made from a backend element, which is kept as it is. */
    constructor FromBackend(parent: RealEmbeddedNumberField, value: Vec)
      requires parent.Valid() && |value| == parent.Deg()
      ensures this.parent == parent && renfElem == value && Valid()
    {
      this.parent := parent;
      renfElem := value;
    }

    /** An element made from a Sage number field element, given in the power
        basis: its dense coefficient list is encoded by the loop of
        `EncodeCoefficients`, which yields the same vector. */
    constructor FromFieldElement(parent: RealEmbeddedNumberField, value: Vec)
      requires parent.Valid() && |value| == parent.Deg()
      ensures this.parent == parent && renfElem == value && Valid()
    {
      var e := Encode(parent.key.poly, value);
      this.parent := parent;
      renfElem := e;
    }

    method Add(other: Element) returns (r: Element)
      requires Valid() && other.Valid() && other.parent == parent
      ensures fresh(r) && r.Valid() && r.parent == parent
      ensures r.renfElem == PowerBasis.Add(renfElem, other.renfElem)
      ensures forall g :: Value(r.renfElem, g) == Value(renfElem, g) + Value(other.renfElem, g)
    {
      forall g
        ensures Value(PowerBasis.Add(renfElem, other.renfElem), g) == Value(renfElem, g) + Value(other.renfElem, g)
      {
        ValueAdd(renfElem, other.renfElem, g);
      }
      r := new Element.FromBackend(parent, PowerBasis.Add(renfElem, other.renfElem));
    }

    method Sub(other: Element) returns (r: Element)
      requires Valid() && other.Valid() && other.parent == parent
      ensures fresh(r) && r.Valid() && r.parent == parent
      ensures r.renfElem == PowerBasis.Sub(renfElem, other.renfElem)
      ensures forall g :: Value(r.renfElem, g) == Value(renfElem, g) - Value(other.renfElem, g)
    {
      forall g
        ensures Value(PowerBasis.Sub(renfElem, other.renfElem), g) == Value(renfElem, g) - Value(other.renfElem, g)
      {
        SubValue(renfElem, other.renfElem, g);
      }
      r := new Element.FromBackend(parent, PowerBasis.Sub(renfElem, other.renfElem));
    }

    method Negate() returns (r: Element)
      requires Valid()
      ensures fresh(r) && r.Valid() && r.parent == parent
      ensures r.renfElem == PowerBasis.Neg(renfElem)
      ensures forall g :: Value(r.renfElem, g) == -Value(renfElem, g)
    {
      forall g
        ensures Value(PowerBasis.Neg(renfElem), g) == -Value(renfElem, g)
      {
        NegValue(renfElem, g);
      }
      r := new Element.FromBackend(parent, PowerBasis.Neg(renfElem));
    }

    /** The three-way comparison: -1 when this element is the smaller real
        number at the embedding of the generator, 0 when the two are the same
        element, 1 otherwise. */
    function Cmp(other: Element): (c: int)
      reads this, other
      requires Valid() && other.Valid() && other.parent == parent
      ensures c == -1 <==> Value(renfElem, parent.key.genImage) < Value(other.renfElem, parent.key.genImage)
      ensures c == 0 <==> (!(Value(renfElem, parent.key.genImage) < Value(other.renfElem, parent.key.genImage)) &&
                           renfElem == other.renfElem)
      ensures c == 1 <==> (Value(other.renfElem, parent.key.genImage) <= Value(renfElem, parent.key.genImage) &&
                           renfElem != other.renfElem)
    {
      var g := parent.key.genImage;
      if Value(renfElem, g) < Value(other.renfElem, g) then -1
      else if renfElem == other.renfElem then 0
      else 1
    }

    /**
     * The pickled state: the parent and the element converted to a Sage
     * number field element.  The backend stores the element as the integer
     * numerator vector `num` over the common denominator `den`, which the
     * conversion decodes.
     */
    method GetState(num: seq<int>, den: int) returns (stateParent: RealEmbeddedNumberField, value: Vec)
      requires Valid() && Represents(num, den, renfElem)
      ensures stateParent == parent && value == renfElem
    {
      var r := Decode(parent.Deg(), num, den);
      DecodeRepresented(num, den, renfElem);
      stateParent := parent;
      value := r.value;
    }

    /** Restoring the pickled state: the parent is set and the element is
        the parent's conversion of the number field element. */
    constructor FromState(stateParent: RealEmbeddedNumberField, value: Vec)
      requires stateParent.Valid() && |value| == stateParent.Deg()
      ensures parent == stateParent && renfElem == value && Valid()
    {
      var e := new Element.FromFieldElement(stateParent, value);
      parent := stateParent;
      renfElem := e.renfElem;
    }
  }

  /** Comparison is reflexive. */
  lemma CmpReflexive(a: Element)
    requires a.Valid()
    ensures a.Cmp(a) == 0
  {
  }

  /** Comparison is antisymmetric, given that two elements denoting the same
      real number are the same element (which the minimal polynomial of the
      generator guarantees). */
  lemma CmpAntisymmetric(a: Element, b: Element)
    requires a.Valid() && b.Valid() && a.parent == b.parent
    requires Value(a.renfElem, a.parent.key.genImage) == Value(b.renfElem, a.parent.key.genImage) ==> a.renfElem == b.renfElem
    ensures a.Cmp(b) == -b.Cmp(a)
  {
  }

  /** Serialisation round trip: the state of an element restores an element
      with the same parent and the same backend element, so the restored
      element compares equal to the original. */
  method PickleRoundTrip(e: Element, num: seq<int>, den: int) returns (restored: Element)
    requires e.Valid() && Represents(num, den, e.renfElem)
    ensures fresh(restored) && restored.Valid()
    ensures restored.parent == e.parent && restored.renfElem == e.renfElem
    ensures restored.Cmp(e) == 0
  {
    var stateParent, value := e.GetState(num, den);
    restored := new Element.FromState(stateParent, value);
  }

  /**
   * The cache of unique representations: one field object per canonical
   * key.  A request is normalised; a key met before returns the field made
   * for it, a new key makes a new field and records it.
   */
  class Registry {
    var cache: map<FieldKey, RealEmbeddedNumberField>

    predicate Valid()
      reads this
    {
      forall k | k in cache :: cache[k].key == k && cache[k].Valid()
    }

    constructor ()
      ensures cache == map[] && Valid()
    {
      cache := map[];
    }

    method ClassCall(embed: Embed, category: Option<string>, o: SageOracles) returns (r: Result<RealEmbeddedNumberField>)
      requires Valid() && SageRequest(embed, o)
      modifies this
      ensures Valid()
      ensures r.Ok? ==> r.value.Valid()
      ensures r.Ok? <==> Normalize(embed, category, o).Ok?
      ensures r.Err? ==> r.error == Normalize(embed, category, o).error && cache == old(cache)
      ensures r.Ok? ==>
        var k := Normalize(embed, category, o).value;
        r.value.key == k && k in cache && cache[k] == r.value &&
        (k in old(cache) ==> r.value == old(cache)[k] && cache == old(cache)) &&
        (k !in old(cache) ==> fresh(r.value) && cache == old(cache)[k := r.value])
    {
      var normalized := Normalize(embed, category, o);
      if normalized.Err? {
        return Err(normalized.error);
      }
      var k := normalized.value;
      NormalizeMinpoly(embed, category, o);
      if k in cache {
        return Ok(cache[k]);
      }
      var field := new RealEmbeddedNumberField(k);
      cache := cache[k := field];
      r := Ok(field);
    }

    /** Two requests that normalise to the same key return the same field
        object (the `K is L` of the documentation). */
    method ClassCallTwice(e1: Embed, e2: Embed, category: Option<string>, o: SageOracles)
      returns (r1: Result<RealEmbeddedNumberField>, r2: Result<RealEmbeddedNumberField>)
      requires Valid() && SageRequest(e1, o) && SageRequest(e2, o)
      requires Normalize(e1, category, o).Ok? && Normalize(e1, category, o) == Normalize(e2, category, o)
      modifies this
      ensures Valid()
      ensures r1.Ok? && r2.Ok? && r1.value == r2.value
    {
      r1 := ClassCall(e1, category, o);
      r2 := ClassCall(e2, category, o);
    }

    /** Two maps that differ in the defining polynomial of their domain or in
        the image of the generator return different field objects. */
    method ClassCallDistinct(m1: EmbeddingMap, m2: EmbeddingMap, category: Option<string>, o: SageOracles)
      returns (r1: Result<RealEmbeddedNumberField>, r2: Result<RealEmbeddedNumberField>)
      requires Valid() && WellFormedMap(m1) && WellFormedMap(m2)
      requires Normalize(MapInput(m1), category, o).Ok? && Normalize(MapInput(m2), category, o).Ok?
      requires m1.domain.poly != m2.domain.poly || m1.genImage != m2.genImage
      modifies this
      ensures Valid()
      ensures r1.Ok? && r2.Ok? && r1.value != r2.value
    {
      SameEmbeddingSameKey(m1, m2, category, o);
      r1 := ClassCall(MapInput(m1), category, o);
      r2 := ClassCall(MapInput(m2), category, o);
    }
  }
}
