/**
 * The three-dimensional objects of the stacking step (backend/src/three_dimensional.py):
 * an object's footprint ("Grundfläche") and its dimensions, and the two support
 * predicates, the area-only one and the exact containment one.
 */
module Solids {
  import opened Wrappers

  /** The value of Python's `math.pi`. */
  const Pi: real := 3.141592653589793

  /**
   * Form and dimensions together: the constructor always stores `{'radius': r}` for a
   * cylinder, `{'laenge': l, 'breite': b}` for a box and `{}` for any other form.
   */
  datatype Form = Zylinder(radius: real) | Quader(laenge: real, breite: real) | Sonstige(formName: string)

  /** `gewicht` is the weight attribute the aggregation reads and writes. */
  datatype Objekt = Objekt(name: string, form: Form, hoehe: real, grundflaeche: real, gewicht: real)

  /** The footprint `_berechne_grundflaeche` computes for a form. */
  function Footprint(f: Form): real {
    match f
    case Zylinder(r) => Pi * r * r
    case Quader(l, b) => l * b
    case Sonstige(_) => 0.0
  }

  /** An object whose footprint is the one its form and dimensions call for. */
  predicate FootprintMatchesForm(o: Objekt) {
    o.grundflaeche == Footprint(o.form)
  }

  predicate NonNegativeDims(f: Form) {
    match f
    case Zylinder(r) => r >= 0.0
    case Quader(l, b) => l >= 0.0 && b >= 0.0
    case Sonstige(_) => true
  }

  /**
   * `Objekt(name, form, params, hoehe)`: a cylinder reads `params[0]` (IndexError on an
   * empty list), a box unpacks exactly two values (ValueError otherwise); any other form
   * string is accepted with footprint 0 and no dimensions. `None` is the exception.
   */
  function MakeObjekt(name: string, form: string, params: seq<real>, hoehe: real, gewicht: real): (r: Option<Objekt>)
    ensures r.None? <==> (form == "Zylinder" && |params| == 0) || (form == "Quader" && |params| != 2)
    ensures r.Some? ==> FootprintMatchesForm(r.value)
    ensures r.Some? ==> r.value.name == name && r.value.hoehe == hoehe && r.value.gewicht == gewicht
    ensures r.Some? && form == "Zylinder" ==> r.value.form == Zylinder(params[0])
    ensures r.Some? && form == "Quader" ==> r.value.form == Quader(params[0], params[1])
    ensures r.Some? && form != "Zylinder" && form != "Quader" ==> r.value.form == Sonstige(form) && r.value.grundflaeche == 0.0
  {
    if form == "Zylinder" then
      if |params| == 0 then None
      else Some(Objekt(name, Zylinder(params[0]), hoehe, Pi * params[0] * params[0], gewicht))
    else if form == "Quader" then
      if |params| != 2 then None
      else Some(Objekt(name, Quader(params[0], params[1]), hoehe, params[0] * params[1], gewicht))
    else Some(Objekt(name, Sonstige(form), hoehe, 0.0, gewicht))
  }

  lemma {:induction false} FootprintNonNegative(f: Form)
    requires NonNegativeDims(f)
    ensures Footprint(f) >= 0.0
  {
    match f
    case Zylinder(r) =>
      assert r * r >= 0.0;
    case Quader(l, b) =>
      assert l * b >= 0.0;
    case Sonstige(_) =>
  }

  /** `kann_traeger_sein_fuer`: `lower` may carry `upper` iff upper's footprint is not larger. */
  predicate CanSupport(lower: Objekt, upper: Objekt) {
    !(upper.grundflaeche > lower.grundflaeche)
  }

  /** The area-only relation is a total preorder, so it never rules out equal footprints. */
  lemma CanSupportIsTotalPreorder()
    ensures forall o :: CanSupport(o, o)
    ensures forall a, b :: CanSupport(a, b) || CanSupport(b, a)
    ensures forall a, b, c :: CanSupport(a, b) && CanSupport(b, c) ==> CanSupport(a, c)
  {
  }

  lemma CanSupportIffSmallerFootprint(lower: Objekt, upper: Objekt)
    ensures CanSupport(lower, upper) <==> upper.grundflaeche <= lower.grundflaeche
  {
  }

  /** Box on a cylinder: the half-diagonal `sqrt((l/2)^2 + (b/2)^2)` is at most the radius. */
  predicate HalfDiagonalFits(l: real, b: real, r: real) {
    r >= 0.0 && (l / 2.0) * (l / 2.0) + (b / 2.0) * (b / 2.0) <= r * r
  }

  /** The shape rule alone, the second half of `kann_traeger_sein_fuer_no_overlap`. */
  predicate ShapeFits(lower: Form, upper: Form) {
    match (lower, upper)
    case (Zylinder(rl), Zylinder(ru)) => ru <= rl
    case (Quader(ll, bl), Quader(lu, bu)) => lu <= ll && bu <= bl
    case (Quader(ll, bl), Zylinder(ru)) => 2.0 * ru <= ll && 2.0 * ru <= bl
    case (Zylinder(rl), Quader(lu, bu)) => HalfDiagonalFits(lu, bu, rl)
    case _ => true
  }

  /** `kann_traeger_sein_fuer_no_overlap`: the footprint check first, then the shape rule. */
  predicate CanSupportExact(lower: Objekt, upper: Objekt) {
    if upper.grundflaeche > lower.grundflaeche then false
    else ShapeFits(lower.form, upper.form)
  }

  /** The exact predicate never accepts more than the area-only one. */
  lemma ExactImpliesCanSupport(lower: Objekt, upper: Objekt)
    ensures CanSupportExact(lower, upper) ==> CanSupport(lower, upper)
  {
  }

  /** Pairs other than the four cylinder/box combinations pass on the area check alone. */
  lemma ExactOtherPairs(lower: Objekt, upper: Objekt)
    requires lower.form.Sonstige? || upper.form.Sonstige?
    ensures CanSupportExact(lower, upper) <==> CanSupport(lower, upper)
  {
  }

  /**
   * For objects whose footprints match their non-negative dimensions, the shape rule
   * already implies the footprint rule, so the exact predicate is the shape rule alone.
   */
  lemma {:induction false} ExactIsShapeRule(lower: Objekt, upper: Objekt)
    requires FootprintMatchesForm(lower) && FootprintMatchesForm(upper)
    requires NonNegativeDims(lower.form) && NonNegativeDims(upper.form)
    requires !lower.form.Sonstige? && !upper.form.Sonstige?
    ensures CanSupportExact(lower, upper) <==> ShapeFits(lower.form, upper.form)
  {
    if ShapeFits(lower.form, upper.form) {
      ShapeFitsBoundsFootprint(lower.form, upper.form);
    }
  }

  lemma {:induction false} ShapeFitsBoundsFootprint(lower: Form, upper: Form)
    requires NonNegativeDims(lower) && NonNegativeDims(upper)
    requires ShapeFits(lower, upper)
    requires !lower.Sonstige? && !upper.Sonstige?
    ensures Footprint(upper) <= Footprint(lower)
  {
    if lower.Zylinder? && upper.Zylinder? {
      var rl, ru := lower.radius, upper.radius;
      SquareMonotone(ru, rl);
      MulMonotone(Pi, ru * ru, rl * rl);
      assert Footprint(upper) == Pi * (ru * ru);
      assert Footprint(lower) == Pi * (rl * rl);
    } else if lower.Quader? && upper.Quader? {
      var ll, bl, lu, bu := lower.laenge, lower.breite, upper.laenge, upper.breite;
      MulMonotone(bu, lu, ll);
      MulMonotone(ll, bu, bl);
      assert lu * bu <= ll * bu <= ll * bl;
    } else if lower.Quader? && upper.Zylinder? {
      CircleInRectangle(lower.laenge, lower.breite, upper.radius);
    } else {
      var rl, lu, bu := lower.radius, upper.laenge, upper.breite;
      var q := (lu / 2.0) * (lu / 2.0) + (bu / 2.0) * (bu / 2.0);
      SquareNonNegative(lu - bu);
      assert lu * bu <= 2.0 * q;
      assert 2.0 * q <= 2.0 * (rl * rl);
      assert 2.0 * (rl * rl) <= Pi * (rl * rl);
      assert Footprint(lower) == Pi * (rl * rl);
    }
  }

  /** A circle whose diameter fits both sides of a rectangle has at most its area. */
  lemma CircleInRectangle(ll: real, bl: real, ru: real)
    requires 0.0 <= ru && 2.0 * ru <= ll && 2.0 * ru <= bl
    ensures Pi * (ru * ru) <= ll * bl
  {
    var d := 2.0 * ru;
    SquareNonNegative(ru);
    MulMonotone(ru * ru, Pi, 4.0);
    assert 4.0 * (ru * ru) == d * d;
    MulMonotone(d, d, ll);
    MulMonotone(ll, d, bl);
    assert d * d <= ll * d <= ll * bl;
  }

  lemma SquareMonotone(x: real, y: real)
    requires 0.0 <= x <= y
    ensures x * x <= y * y
  {
    assert x * x <= x * y;
    assert x * y <= y * y;
  }

  lemma MulMonotone(c: real, x: real, y: real)
    requires c >= 0.0 && x <= y
    ensures c * x <= c * y
  {
  }

  lemma SquareNonNegative(x: real)
    ensures x * x >= 0.0
  {
    if x < 0.0 {
      assert x * x == (-x) * (-x);
    }
  }
}
