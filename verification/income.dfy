/** The income modifier engine: `modifierToFunc` turns a tagged modifier into
    a scaling function that floors exactly once, and `applyIncomeModifier`
    lifts that function over a resource record.

    Numbers are exact rationals (`real`); the floating-point behaviour of
    JavaScript doubles is not modelled. */
module Income {

  import opened Wrappers
  import opened Resources

  /** `{type: 'standard', gs, daihatsu}`, `{type: 'custom', value}`, or an
      object whose `type` is neither. */
  datatype IncomeModifier =
    | Standard(gs: bool, daihatsu: int)
    | Custom(value: real)
    | UnknownModifier(tag: string)

  function Min(a: real, b: real): real {
    if a <= b then a else b
  }

  /** The great-success bonus factor. */
  function GsFactor(gs: bool): real {
    if gs then 1.5 else 1.0
  }

  /** The landing-craft bonus factor: 5% per daihatsu, at most 20%. */
  function DlcFactor(daihatsu: int): real {
    1.0 + Min(0.2, daihatsu as real * 0.05)
  }

  /** Scales one value with a known modifier: `v*gsFactor*dlcFactor` or
      `v*value`, floored. */
  function Scale(m: IncomeModifier, v: int): int
    requires !m.UnknownModifier?
  {
    match m
    case Standard(gs, daihatsu) =>
      var gsFactor := GsFactor(gs);
      var dlcFactor := DlcFactor(daihatsu);
      (v as real * gsFactor * dlcFactor).Floor
    case Custom(value) =>
      (v as real * value).Floor
  }

  /** `modifierToFunc(modifier)`: the scaling function of a known modifier;
      for an unrecognised type the source only logs, so there is none. */
  function ModifierToFunc(m: IncomeModifier): (r: Option<int -> int>)
    ensures r.None? <==> m.UnknownModifier?
    ensures r.Some? ==> forall v: int :: r.value(v) == Scale(m, v)
  {
    if m.UnknownModifier? then None else Some((v: int) => Scale(m, v))
  }

  /** The floor of a product is determined by the product alone. */
  lemma FloorUnique(x: real, n: int)
    requires n as real <= x < n as real + 1.0
    ensures x.Floor == n
  {
  }

  /** Flooring is monotone. */
  lemma FloorMonotone(x: real, y: real)
    requires x <= y
    ensures x.Floor <= y.Floor
  {
  }

  /** Scaling a non-negative value by a larger multiplier never yields less. */
  lemma FloorScaleMonotone(v: int, a: real, b: real)
    requires 0 <= v && a <= b
    ensures (v as real * a).Floor <= (v as real * b).Floor
  {
    var x := v as real;
    assert x * b - x * a == x * (b - a);
    FloorMonotone(x * a, x * b);
  }

  /** The combined standard factor lies between 1 and 1.8, and grows with
      great success and with the daihatsu count. */
  lemma CombinedFactorBounds(gs1: bool, d1: int, gs2: bool, d2: int)
    requires 0 <= d1 <= d2 && (gs1 ==> gs2)
    ensures 1.0 <= GsFactor(gs1) * DlcFactor(d1) <= GsFactor(gs2) * DlcFactor(d2) <= 1.8
  {
    var g1, g2, l1, l2 := GsFactor(gs1), GsFactor(gs2), DlcFactor(d1), DlcFactor(d2);
    assert 1.0 <= g1 <= g2 <= 1.5;
    assert 1.0 <= l1 <= l2 <= 1.2;
    assert g1 * l2 - g1 * l1 == g1 * (l2 - l1);
    assert g2 * l2 - g1 * l2 == (g2 - g1) * l2;
    assert 1.5 * 1.2 - g2 * l2 == (1.5 - g2) * 1.2 + g2 * (1.2 - l2);
  }

  /** The factors are multiplied together first and the product is floored
      once: the result is the unique integer at most the exact product and
      within one of it. */
  lemma ScaleFloorsOnce(m: IncomeModifier, v: int)
    requires !m.UnknownModifier?
    ensures m.Standard? ==> var r := Scale(m, v);
      r as real <= v as real * (GsFactor(m.gs) * DlcFactor(m.daihatsu)) < r as real + 1.0
    ensures m.Custom? ==> var r := Scale(m, v);
      r as real <= v as real * m.value < r as real + 1.0
  {
    if m.Standard? {
      var f := GsFactor(m.gs) * DlcFactor(m.daihatsu);
      assert v as real * GsFactor(m.gs) * DlcFactor(m.daihatsu) == v as real * f;
    }
  }

  /** The standard modifier is the custom modifier whose multiplier is the
      combined factor: the engine floors once, after both factors. */
  lemma StandardIsCombinedFactor(gs: bool, daihatsu: int, v: int)
    ensures Scale(Standard(gs, daihatsu), v) == Scale(Custom(GsFactor(gs) * DlcFactor(daihatsu)), v)
  {
    var x, g, d := v as real, GsFactor(gs), DlcFactor(daihatsu);
    assert x * g * d == x * (g * d);
  }

  /** The standard result is the floor of the value times the combined factor. */
  lemma ScaleStandardFloor(gs: bool, daihatsu: int, v: int)
    ensures Scale(Standard(gs, daihatsu), v) == (v as real * (GsFactor(gs) * DlcFactor(daihatsu))).Floor
  {
    StandardIsCombinedFactor(gs, daihatsu, v);
  }

  /** More than four daihatsu add nothing over four. */
  lemma DaihatsuCap(gs: bool, daihatsu: int, v: int)
    requires daihatsu >= 4
    ensures Scale(Standard(gs, daihatsu), v) == Scale(Standard(gs, 4), v)
  {
    assert DlcFactor(daihatsu) == DlcFactor(4);
  }

  /** With no bonus at all, a value is left unchanged; with every bonus it
      grows by at most 80%. */
  lemma StandardBounds(gs: bool, daihatsu: int, v: int)
    requires daihatsu >= 0 && v >= 0
    ensures v <= Scale(Standard(gs, daihatsu), v) <= (v as real * 1.8).Floor
    ensures !gs && daihatsu == 0 ==> Scale(Standard(gs, daihatsu), v) == v
  {
    var f := GsFactor(gs) * DlcFactor(daihatsu);
    CombinedFactorBounds(gs, daihatsu, gs, daihatsu);
    FloorScaleMonotone(v, 1.0, f);
    FloorScaleMonotone(v, f, 1.8);
    assert v as real * 1.0 == v as real;
    FloorUnique(v as real, v);
    ScaleStandardFloor(gs, daihatsu, v);
    assert Scale(Standard(gs, daihatsu), v) == (v as real * f).Floor;
  }

  /** For non-negative yields, scaling is monotone in the strength of the
      standard modifier: adding great success or daihatsu never lowers it. */
  lemma StandardMonotone(gs1: bool, d1: int, gs2: bool, d2: int, v: int)
    requires 0 <= d1 <= d2 && (gs1 ==> gs2) && v >= 0
    ensures Scale(Standard(gs1, d1), v) <= Scale(Standard(gs2, d2), v)
  {
    var f1, f2 := GsFactor(gs1) * DlcFactor(d1), GsFactor(gs2) * DlcFactor(d2);
    assert 0.0 <= f1 <= f2 by {
      CombinedFactorBounds(gs1, d1, gs2, d2);
    }
    CustomMonotone(f1, f2, v, v);
    StandardIsCombinedFactor(gs1, d1, v);
    StandardIsCombinedFactor(gs2, d2, v);
  }

  /** For non-negative yields, the custom modifier is monotone in its
      multiplier, and scaling is monotone in the yield for any non-negative
      multiplier. */
  lemma CustomMonotone(a: real, b: real, v: int, w: int)
    requires 0.0 <= a <= b && 0 <= v <= w
    ensures Scale(Custom(a), v) <= Scale(Custom(b), v)
    ensures Scale(Custom(a), v) <= Scale(Custom(a), w)
  {
    FloorScaleMonotone(v, a, b);
    var x, y := v as real, w as real;
    assert y * a - x * a == (y - x) * a;
    FloorMonotone(x * a, y * a);
  }

  /** Flooring once differs from flooring after each factor: 300 with great
      success and four daihatsu yields 540, and 3 yields 5 where flooring
      after the great-success factor would give 4. */
  lemma FloorOnceExamples()
    ensures Scale(Standard(true, 4), 300) == 540
    ensures Scale(Standard(true, 4), 3) == 5
    ensures ((3.0 * 1.5).Floor as real * 1.2).Floor == 4
  {
    assert GsFactor(true) == 1.5 && DlcFactor(4) == 1.2;
    FloorUnique(300.0 * 1.5 * 1.2, 540);
    FloorUnique(3.0 * 1.5 * 1.2, 5);
    FloorUnique(3.0 * 1.5, 4);
    FloorUnique(4.0 * 1.2, 4);
  }

  /** The per-value function `onResourceValue` receives: an undefined value
      makes the product NaN in the source, modelled as None. */
  function ScaleEntry(func: int -> int, v: Option<int>): Option<int> {
    match v
    case Some(x) => Some(func(x))
    case None => None
  }

  /** `applyIncomeModifier(modifier)(resource)`: every resource kind scaled
      by the modifier's function; no record at all for an unknown type, on
      which the source fails once the lifted function is applied. */
  function ApplyIncomeModifier(m: IncomeModifier, r: Record<int>): (r': Option<Record<Option<int>>>)
    ensures r'.None? <==> m.UnknownModifier?
    ensures r'.Some? ==> Complete(r'.value)
    ensures r'.Some? ==> forall k ::
      k in r'.value && r'.value[k] == (if k in r then Some(Scale(m, r[k])) else None)
  {
    match ModifierToFunc(m)
    case Some(func) =>
      Some(OnResourceValue((v: Option<int>, k: ResourceKind, s: Record<int>) => ScaleEntry(func, v), r))
    case None =>
      None
  }

  /** Neither the standard modifier without bonuses nor the custom
      multiplier 1 changes a value. */
  lemma ScaleNeutral(x: int)
    ensures Scale(Standard(false, 0), x) == x
    ensures Scale(Custom(1.0), x) == x
  {
    assert GsFactor(false) * DlcFactor(0) == 1.0;
    FloorUnique(x as real * 1.0, x);
  }

  /** The neutral modifiers leave every value of a complete record as it is. */
  lemma NeutralModifiers(r: Record<int>)
    requires Complete(r)
    ensures forall k :: ApplyIncomeModifier(Standard(false, 0), r).value[k] == Some(r[k])
    ensures forall k :: ApplyIncomeModifier(Custom(1.0), r).value[k] == Some(r[k])
  {
    CompleteHasEveryKind(r);
    forall k
      ensures ApplyIncomeModifier(Standard(false, 0), r).value[k] == Some(r[k])
      ensures ApplyIncomeModifier(Custom(1.0), r).value[k] == Some(r[k])
    {
      ScaleNeutral(r[k]);
    }
  }
}
