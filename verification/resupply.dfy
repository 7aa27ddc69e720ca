/** The resupply cost engine: `computeResupplyInfo`, which prices a fleet
    composition with a per-ship-type cost lookup (cost-model configuration)
    or returns a flat cost (custom configuration). */
module Resupply {

  import opened Wrappers
  import opened FleetCompo
  import opened Catalog

  /** `{fuel, ammo}`: a resupply cost. */
  datatype Cost = Cost(fuel: int, ammo: int)

  /** `{fuelCost, ammoCost}`: what the lookup charges for one (type, count) pair. */
  datatype ShipCost = ShipCost(fuelCost: int, ammoCost: int)

  /** The per-ship-type cost lookup (`costModelPartial`); None is `null`,
      meaning the cost of that pair is unknown. */
  type CostLookup = (ShipType, int) -> Option<ShipCost>

  /** `{type: 'cost-model', wildcard, count}`, `{type: 'custom', fuel, ammo}`,
      or an object whose `type` is neither. */
  datatype CostConfig =
    | CostModel(wildcard: Option<ShipType>, count: int)
    | CustomCost(fuel: int, ammo: int)
    | UnknownCostType(tag: string)

  /** `{cost, compo}`; a None cost or composition is `null`. */
  datatype ResupplyInfo = ResupplyInfo(cost: Option<Cost>, compo: Option<Composition>)

  /** The reducer of the cost fold: `null` stays `null`, an unknown pair
      makes the whole cost `null`, a known pair is added. */
  function CostStep(lookup: CostLookup, acc: Option<Cost>, entry: (ShipType, int)): (r: Option<Cost>)
    ensures r.Some? <==> acc.Some? && lookup(entry.0, entry.1).Some?
    ensures r.Some? ==> r.value == Add(acc.value, PairCost(lookup, entry))
  {
    if acc.None? then None
    else
      match lookup(entry.0, entry.1)
      case None => None
      case Some(c) => Some(Cost(acc.value.fuel + c.fuelCost, acc.value.ammo + c.ammoCost))
  }

  /** `entries.reduce(step, acc)`: a left fold. */
  function FoldCost(lookup: CostLookup, acc: Option<Cost>, entries: Composition): Option<Cost>
    decreases |entries|
  {
    if |entries| == 0 then acc
    else FoldCost(lookup, CostStep(lookup, acc, entries[0]), entries[1..])
  }

  // Reference definition of the fold's result, independent of its order.

  /** Every (type, count) pair of the composition has a known cost. */
  predicate AllPriced(lookup: CostLookup, entries: Composition) {
    forall e :: e in entries ==> lookup(e.0, e.1).Some?
  }

  /** The cost charged for one pair, zero when it is unknown. */
  function PairCost(lookup: CostLookup, e: (ShipType, int)): Cost {
    match lookup(e.0, e.1)
    case None => Cost(0, 0)
    case Some(c) => Cost(c.fuelCost, c.ammoCost)
  }

  function Add(a: Cost, b: Cost): Cost {
    Cost(a.fuel + b.fuel, a.ammo + b.ammo)
  }

  /** The sum of the pair costs. */
  function Total(lookup: CostLookup, entries: Composition): Cost
    decreases |entries|
  {
    if |entries| == 0 then Cost(0, 0)
    else Add(PairCost(lookup, entries[0]), Total(lookup, entries[1..]))
  }

  /** Once the accumulator is `null`, it stays `null`. */
  lemma {:induction false} FoldNullAbsorbs(lookup: CostLookup, entries: Composition)
    ensures FoldCost(lookup, None, entries) == None
    decreases |entries|
  {
    if |entries| > 0 {
      FoldNullAbsorbs(lookup, entries[1..]);
    }
  }

  /** The fold from a known accumulator is that accumulator plus the total
      when every pair is priced, and `null` otherwise. */
  lemma {:induction false} FoldMatchesTotal(lookup: CostLookup, acc: Cost, entries: Composition)
    ensures FoldCost(lookup, Some(acc), entries)
         == if AllPriced(lookup, entries) then Some(Add(acc, Total(lookup, entries))) else None
    decreases |entries|
  {
    if |entries| == 0 {
    } else {
      var e := entries[0];
      var rest := entries[1..];
      assert forall x :: x in entries <==> x == e || x in rest;
      match lookup(e.0, e.1)
      case None =>
        assert !AllPriced(lookup, entries);
        FoldNullAbsorbs(lookup, rest);
      case Some(c) =>
        var acc' := Cost(acc.fuel + c.fuelCost, acc.ammo + c.ammoCost);
        FoldMatchesTotal(lookup, acc', rest);
    }
  }

  /** One pair whose cost is unknown makes the fold `null`, wherever it is. */
  lemma UnpricedPairNullifies(lookup: CostLookup, acc: Option<Cost>, entries: Composition, i: int)
    requires 0 <= i < |entries| && lookup(entries[i].0, entries[i].1).None?
    ensures FoldCost(lookup, acc, entries) == None
  {
    assert !AllPriced(lookup, entries);
    if acc.None? {
      FoldNullAbsorbs(lookup, entries);
    } else {
      FoldMatchesTotal(lookup, acc.value, entries);
    }
  }

  /** Removing the pair at position `i` removes its cost from the total. */
  lemma {:induction false} TotalRemove(lookup: CostLookup, b: Composition, i: int)
    requires 0 <= i < |b|
    ensures Total(lookup, b) == Add(PairCost(lookup, b[i]), Total(lookup, b[..i] + b[i + 1..]))
    decreases i
  {
    if i == 0 {
      assert b[..0] + b[1..] == b[1..];
    } else {
      var tail := b[1..];
      var rest := b[..i] + b[i + 1..];
      assert rest == [b[0]] + (tail[..i - 1] + tail[i..]);
      assert rest[1..] == tail[..i - 1] + tail[i..];
      TotalRemove(lookup, tail, i - 1);
    }
  }

  /** Removing the pair at position `i` removes one occurrence from the
      composition's multiset. */
  lemma MultisetRemove(b: Composition, i: int)
    requires 0 <= i < |b|
    ensures multiset(b[..i] + b[i + 1..]) == multiset(b) - multiset{b[i]}
  {
    assert b == b[..i] + [b[i]] + b[i + 1..];
  }

  /** The total does not depend on the order of the pairs. */
  lemma {:induction false} TotalPermutation(lookup: CostLookup, a: Composition, b: Composition)
    requires multiset(a) == multiset(b)
    ensures Total(lookup, a) == Total(lookup, b)
    decreases |a|
  {
    if |a| == 0 {
      assert |b| == |multiset(b)| == 0;
    } else {
      var x := a[0];
      assert x in multiset(b);
      var i :| 0 <= i < |b| && b[i] == x;
      MultisetRemove(b, i);
      MultisetRemove(a, 0);
      TotalPermutation(lookup, a[1..], b[..i] + b[i + 1..]);
      TotalRemove(lookup, b, i);
    }
  }

  /** The fold's result does not depend on the order in which the
      composition's pairs are enumerated. */
  lemma FoldOrderIndependent(lookup: CostLookup, a: Composition, b: Composition)
    requires multiset(a) == multiset(b)
    ensures FoldCost(lookup, Some(Cost(0, 0)), a) == FoldCost(lookup, Some(Cost(0, 0)), b)
  {
    FoldMatchesTotal(lookup, Cost(0, 0), a);
    FoldMatchesTotal(lookup, Cost(0, 0), b);
    TotalPermutation(lookup, a, b);
    assert forall e :: e in a <==> e in multiset(a);
    assert forall e :: e in b <==> e in multiset(b);
  }

  /** `computeResupplyInfo(costConfig)(expedInfo, costModelPartial)`. The
      composition resolver is passed in as `atLeast` and `applyWildcard`. For
      an unknown configuration type the source only logs, so there is no
      result. */
  function ComputeResupplyInfo(
    config: CostConfig, info: ExpedInfo, lookup: CostLookup,
    atLeast: AtLeast, applyWildcard: ApplyWildcard): (r: Option<ResupplyInfo>)
    ensures r.None? <==> config.UnknownCostType?
    ensures config.CostModel? ==>
      r.value.compo == Some(applyWildcard(config.wildcard, atLeast(config.count, info.minCompo)))
    ensures config.CostModel? ==>
      var compo := applyWildcard(config.wildcard, atLeast(config.count, info.minCompo));
      (r.value.cost.Some? <==> AllPriced(lookup, compo))
      && (r.value.cost.Some? ==> r.value.cost.value == Total(lookup, compo))
    ensures config.CustomCost? ==>
      r.value == ResupplyInfo(Some(Cost(config.fuel, config.ammo)), None)
  {
    match config
    case CostModel(wildcard, count) =>
      var abstractCompo := atLeast(count, info.minCompo);
      var compo := applyWildcard(wildcard, abstractCompo);
      var cost := FoldCost(lookup, Some(Cost(0, 0)), compo);
      FoldMatchesTotal(lookup, Cost(0, 0), compo);
      Some(ResupplyInfo(cost, Some(compo)))
    case CustomCost(fuel, ammo) =>
      Some(ResupplyInfo(Some(Cost(fuel, ammo)), None))
    case UnknownCostType(_) =>
      None
  }

  /** A custom cost ignores the expedition, the lookup and the resolver. */
  lemma CustomCostIgnoresFleet(
    fuel: int, ammo: int,
    info1: ExpedInfo, lookup1: CostLookup, atLeast1: AtLeast, applyWildcard1: ApplyWildcard,
    info2: ExpedInfo, lookup2: CostLookup, atLeast2: AtLeast, applyWildcard2: ApplyWildcard)
    ensures ComputeResupplyInfo(CustomCost(fuel, ammo), info1, lookup1, atLeast1, applyWildcard1)
         == ComputeResupplyInfo(CustomCost(fuel, ammo), info2, lookup2, atLeast2, applyWildcard2)
  {
  }
}
