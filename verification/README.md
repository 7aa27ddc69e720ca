# Expedition economics: a Dafny model

This project models the computational core of an expedition planner for a
browser strategy game. Given an expedition's definition and a user's choices,
the planner works out what the expedition earns and what it costs.

- **Resource records** (`Resources`). `onResourceValue` lifts a per-value
  function over the four resource kinds: fuel, ammo, steel and bauxite.
- **Income modifier engine** (`Income`). `modifierToFunc` turns a
  `standard` modifier (great success and daihatsu count) or a `custom`
  multiplier into a scaling function. That function floors once, after all
  factors are multiplied. `applyIncomeModifier` applies it to a whole
  record.
- **Resupply cost engine** (`Resupply`). `computeResupplyInfo` handles a
  `cost-model` configuration by resolving a fleet composition and folding a
  per-ship-type cost lookup over it. A single unknown cost makes the whole
  cost `null`. A `custom` configuration gives a flat cost instead.
- **Item table** (`Items`). `itemIdToName` maps reward codes to names.
- **Catalog** (`Catalog`). `expedInfoList` builds one record per raw
  dataset entry from the mission master data.
- **Time display** (`TimeFormat`). `formatTime` renders minutes as `hh:mm`.
- **Planner updaters** (`Planner`). These are the state transformers behind
  the "toggle expedition" and "apply preset" buttons.
- **Shared helpers.** `JsNumbers` holds JavaScript's truncating `%` and
  `Math.round`. `FleetCompo` holds the composition types. `Wrappers` holds
  `Option`.

Each operation has a partner definition, and lemmas connect the two:

- The cost fold is matched against an order-free reference, `AllPriced`
  together with `Total`. Its result is shown to be the same for every
  enumeration order.
- `formatTime` has a parser, `ParseTime`, and the round trip is proved.
- The item table has its inverse, `ItemCode`.
- The modifier engine is tied to a single multiplier and to floor bounds,
  monotonicity and the daihatsu cap.
- The planner updaters have double-toggle, commutation, idempotence and
  "discards previous flags" lemmas.

Points where JavaScript semantics matter:

- An unknown modifier type makes `modifierToFunc` log an error and return
  `undefined`. Applying the lifted function then throws a `TypeError`. The
  model gives `None` for the whole record.
- An unknown cost config type makes `computeResupplyInfo` log an error and
  return `undefined`. Calling that result throws a `TypeError`. The model
  gives `None`.
- An unknown item code makes `itemIdToName` log an error and yield
  `undefined`. The model gives `UnknownItem`.
- Scaling an undefined resource value gives `NaN` in the source
  (`Math.floor(undefined * f)`). The model represents that as `None`.
- `Math.round` rounds halves up, which is `floor(x + 0.5)`, rather than away
  from zero.
- `formatTime(59)` is `"00:59"`, because the hour part is 0.

## Model

| member | source | states |
|---|---|---|
| Resources.OnResourceValue | src/exped-info/index.js:14-15 | the result has a value for each of the four kinds, and no other key; each kind `rp` maps to `f(resource[rp], rp, resource)`, where an undefined value is passed as None |
| Resources.OnResourceValueIdentity | src/exped-info/index.js:14-15 | lifting the function that returns each value unchanged gives back any complete record, so nothing is added, dropped or altered |
| Income.Scale | src/exped-info/index.js:21-30 | no ensures of its own; its meaning is stated by `Income.ScaleFloorsOnce` and `Income.StandardIsCombinedFactor` |
| Income.ScaleFloorsOnce | src/exped-info/index.js:21-30 | a standard result is the unique integer `n` with `n <= v*(gsFactor*dlcFactor) < n+1`, which is one floor of the combined product; a custom result is the unique `n` with `n <= v*value < n+1` |
| Income.ModifierToFunc | src/exped-info/index.js:21-32 | there is a function exactly when the modifier type is standard or custom, and it scales every value as `Scale` does (`v*gsFactor*dlcFactor` or `v*value`, floored); an unknown type gives None |
| Income.StandardIsCombinedFactor | src/exped-info/index.js:17-26 | the standard modifier equals the custom modifier whose multiplier is `gsFactor*dlcFactor`, so every factor is applied before the single floor |
| Income.DaihatsuCap | src/exped-info/index.js:25 | any daihatsu count of 4 or more scales every value exactly as 4 does |
| Income.StandardBounds | src/exped-info/index.js:22-26 | for `v >= 0` and `daihatsu >= 0`, `v <= scaled <= floor(1.8*v)`; with no great success and no daihatsu the value is unchanged |
| Income.StandardMonotone | src/exped-info/index.js:22-26 | for `v >= 0`, adding great success or more daihatsu never lowers the scaled value |
| Income.CustomMonotone | src/exped-info/index.js:28-30 | for non-negative values and multipliers, the custom result is monotone in the multiplier and in the value |
| Income.FloorOnceExamples | src/exped-info/index.js:17-26 | with great success and 4 daihatsu, 300 scales to 540 and 3 scales to 5, while flooring after the first factor would give 4 |
| Income.ApplyIncomeModifier | src/exped-info/index.js:34-37 | there is no record exactly for an unknown modifier type; otherwise the record is complete and each present value is scaled; a kind with no value, which the source turns into `NaN`, is None (the source throws a `TypeError` for an unknown type, modelled as None) |
| Income.NeutralModifiers | src/exped-info/index.js:34-37 | `standard` with no bonuses and `custom` with multiplier 1 leave every value of a complete record unchanged |
| Resupply.ComputeResupplyInfo | src/exped-info/index.js:50-83 | unknown type (the source throws a `TypeError` when calling the missing result): None; cost-model: `compo` is `applyWildcard(wildcard)(atLeast(count)(minCompo))` whether or not the cost is known, the cost is non-null iff every pair is priced, and then it is the sum of pair costs; custom: exactly `{fuel, ammo}` with `compo` null |
| Resupply.CostStep | src/exped-info/index.js:60-69 | one reduce step is non-null iff the accumulator is non-null and the pair's lookup succeeds, and then it adds that pair's `fuelCost`/`ammoCost` to the accumulator |
| Resupply.FoldCost | src/exped-info/index.js:58-70 | no ensures of its own; its meaning is stated by `Resupply.FoldMatchesTotal`, `Resupply.FoldNullAbsorbs` and `Resupply.FoldOrderIndependent` |
| Resupply.FoldMatchesTotal | src/exped-info/index.js:58-70 | the reduce from a known accumulator is that accumulator plus the sum of `fuelCost`/`ammoCost` over all pairs when every lookup succeeds, and null otherwise |
| Resupply.FoldNullAbsorbs | src/exped-info/index.js:60-61 | once the accumulator is null, the fold stays null |
| Resupply.UnpricedPairNullifies | src/exped-info/index.js:58-70 | one pair whose lookup returns null makes the cost null, whatever its position and whatever the starting accumulator |
| Resupply.TotalPermutation | src/exped-info/index.js:58-70 | the summed cost of a composition is the same for any reordering of its pairs |
| Resupply.FoldOrderIndependent | src/exped-info/index.js:58-70 | the fold from `{0,0}` gives the same result for any enumeration order of the composition |
| Resupply.CustomCostIgnoresFleet | src/exped-info/index.js:77-81 | a custom cost config gives the same result whatever the expedition, the cost lookup and the composition resolver |
| Items.ItemIdToName | src/exped-info/index.js:85-93 | the result is unknown iff the code is outside {0,1,2,3,10,11,12}, it is "no item" iff the code is 0, and a named reward's code is the code looked up |
| Items.ItemCodeRoundTrip | src/exped-info/index.js:85-93 | every reward's code is a non-zero known code that looks up to that reward |
| Items.LabelInjective | src/exped-info/index.js:87-92 | the reward names bucket, instant-build, dev-mat, coin-small, coin-medium and coin-large are pairwise distinct |
| Catalog.Destructure | src/exped-info/index.js:100-111 | a kind has a value iff the raw array reaches its position (fuel 0, ammo 1, steel 2, bauxite 3), and that value is the array entry; the record is complete iff the array has at least 4 entries |
| Catalog.FromRawItem | src/exped-info/index.js:101-102 | the reward keeps the raw count as `maxCount`; its name is unknown iff the code is unknown, "no item" iff the code is 0, and a named reward's code is the raw code |
| Catalog.MakeExpedInfo | src/exped-info/index.js:95-118 | the record keeps the raw id, the mission's name and time, and `minCompo` is the minimal composition of that id; a kind is present iff the raw array reaches its position, the resources are complete iff the array has at least 4 entries, and each is taken from its position; each reward has the mission item's count as `maxCount` and `itemIdToName` of its code as name; the cost percentages are within half a unit of `100*use`, with halves rounded up |
| Catalog.BuildExpedInfoList | src/exped-info/index.js:95-118 | a list exists iff every raw id has a mission; it then has one record per raw entry, in dataset order, each built from that entry's mission |
| Catalog.CatalogIds | src/exped-info/index.js:95-96 | the catalog's ids are the raw ids position by position, so the two id sets are equal |
| JsNumbers.JsRound | src/exped-info/index.js:106-107 | the result is the integer `r` with `r - 0.5 <= x < r + 0.5` |
| JsNumbers.JsRem | src/exped-info/index.js:121 | `a == trunc(a/b)*b + r` with `abs(r) < b` and `r` taking the dividend's sign |
| TimeFormat.SplitMinutes | src/exped-info/index.js:121-122 | `hh*60 + mm == minutes` and `-60 < mm < 60`; both parts are non-negative for non-negative input and non-positive for non-positive input |
| TimeFormat.PadStart | src/exped-info/index.js:123-124 | the result's length is the larger of `len` and the length of `s`, and it is `s` preceded by copies of the pad character |
| TimeFormat.FormatTime | src/exped-info/index.js:120-126 | no ensures of its own; its meaning is stated by `TimeFormat.FormatTimeFields` (the exact text), `TimeFormat.SplitMinutes` (the parts), `TimeFormat.FormatTimeRoundTrip`, `TimeFormat.FormatTimeShape` and `TimeFormat.FormatTimeExamples` |
| TimeFormat.ClockText | src/exped-info/index.js:123-125 | no ensures of its own; the padding and the join are stated by `TimeFormat.PadStart` and `TimeFormat.ClockTextRoundTrip` |
| TimeFormat.FormatTimeFields | src/exped-info/index.js:120-126 | for `minutes >= 0`, the text is the whole hours `minutes / 60` and the remaining minutes `minutes % 60` (below 60), each zero-padded to two characters and joined by ':' |
| TimeFormat.ClockTextRoundTrip | src/exped-info/index.js:123-125 | two non-negative parts, each zero-padded to two characters and joined by ':', parse back to the `hh*60 + mm` minutes they stand for |
| TimeFormat.FormatTimeRoundTrip | src/exped-info/index.js:120-126 | for `minutes >= 0`, parsing `formatTime(minutes)` back as `hh:mm` gives `minutes` |
| TimeFormat.FormatTimeShape | src/exped-info/index.js:120-126 | for `0 <= minutes < 6000`, the text is exactly five characters with ':' in the middle |
| TimeFormat.FormatTimeExamples | src/exped-info/index.js:120-126 | 125 formats as "02:05", 0 as "00:00" and 59 as "00:59" |
| Planner.ToggleExped | src/ui/planner/control.js:35-41 | the toggled id's flag becomes the negation of its old value, where an absent flag counts as false; the key set gains only that id; every other flag and every other planner field is unchanged |
| Planner.ToggleTwice | src/ui/planner/control.js:39 | toggling twice restores a flag that was defined, and always restores what every flag reads as |
| Planner.ToggleCommutes | src/ui/planner/control.js:35-41 | toggling `a` then `b` gives the same planner as toggling `b` then `a` |
| Planner.ApplyPreset | src/ui/planner/control.js:46-51 | the flag keys are exactly the ids of the list of all expeditions, each flag is on iff its id is in the preset, and the other fields are unchanged |
| Planner.ApplyPresetIdempotent | src/ui/planner/control.js:46-51 | applying the same preset twice gives the same planner as applying it once |
| Planner.ApplyPresetDiscardsFlags | src/ui/planner/control.js:46-51 | the result does not depend on the previous flags; in particular, an earlier toggle is lost |
| Planner.ApplyPresetIgnoresUnlisted | src/ui/planner/control.js:48-50 | two presets that agree on the listed expeditions give the same planner, so ids outside the list have no effect |

## Left out

- The fleet composition resolver (`atLeast`, `applyWildcard`, `minimalFleetCompos`) is not part of this model. It arrives as function parameters, and the model makes no claim about composition sizes or wildcard merging.
- The per-ship cost lookup (`costModelPartial`) is external. It is a function parameter that returns an optional `{fuelCost, ammoCost}`.
- Floating-point behaviour is not modelled. Factors, multipliers and resupply fractions are exact rationals, so IEEE-754 rounding artefacts do not occur.
- Income.StandardIsCombinedFactor: the equality holds only for exact rationals. It is the equality that the source's comment on `modifierToFunc` says fails for doubles: `1.5*1.2` is `1.7999999999999998`, so `Math.floor(1000*(1.5*1.2))` gives 1799, while the code's `Math.floor(1000*1.5*1.2)` gives 1800.
- The mission master data (`$missions`) and the JSON dataset are parameters. Reading the assets is I/O.
- A composition is the ordered sequence of its `(type, count)` pairs, the order `_.toPairs` enumerates. JavaScript's object key ordering rules are not modelled. Order independence of the fold is proved instead.
- Counts, yields and flat costs are integers, and ship types are strings. The source's dynamic values of other JavaScript types are not modelled; for example, `undefined` flags are only modelled as absent keys.
- TimeFormat.FormatTime: for a negative multiple of 60, the source's remainder is negative zero, which lodash prints as "-0". The model's integer remainder prints "00". Negative durations do not occur in the data.
- The React and Redux wiring of the planner control (`connect`, the `modifyPlanner` dispatch, `render`, `_.chunk` layout) is presentation. The list of all expedition ids comes from a file that is not part of this model, so it is a parameter.
- The table view (`src/ui/exped-table.js`) is presentation. Its random configuration generator is demo scaffolding, and its `itemIdToName` and `formatTime` duplicate the modelled ones.
