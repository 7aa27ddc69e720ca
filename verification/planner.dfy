/** The planner-state updaters of the planner control panel: toggling one
    expedition's flag, and applying a preset of expedition ids. Both are pure
    `planner => planner'` transformers; the fields of the planner state other
    than `expedFlags` are kept as an opaque part `rest`. */
module Planner {

  datatype Planner<R> = Planner(expedFlags: map<int, bool>, rest: R)

  /** `planner.expedFlags[id]` read as a boolean: an absent flag is off. */
  function FlagOf(flags: map<int, bool>, id: int): bool {
    id in flags && flags[id]
  }

  /** The updater of `handleToggleExped(id)`: the flag of `id` becomes
      `!expedFlags[id]`; nothing else changes. */
  function ToggleExped<R>(id: int, p: Planner<R>): (p': Planner<R>)
    ensures p'.rest == p.rest
    ensures p'.expedFlags.Keys == p.expedFlags.Keys + {id}
    ensures p'.expedFlags[id] == !FlagOf(p.expedFlags, id)
    ensures forall j :: j != id ==> FlagOf(p'.expedFlags, j) == FlagOf(p.expedFlags, j)
    ensures forall j :: j != id && j in p.expedFlags ==> p'.expedFlags[j] == p.expedFlags[j]
  {
    p.(expedFlags := p.expedFlags[id := !FlagOf(p.expedFlags, id)])
  }

  /** Toggling twice restores a flag that was set, and in every case restores
      what the flags read as. */
  lemma ToggleTwice<R>(id: int, p: Planner<R>)
    ensures forall j :: FlagOf(ToggleExped(id, ToggleExped(id, p)).expedFlags, j) == FlagOf(p.expedFlags, j)
    ensures id in p.expedFlags ==> ToggleExped(id, ToggleExped(id, p)) == p
  {
    var q := ToggleExped(id, ToggleExped(id, p));
    if id in p.expedFlags {
      assert q.expedFlags == p.expedFlags;
    }
  }

  /** Toggles of two expeditions commute: the order of clicks does not matter. */
  lemma ToggleCommutes<R>(a: int, b: int, p: Planner<R>)
    ensures ToggleExped(a, ToggleExped(b, p)) == ToggleExped(b, ToggleExped(a, p))
  {
    if a != b {
      var x := ToggleExped(a, ToggleExped(b, p)).expedFlags;
      var y := ToggleExped(b, ToggleExped(a, p)).expedFlags;
      assert x == y;
    }
  }

  /** The updater of `handleApplyPreset(ids)`: the flags become exactly one
      per id of `allIds` (the list of all expeditions), on iff the id is in
      the preset. */
  function ApplyPreset<R>(ids: seq<int>, allIds: seq<int>, p: Planner<R>): (p': Planner<R>)
    ensures p'.rest == p.rest
    ensures forall id :: id in p'.expedFlags <==> id in allIds
    ensures forall id :: id in p'.expedFlags ==> (p'.expedFlags[id] <==> id in ids)
  {
    p.(expedFlags := map id | id in allIds :: id in ids)
  }

  /** Applying a preset twice is applying it once. */
  lemma ApplyPresetIdempotent<R>(ids: seq<int>, allIds: seq<int>, p: Planner<R>)
    ensures ApplyPreset(ids, allIds, ApplyPreset(ids, allIds, p)) == ApplyPreset(ids, allIds, p)
  {
  }

  /** A preset discards the previous flags: the result does not depend on
      them, so earlier toggles are lost. */
  lemma ApplyPresetDiscardsFlags<R>(ids: seq<int>, allIds: seq<int>, p: Planner<R>, flags: map<int, bool>, id: int)
    ensures ApplyPreset(ids, allIds, p.(expedFlags := flags)) == ApplyPreset(ids, allIds, p)
    ensures ApplyPreset(ids, allIds, ToggleExped(id, p)) == ApplyPreset(ids, allIds, p)
  {
  }

  /** Ids of the preset outside the list of all expeditions are ignored:
      two presets that agree on the listed ids give the same planner. */
  lemma ApplyPresetIgnoresUnlisted<R>(ids1: seq<int>, ids2: seq<int>, allIds: seq<int>, p: Planner<R>)
    requires forall id :: id in allIds ==> (id in ids1 <==> id in ids2)
    ensures ApplyPreset(ids1, allIds, p) == ApplyPreset(ids2, allIds, p)
  {
    var m1, m2 := ApplyPreset(ids1, allIds, p).expedFlags, ApplyPreset(ids2, allIds, p).expedFlags;
    assert m1.Keys == m2.Keys;
    assert forall id :: id in m1 ==> m1[id] == m2[id];
    assert m1 == m2;
  }
}
