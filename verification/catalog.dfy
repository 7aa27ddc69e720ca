/** The expedition catalog: one `ExpedInfo` record per raw dataset entry,
    combined with the mission master data (`expedInfoList`). */
module Catalog {

  import opened Wrappers
  import opened Resources
  import opened Items
  import opened FleetCompo
  import opened JsNumbers

  /** A `[code, maxCount]` reward pair of the master data. */
  datatype RawItem = RawItem(code: int, count: int)

  /** The fields of a `$missions` entry the catalog reads. The resupply
      fractions are exact rationals here. */
  datatype Mission = Mission(
    name: string,
    time: int,
    winItem1: RawItem,
    winItem2: RawItem,
    useFuel: real,
    useBull: real)

  /** An entry of the raw expedition dataset: its id and resource array. */
  datatype RawEntry = RawEntry(id: int, resource: seq<int>)

  datatype RewardItem = RewardItem(name: ItemLookup, maxCount: int)

  /** Resupply cost as whole percentages of a ship's capacity. */
  datatype CostPercent = CostPercent(fuelPercent: int, ammoPercent: int)

  datatype ExpedInfo = ExpedInfo(
    id: int,
    name: string,
    time: int,
    resource: Record<int>,
    itemProb: RewardItem,
    itemGS: RewardItem,
    minCompo: Composition,
    cost: CostPercent)

  /** The position of each resource kind in the raw resource array. */
  function Position(k: ResourceKind): nat {
    match k
    case Fuel => 0
    case Ammo => 1
    case Steel => 2
    case Bauxite => 3
  }

  /** The resource record of a raw entry: the first four array positions
      are read as fuel, ammo, steel and bauxite, in that order; a position
      past the end of the array leaves that kind undefined. */
  function Destructure(resource: seq<int>): (r: Record<int>)
    ensures forall k :: k in r <==> Position(k) < |resource|
    ensures forall k :: k in r ==> Position(k) < |resource| && r[k] == resource[Position(k)]
    ensures Complete(r) <==> |resource| >= 4
  {
    EveryKindListed();
    map k | k in ResourceProperties && Position(k) < |resource| :: resource[Position(k)]
  }

  /** A reward of the master data: its code looked up in the item table,
      together with its maximum count. */
  function FromRawItem(raw: RawItem): (r: RewardItem)
    ensures r.maxCount == raw.count
    ensures r.name.UnknownItem? <==> raw.code !in KnownCodes
    ensures r.name.NoItem? <==> raw.code == 0
    ensures r.name.Named? ==> ItemCode(r.name.item) == raw.code
  {
    RewardItem(ItemIdToName(raw.code), raw.count)
  }

  /** The record for one raw entry, given its mission and the table of
      minimal compositions. */
  function MakeExpedInfo(raw: RawEntry, mission: Mission, minCompos: int -> Composition): (e: ExpedInfo)
    ensures e.id == raw.id && e.name == mission.name && e.time == mission.time
    ensures e.minCompo == minCompos(raw.id)
    ensures forall k :: k in e.resource <==> Position(k) < |raw.resource|
    ensures Complete(e.resource) <==> |raw.resource| >= 4
    ensures forall k :: k in e.resource ==>
      Position(k) < |raw.resource| && e.resource[k] == raw.resource[Position(k)]
    ensures e.itemProb.maxCount == mission.winItem1.count && e.itemProb.name == ItemIdToName(mission.winItem1.code)
    ensures e.itemGS.maxCount == mission.winItem2.count && e.itemGS.name == ItemIdToName(mission.winItem2.code)
    ensures e.itemProb.name.UnknownItem? <==> mission.winItem1.code !in KnownCodes
    ensures e.itemGS.name.UnknownItem? <==> mission.winItem2.code !in KnownCodes
    ensures e.cost.fuelPercent as real - 0.5 <= mission.useFuel * 100.0 < e.cost.fuelPercent as real + 0.5
    ensures e.cost.ammoPercent as real - 0.5 <= mission.useBull * 100.0 < e.cost.ammoPercent as real + 0.5
  {
    ExpedInfo(
      raw.id,
      mission.name,
      mission.time,
      Destructure(raw.resource),
      FromRawItem(mission.winItem1),
      FromRawItem(mission.winItem2),
      minCompos(raw.id),
      CostPercent(JsRound(mission.useFuel * 100.0), JsRound(mission.useBull * 100.0)))
  }

  /** `expedInfoList`: the entries in dataset order. Reading a mission that
      the master data lacks fails in the source, so then there is no list. */
  function BuildExpedInfoList(raws: seq<RawEntry>, missions: map<int, Mission>, minCompos: int -> Composition)
    : (r: Option<seq<ExpedInfo>>)
    ensures r.Some? <==> forall i :: 0 <= i < |raws| ==> raws[i].id in missions
    ensures r.Some? ==> |r.value| == |raws|
    ensures r.Some? ==> forall i :: 0 <= i < |raws| ==>
      raws[i].id in missions && r.value[i] == MakeExpedInfo(raws[i], missions[raws[i].id], minCompos)
  {
    if |raws| == 0 then Some([])
    else if raws[0].id !in missions then None
    else
      match BuildExpedInfoList(raws[1..], missions, minCompos)
      case None => None
      case Some(rest) => Some([MakeExpedInfo(raws[0], missions[raws[0].id], minCompos)] + rest)
  }

  /** The catalog holds exactly the dataset's ids, in order, each once per
      raw entry. */
  lemma CatalogIds(raws: seq<RawEntry>, missions: map<int, Mission>, minCompos: int -> Composition)
    requires BuildExpedInfoList(raws, missions, minCompos).Some?
    ensures forall i :: 0 <= i < |raws| ==> BuildExpedInfoList(raws, missions, minCompos).value[i].id == raws[i].id
    ensures (set e | e in BuildExpedInfoList(raws, missions, minCompos).value :: e.id) == (set x | x in raws :: x.id)
  {
    var infos := BuildExpedInfoList(raws, missions, minCompos).value;
    forall x | x in raws ensures x.id in (set e | e in infos :: e.id) {
      var i :| 0 <= i < |raws| && raws[i] == x;
      assert infos[i].id == x.id;
    }
  }
}
