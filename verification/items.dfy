/** Reward items: `itemIdToName`, the fixed table from an item code in the
    mission master data to the reward's name. */
module Items {

  datatype ItemName = Bucket | InstantBuild | DevMat | CoinSmall | CoinMedium | CoinLarge

  /** What a code looks up to: code 0 is "no reward" (`null`), an unknown code
      is neither (the source logs it and yields `undefined`). */
  datatype ItemLookup = NoItem | Named(item: ItemName) | UnknownItem

  /** The codes the table knows. */
  const KnownCodes: set<int> := {0, 1, 2, 3, 10, 11, 12}

  /** The name the source gives each reward. */
  function Label(n: ItemName): string {
    match n
    case Bucket => "bucket"
    case InstantBuild => "instant-build"
    case DevMat => "dev-mat"
    case CoinSmall => "coin-small"
    case CoinMedium => "coin-medium"
    case CoinLarge => "coin-large"
  }

  /** The code of each reward: the inverse direction of the table. */
  function ItemCode(n: ItemName): int {
    match n
    case Bucket => 1
    case InstantBuild => 2
    case DevMat => 3
    case CoinSmall => 10
    case CoinMedium => 11
    case CoinLarge => 12
  }

  /** `itemIdToName(x)`. */
  function ItemIdToName(x: int): (r: ItemLookup)
    ensures r.UnknownItem? <==> x !in KnownCodes
    ensures r.NoItem? <==> x == 0
    ensures r.Named? ==> ItemCode(r.item) == x
  {
    if x == 0 then NoItem
    else if x == 1 then Named(Bucket)
    else if x == 2 then Named(InstantBuild)
    else if x == 3 then Named(DevMat)
    else if x == 10 then Named(CoinSmall)
    else if x == 11 then Named(CoinMedium)
    else if x == 12 then Named(CoinLarge)
    else UnknownItem
  }

  /** Every reward's code looks up to that reward, so the table is a
      bijection between the non-zero known codes and the rewards. */
  lemma ItemCodeRoundTrip(n: ItemName)
    ensures ItemCode(n) in KnownCodes - {0}
    ensures ItemIdToName(ItemCode(n)) == Named(n)
  {
  }

  /** Distinct rewards carry distinct names. */
  lemma LabelInjective(a: ItemName, b: ItemName)
    requires Label(a) == Label(b)
    ensures a == b
  {
    match a
    case Bucket => assert Label(b)[0] == 'b';
    case InstantBuild => assert Label(b)[0] == 'i';
    case DevMat => assert Label(b)[0] == 'd';
    case CoinSmall => assert Label(b)[5] == 's';
    case CoinMedium => assert Label(b)[5] == 'm';
    case CoinLarge => assert Label(b)[5] == 'l';
  }
}
