/** Resource records: the four resource kinds an expedition yields, and
    `onResourceValue`, which lifts a per-value function to a whole record. */
module Resources {

  import opened Wrappers

  datatype ResourceKind = Fuel | Ammo | Steel | Bauxite

  /** The keys of every record `onResourceValue` builds, in the order the
      source enumerates them. */
  const ResourceProperties: seq<ResourceKind> := [Fuel, Ammo, Steel, Bauxite]

  /** Every resource kind is one of the listed properties. */
  lemma EveryKindListed()
    ensures forall k: ResourceKind :: k in ResourceProperties
  {
    forall k: ResourceKind ensures k in ResourceProperties {
      match k
      case Fuel => assert ResourceProperties[0] == k;
      case Ammo => assert ResourceProperties[1] == k;
      case Steel => assert ResourceProperties[2] == k;
      case Bauxite => assert ResourceProperties[3] == k;
    }
  }

  /** A resource record. A key that is absent stands for a property whose
      value is `undefined` in the source. */
  type Record<T> = map<ResourceKind, T>

  /** True iff the record has a value for every resource kind. */
  predicate Complete<T>(r: Record<T>) {
    Fuel in r && Ammo in r && Steel in r && Bauxite in r
  }

  /** A complete record has every resource kind as a key. */
  lemma CompleteHasEveryKind<T>(r: Record<T>)
    requires Complete(r)
    ensures forall k: ResourceKind :: k in r
  {
    forall k: ResourceKind ensures k in r {
      match k
      case Fuel =>
      case Ammo =>
      case Steel =>
      case Bauxite =>
    }
  }

  /** `resource[rp]`: the value under a key, None when it is undefined. */
  function Lookup<T>(r: Record<T>, k: ResourceKind): Option<T> {
    if k in r then Some(r[k]) else None
  }

  /** `onResourceValue(f)(resource)`: a fresh record with exactly the four
      resource keys, each mapped to `f(resource[rp], rp, resource)`. */
  function OnResourceValue<A, B>(f: (Option<A>, ResourceKind, Record<A>) -> B, r: Record<A>): (r': Record<B>)
    ensures Complete(r')
    ensures forall k :: k in r' && r'[k] == f(Lookup(r, k), k, r)
  {
    EveryKindListed();
    map k | k in ResourceProperties :: f(Lookup(r, k), k, r)
  }

  /** Lifting the function that returns each value unchanged gives back a
      complete record: `onResourceValue` neither adds, drops nor alters data. */
  lemma OnResourceValueIdentity<A>(r: Record<A>, default: A)
    requires Complete(r)
    ensures OnResourceValue((v: Option<A>, k: ResourceKind, s: Record<A>) => v.GetOr(default), r) == r
  {
    CompleteHasEveryKind(r);
  }
}
