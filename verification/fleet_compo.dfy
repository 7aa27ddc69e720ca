/** Fleet compositions, as the cost engine sees them.

    The composition resolver of the repository (`atLeast`, `applyWildcard`,
    `minimalFleetCompos`) is not part of this model: the operations that use it
    receive it as function parameters. Only the shape of a composition is fixed
    here. A composition in the source is a plain object from ship type to
    count; the cost engine walks it with `_.toPairs`, so the model keeps it as
    the ordered sequence of those (type, count) pairs. */
module FleetCompo {

  import opened Wrappers

  /** A ship-type category such as "DD", "DE", "SS", or the wildcard category. */
  type ShipType = string

  /** The (ship type, count) pairs of a composition, in enumeration order. */
  type Composition = seq<(ShipType, int)>

  /** `atLeast(count)(minCompo)`: the abstract composition of a given size. */
  type AtLeast = (int, Composition) -> Composition

  /** `applyWildcard(wildcard)(abstractCompo)`: the wildcard is either a ship
      type or `false`, modelled as None. */
  type ApplyWildcard = (Option<ShipType>, Composition) -> Composition
}
