// The three-level dirtiness lattice used on nodes and on sink bindings (src/core/dirty.rs),
// and the two levels a notification can carry (`DirtyLevel` in src/core.rs).
module DirtyLattice {
  datatype Dirty = Clean | MaybeDirty | Dirty

  datatype DirtyLevel = MaybeLevel | DirtyLevel

  function FromIsDirty(isDirty: bool): Dirty {
    if isDirty then Dirty else Clean
  }

  function FromLevel(level: DirtyLevel): Dirty {
    match level
    case MaybeLevel => MaybeDirty
    case DirtyLevel => Dirty
  }

  /** The level passed on by a node that compares its new value with its old one. */
  function MaybeIf(level: DirtyLevel, isCheck: bool): DirtyLevel {
    if isCheck then MaybeLevel else level
  }

  /** Position in the order Clean < MaybeDirty < Dirty. */
  function Rank(d: Dirty): nat {
    match d
    case Clean => 0
    case MaybeDirty => 1
    case Dirty => 2
  }

  /** `Dirty::apply_notify`: the larger of the mark and the level. */
  function RaiseTo(d: Dirty, level: DirtyLevel): (r: Dirty)
    ensures Rank(d) <= Rank(r) && Rank(FromLevel(level)) <= Rank(r)
    ensures r == d || r == FromLevel(level)
  {
    if Rank(d) < Rank(FromLevel(level)) then FromLevel(level) else d
  }
}
