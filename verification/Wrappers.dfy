// What several components share.
module Wrappers {
  datatype Option<T> = None | Some(value: T)
}

// Positions on the canvas and in the footprint: struct coord (eda/fped/coord.h).
module Coords {
  datatype Coord = Coord(x: int, y: int)
}

// Conditions with many parts are kept folded up: they stand behind a quantifier over one of these, and are
// looked into only where it is asked for.
module Folding {
  predicate Unfold(k: int) { true }

  // The same, for conditions to be looked into apart from the others.
  predicate Look(k: int) { true }
}
