/** Paths as lists of names, from the root of the file system. */
module Paths {
  type Path = seq<string>

  /** `p` is `dir`, or lies somewhere below it. */
  predicate Under(p: Path, dir: Path) {
    dir <= p
  }

  /** `p` stands directly in `dir`. */
  predicate ChildOf(p: Path, dir: Path) {
    |p| == |dir| + 1 && dir <= p
  }

  function Name(p: Path): string {
    if p == [] then "" else p[|p| - 1]
  }
}
