/** Datatypes, a constant and a few facts that several modules share. */
module Common {
  datatype Option<+T> = None | Some(value: T) {
    function GetOr(default: T): T { if Some? then value else default }
  }

  /** A call that returns nothing but an error. */
  datatype Outcome<+E> = Pass | Fail(error: E)

  /** The segments of a path; those of the root, or of the base directory, are []. */
  type Path = seq<string>

  /** At dir or somewhere below it. */
  predicate Under(dir: Path, p: Path) { |dir| <= |p| && p[..|dir|] == dir }

  /** In nanoseconds. */
  const MINUTE := 60_000_000_000

  lemma AllButLast<T>(s: seq<T>)
    requires s != []
    ensures s[..|s| - 1] + [s[|s| - 1]] == s
  {}

  lemma MulMonotone(x: int, y: int, b: int)
    requires x <= y && 0 <= b
    ensures x * b <= y * b
  {}
}
