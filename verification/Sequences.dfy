/** Searching a sequence, and sequences without repetition. */
module Sequences {
  import opened Wrappers

  /** The first place of x at or after a position. */
  function Find<T(==)>(s: seq<T>, x: T, from: nat): (r: Option<nat>)
    requires from <= |s|
    ensures match r
            case Some(i) => from <= i < |s| && s[i] == x && forall j | from <= j < i :: s[j] != x
            case None => forall j | from <= j < |s| :: s[j] != x
    decreases |s| - from
  {
    if from == |s| then None else if s[from] == x then Some(from) else Find(s, x, from + 1)
  }

  predicate Distinct<T(==)>(s: seq<T>) {
    forall i, j | 0 <= i < j < |s| :: s[i] != s[j]
  }
}
