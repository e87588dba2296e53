/** Small shared vocabulary: an optional value and duplicate-free sequences. */
module Util {

  /** A value that may be absent (a missing dictionary key, a call that raised). */
  datatype Option<T> = None | Some(value: T)

  /** No element occurs twice in s: none occurs among those before it. */
  ghost predicate Distinct<T>(s: seq<T>)
  {
    forall i, j | 0 <= i < j < |s| :: s[i] != s[j]
  }

  /** Dropping the last element keeps a sequence duplicate-free, and that element was not among the rest. */
  lemma DistinctPrefix<T>(s: seq<T>)
    requires Distinct(s) && s != []
    ensures Distinct(s[..|s| - 1]) && s[|s| - 1] !in s[..|s| - 1]
  {
    var n := |s| - 1;
    assert forall i | 0 <= i < n :: s[..n][i] == s[i];
  }
}
