/** What several components share: a value that may be missing, clipping a string, and the size of a subset. */
module Wrappers {
  datatype Option<+T> = None | Some(value: T)

  /** The first `max` bytes. */
  function Truncate(s: string, max: nat): (r: string)
    ensures |r| <= max && r <= s
  {
    if |s| <= max then s else s[..max]
  }

  lemma SubsetSize<T>(a: set<T>, b: set<T>)
    requires a <= b
    ensures |a| <= |b|
  {
    assert a + (b - a) == b;
  }
}
