/** Python's prefix slice `s[:k]`, with its meaning for a negative `k`, and concatenation facts. */
module Slices {

  /** Concatenation regrouped; the solver needs this spelled out inside inductive proofs over appends. */
  lemma Associative<T>(x: seq<T>, y: seq<T>, z: seq<T>)
    ensures (x + y) + z == x + (y + z)
  {
  }

  /** `s[:k]`: the first `k` elements, or all but the last `-k` when `k` is negative. */
  function Head<T>(s: seq<T>, k: int): (r: seq<T>)
    ensures |r| <= |s| && r == s[..|r|]
    ensures k >= 0 ==> |r| == if k <= |s| then k else |s|
    ensures k < 0 ==> |r| == if -k <= |s| then |s| + k else 0
  {
    if k >= 0 then (if k <= |s| then s[..k] else s)
    else if -k <= |s| then s[..|s| + k] else []
  }
}
