/** Shared vocabulary of the node's query API: optional values, results,
    the FC_ASSERT failures the API raises, and ordered-index searching. */
module Common {

  datatype Option<+T> = None | Some(value: T)

  datatype Result<+T, +E> = Ok(value: T) | Err(error: E)

  /** The FC_ASSERTs of the query API that a caller can trip. */
  datatype ApiError =
    | LimitAboveMaximum   // limit larger than the hard cap of the query
    | InvertedBlockRange  // get_blocks with block_num_to < block_num_from

  /** The hard cap on `limit` shared by the three account-history queries. */
  const MaxHistoryLimit: nat := 100

  function Min(a: nat, b: nat): nat
  {
    if a <= b then a else b
  }

  /** The first n elements of s, or all of s when it is shorter. */
  function Take<T>(s: seq<T>, n: nat): seq<T>
  {
    if n < |s| then s[..n] else s
  }

  /** Moving one element from the front of the rest to the end of the
      prefix leaves the whole unchanged. */
  lemma AppendAssoc<T>(prefix: seq<T>, x: T, rest: seq<T>)
    ensures (prefix + [x]) + rest == prefix + ([x] + rest)
  {
  }

  /** Taking n + 1 elements of x :: s keeps x and n elements of s. */
  lemma TakeCons<T>(x: T, s: seq<T>, n: nat)
    ensures Take([x] + s, n + 1) == [x] + Take(s, n)
  {
    if n < |s| {
      assert ([x] + s)[..n + 1] == [x] + s[..n];
    }
  }

  /** p holds on a prefix of s and fails on the rest: what an ordered index
      guarantees of "key < k" and of "key <= k". */
  predicate Partitioned<T>(s: seq<T>, p: T -> bool)
  {
    forall i, j :: 0 <= i <= j < |s| && p(s[j]) ==> p(s[i])
  }

  /** The position where p stops holding. With p == "key < k" this is the
      index's lower_bound(k); with p == "key <= k" it is upper_bound(k). */
  function PartitionPoint<T>(s: seq<T>, p: T -> bool): (n: nat)
    requires Partitioned(s, p)
    ensures n <= |s|
    ensures forall i :: 0 <= i < n ==> p(s[i])
    ensures forall i :: n <= i < |s| ==> !p(s[i])
  {
    if s == [] || !p(s[0]) then 0 else 1 + PartitionPoint(s[1..], p)
  }

  /** xs can be obtained from ys by deleting elements. */
  predicate IsSubsequence<T(==)>(xs: seq<T>, ys: seq<T>)
    decreases |ys|
  {
    xs == [] ||
    (ys != [] &&
      ((xs[0] == ys[0] && IsSubsequence(xs[1..], ys[1..])) || IsSubsequence(xs, ys[1..])))
  }
}
