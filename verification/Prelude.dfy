/** Small shared types. */
module Prelude {
  datatype Option<+T> = None | Some(value: T)

  datatype Result<+T, +E> = Ok(value: T) | Err(error: E)

  newtype Byte = b: int | 0 <= b < 256

  type Bytes = seq<Byte>

  function TotalLength(frames: seq<Bytes>): nat {
    if frames == [] then 0 else TotalLength(frames[..|frames| - 1]) + |frames[|frames| - 1]|
  }

  lemma {:induction false} SubsetSize<T>(a: set<T>, b: set<T>)
    requires a <= b
    ensures |a| <= |b|
  {
    if a != {} {
      var x :| x in a;
      SubsetSize(a - {x}, b - {x});
    }
  }

  /** More items than there are values to take: two of them agree. */
  lemma {:induction false} Repeats<T>(xs: seq<T>, values: set<T>) returns (i: nat, j: nat)
    requires |xs| > |values| && forall k :: 0 <= k < |xs| ==> xs[k] in values
    ensures i < j < |xs| && xs[i] == xs[j]
    decreases |xs|
  {
    var n := |xs| - 1;
    if k :| 0 <= k < n && xs[k] == xs[n] {
      i, j := k, n;
    } else {
      i, j := Repeats(xs[..n], values - {xs[n]});
    }
  }
}
