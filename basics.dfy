/**
 * Small general-purpose definitions the other modules share: an optional
 * value (a JavaScript field that may be absent) and the two projections of
 * a sequence of pairs.
 */
module Basics {

  datatype Option<+T> = None | Some(value: T) {
    /** `x ?? default`, for a value that is either present or absent. */
    function GetOr(default: T): (v: T) {
      match this
      case Some(v) => v
      case None => default
    }
  }

  /** The first components of a sequence of pairs, in order. */
  function Firsts<A, B>(ps: seq<(A, B)>): (xs: seq<A>)
    ensures |xs| == |ps| && forall i :: 0 <= i < |ps| ==> xs[i] == ps[i].0
  {
    seq(|ps|, i requires 0 <= i < |ps| => ps[i].0)
  }

  /** The second components of a sequence of pairs, in order. */
  function Seconds<A, B>(ps: seq<(A, B)>): (bs: seq<B>)
    ensures |bs| == |ps| && forall i :: 0 <= i < |ps| ==> bs[i] == ps[i].1
  {
    seq(|ps|, i requires 0 <= i < |ps| => ps[i].1)
  }

  lemma SecondsAppend<A, B>(a: seq<(A, B)>, b: seq<(A, B)>)
    ensures Seconds(a + b) == Seconds(a) + Seconds(b)
  {
  }
}
