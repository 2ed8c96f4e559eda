/** The Euclidean distance between analysis vectors, in the two variants
    the program has: recommend.rs answers `f32::MAX` when the lengths
    differ, server.rs answers NaN. A distance is kept as its square
    (`sqrt` is monotone, so ordering by the square is ordering by the
    distance); f32 arithmetic is taken to be exact. */
module Distances {
  import opened Wrappers

  const F32Max: real := 340282346638528859811704183484516925440.0

  /** A distance: the square root of `squared`, or `f32::MAX`. */
  datatype Distance = Euclid(squared: real) | MaxF32

  /** The square of the distance, which orders distances. */
  function Rank(d: Distance): real {
    match d
    case Euclid(sq) => sq
    case MaxF32 => F32Max * F32Max
  }

  /** Sum over the positions of `(a[i] - b[i])^2`. */
  function SumSquares(a: seq<real>, b: seq<real>): (r: real)
    requires |a| == |b|
    ensures r >= 0.0
  {
    if a == [] then 0.0
    else SumSquares(a[..|a| - 1], b[..|b| - 1]) + (a[|a| - 1] - b[|b| - 1]) * (a[|a| - 1] - b[|b| - 1])
  }

  /** `recommend::euclidean_distance`. */
  function EuclideanDistance(a: seq<real>, b: seq<real>): (d: Distance)
    ensures d.MaxF32? <==> |a| != |b|
  {
    if |a| != |b| then MaxF32 else Euclid(SumSquares(a, b))
  }

  /** `server::euclidean_distance`; `None` stands for NaN. */
  function ServerDistance(a: seq<real>, b: seq<real>): (d: Option<real>)
    ensures d.None? <==> |a| != |b|
  {
    if |a| != |b| then None else Some(SumSquares(a, b))
  }

  /** The two variants agree wherever the lengths match. */
  lemma DistanceVariantsAgree(a: seq<real>, b: seq<real>)
    requires |a| == |b|
    ensures ServerDistance(a, b) == Some(Rank(EuclideanDistance(a, b)))
  {
  }

  /** A vector is at distance 0 from itself (test_euclidean_distance_same). */
  lemma {:induction false} DistanceToSelf(a: seq<real>)
    ensures SumSquares(a, a) == 0.0
    ensures EuclideanDistance(a, a) == Euclid(0.0)
  {
    if a != [] {
      DistanceToSelf(a[..|a| - 1]);
    }
  }

  /** The distance is symmetric. */
  lemma {:induction false} DistanceSymmetric(a: seq<real>, b: seq<real>)
    requires |a| == |b|
    ensures SumSquares(a, b) == SumSquares(b, a)
  {
    if a != [] {
      DistanceSymmetric(a[..|a| - 1], b[..|b| - 1]);
    }
  }

  /** test_euclidean_distance: (0,0,0) to (3,4,0) is 5. */
  lemma ThreeFourFive()
    ensures EuclideanDistance([0.0, 0.0, 0.0], [3.0, 4.0, 0.0]) == Euclid(5.0 * 5.0)
  {
    assert [0.0, 0.0, 0.0][..2] == [0.0, 0.0] && [3.0, 4.0, 0.0][..2] == [3.0, 4.0];
    assert [0.0, 0.0][..1] == [0.0] && [3.0, 4.0][..1] == [3.0];
    assert [0.0][..0] == [] && [3.0][..0] == [];
  }
}
