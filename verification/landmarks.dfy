/** Hand landmarks as the detector reports them, and the coordinate
    transformations the classifiers are meant to be insensitive to. */
module Landmarks {

  /** One tracked point of a hand, in normalised camera coordinates.
      Coordinates are exact reals: the classifiers only compare, add,
      subtract, divide by a constant and take absolute values. */
  datatype Landmark = Landmark(x: real, y: real, z: real)

  /** The detector reports this many landmarks per hand
      (0 = wrist, 4 = thumb tip, 5/9/13/17 = finger MCPs, 8/12/16/20 = finger tips). */
  const HandPoints: nat := 21

  predicate IsHand(lm: seq<Landmark>) {
    |lm| == HandPoints
  }

  function Abs(r: real): (a: real)
    ensures 0.0 <= a && (a == r || a == -r)
  {
    if r < 0.0 then -r else r
  }

  /** Every landmark reflected horizontally, x -> 1 - x (a mirrored camera image). */
  function MirrorX(lm: seq<Landmark>): seq<Landmark>
  {
    seq(|lm|, i requires 0 <= i < |lm| => Landmark(1.0 - lm[i].x, lm[i].y, lm[i].z))
  }

  /** Every landmark moved horizontally by the same amount c. */
  function ShiftX(lm: seq<Landmark>, c: real): seq<Landmark>
  {
    seq(|lm|, i requires 0 <= i < |lm| => Landmark(lm[i].x + c, lm[i].y, lm[i].z))
  }

  /** Mirroring twice gives back the original hand. */
  lemma MirrorXInvolution(lm: seq<Landmark>)
    ensures MirrorX(MirrorX(lm)) == lm
  {
  }

  /** Two shifts are one shift by the sum; shifting back undoes a shift. */
  lemma ShiftXCompose(lm: seq<Landmark>, a: real, b: real)
    ensures ShiftX(ShiftX(lm, a), b) == ShiftX(lm, a + b)
    ensures ShiftX(ShiftX(lm, a), -a) == lm
  {
  }
}
