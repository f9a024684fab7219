/** The pose classifier of djHander/script.js: which fingers are up and
    whether the thumb is out, computed from one set of hand landmarks. */
module PoseClassifier {
  import opened Landmarks

  /** The five landmark indices of one finger, base (wrist) first, tip last. */
  datatype FingerIndices = FingerIndices(base: nat, mcp: nat, pip: nat, dip: nat, tip: nat)

  // The tuples detectFingerPoses declares. Thumb is declared there too but
  // never read: the thumb is classified by IsThumbOut instead.
  const Thumb := FingerIndices(0, 1, 2, 3, 4)
  const IndexFinger := FingerIndices(0, 5, 6, 7, 8)
  const MiddleFinger := FingerIndices(0, 9, 10, 11, 12)
  const RingFinger := FingerIndices(0, 13, 14, 15, 16)
  const PinkyFinger := FingerIndices(0, 17, 18, 19, 20)

  /** The pose descriptor returned by detectFingerPoses. */
  datatype FingerPoses = FingerPoses(
    thumbOut: bool,
    indexFingerUp: bool,
    middleFingerUp: bool,
    ringFingerUp: bool,
    pinkyFingerUp: bool)

  /** The landmarks isFingerUp actually reads exist (pip and dip are never read). */
  predicate ReadsWithin(lm: seq<Landmark>, f: FingerIndices) {
    f.base < |lm| && f.mcp < |lm| && f.tip < |lm|
  }

  /** A finger is up when its tip is strictly higher (smaller y) than both
      its MCP joint and its base. */
  predicate IsFingerUp(lm: seq<Landmark>, f: FingerIndices)
    requires ReadsWithin(lm, f)
  {
    lm[f.tip].y < lm[f.mcp].y && lm[f.tip].y < lm[f.base].y
  }

  function AverageMcpX(lm: seq<Landmark>): real
    requires IsHand(lm)
  {
    (lm[5].x + lm[9].x + lm[13].x + lm[17].x) / 4.0
  }

  /** The thumb is out when its tip is more than 0.1 away, horizontally,
      from the mean x of the four finger MCP joints. */
  predicate IsThumbOut(lm: seq<Landmark>)
    requires IsHand(lm)
  {
    Abs(lm[4].x - AverageMcpX(lm)) > 0.1
  }

  function DetectFingerPoses(lm: seq<Landmark>): FingerPoses
    requires IsHand(lm)
  {
    FingerPoses(
      IsThumbOut(lm),
      IsFingerUp(lm, IndexFinger),
      IsFingerUp(lm, MiddleFinger),
      IsFingerUp(lm, RingFinger),
      IsFingerUp(lm, PinkyFinger))
  }

  /** The fist condition of onResults: no finger other than the thumb is up. */
  predicate AllFingersDown(p: FingerPoses) {
    !p.indexFingerUp && !p.middleFingerUp && !p.ringFingerUp && !p.pinkyFingerUp
  }

  function Min(a: real, b: real): real {
    if a <= b then a else b
  }

  /** Up means strictly above the higher-placed (smaller y) of the MCP joint
      and the base; a tip level with either joint counts as down. */
  lemma FingerUpIffAboveHigherJoint(lm: seq<Landmark>, f: FingerIndices)
    requires ReadsWithin(lm, f)
    ensures IsFingerUp(lm, f) <==> lm[f.tip].y < Min(lm[f.mcp].y, lm[f.base].y)
    ensures lm[f.tip].y == lm[f.mcp].y || lm[f.tip].y == lm[f.base].y ==> !IsFingerUp(lm, f)
  {
  }

  /** Only the y of base, MCP and tip matter: the pip and dip entries of the
      tuple, every x and z, and every other landmark are ignored. */
  lemma FingerUpReadsOnlyBaseMcpTipY(lm: seq<Landmark>, lm': seq<Landmark>,
                                     f: FingerIndices, pip: nat, dip: nat)
    requires ReadsWithin(lm, f) && ReadsWithin(lm', f)
    requires lm'[f.base].y == lm[f.base].y && lm'[f.mcp].y == lm[f.mcp].y && lm'[f.tip].y == lm[f.tip].y
    ensures IsFingerUp(lm', FingerIndices(f.base, f.mcp, pip, dip, f.tip)) == IsFingerUp(lm, f)
  {
  }

  /** Which landmarks the descriptor depends on: the y of the wrist and of the
      four MCP/tip pairs for the fingers, the x of the thumb tip and the four
      MCPs for the thumb. Nothing else (in particular no y of a PIP or DIP
      joint, and nothing of landmarks 1 to 3) can change the result. */
  lemma PosesReadOnly(lm: seq<Landmark>, lm': seq<Landmark>)
    requires IsHand(lm) && IsHand(lm')
    requires forall i :: i in {0, 5, 8, 9, 12, 13, 16, 17, 20} ==> lm'[i].y == lm[i].y
    requires forall i :: i in {4, 5, 9, 13, 17} ==> lm'[i].x == lm[i].x
    ensures DetectFingerPoses(lm') == DetectFingerPoses(lm)
  {
  }

  /** Mirroring the hand horizontally changes no flag: fingers read only y,
      and the thumb test measures a distance along x. */
  lemma PosesMirrorInvariant(lm: seq<Landmark>)
    requires IsHand(lm)
    ensures DetectFingerPoses(MirrorX(lm)) == DetectFingerPoses(lm)
  {
    var m := MirrorX(lm);
    assert AverageMcpX(m) == 1.0 - AverageMcpX(lm);
    assert m[4].x - AverageMcpX(m) == -(lm[4].x - AverageMcpX(lm));
  }

  /** Moving the whole hand sideways changes no flag. */
  lemma PosesShiftInvariant(lm: seq<Landmark>, c: real)
    requires IsHand(lm)
    ensures DetectFingerPoses(ShiftX(lm, c)) == DetectFingerPoses(lm)
  {
    var m := ShiftX(lm, c);
    assert AverageMcpX(m) == AverageMcpX(lm) + c;
  }

  /** The thumb test is symmetric: a tip 0.1 or less either side of the mean
      MCP x is in, beyond that on either side it is out. */
  lemma ThumbOutEitherSide(lm: seq<Landmark>)
    requires IsHand(lm)
    ensures IsThumbOut(lm) <==> (lm[4].x > AverageMcpX(lm) + 0.1 || lm[4].x < AverageMcpX(lm) - 0.1)
  {
  }
}
