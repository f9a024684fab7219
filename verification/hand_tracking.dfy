/** The finger and thumb tests of the Python prototype (HandTracking1.py),
    and the condition it prints "All fingers are down!" under. */
module HandTracking {
  import opened Landmarks

  /** A finger is up when its tip is strictly higher (smaller y) than its middle joint. */
  predicate IsFingerUp(handLandmarks: seq<Landmark>, fingerTip: nat, fingerMiddle: nat)
    requires fingerTip < |handLandmarks| && fingerMiddle < |handLandmarks|
  {
    handLandmarks[fingerTip].y < handLandmarks[fingerMiddle].y
  }

  /** The thumb is out when its tip (4) is more than 0.05 away, horizontally,
      from its MCP joint (2). */
  predicate IsThumbOut(handLandmarks: seq<Landmark>)
    requires IsHand(handLandmarks)
  {
    Abs(handLandmarks[4].x - handLandmarks[2].x) > 0.05
  }

  /** The label drawn for a hand: the detector's category name, swapped. */
  function CorrectedHandedness(categoryName: string): (r: string)
    ensures r == "Left" || r == "Right"
    ensures r == "Right" <==> categoryName == "Left"
  {
    if categoryName == "Left" then "Right" else "Left"
  }

  /** The four finger flags computed per hand. */
  datatype FingerStates = FingerStates(indexUp: bool, middleUp: bool, ringUp: bool, pinkyUp: bool)

  function FingerStatesOf(handLandmarks: seq<Landmark>): FingerStates
    requires IsHand(handLandmarks)
  {
    FingerStates(
      IsFingerUp(handLandmarks, 8, 6),
      IsFingerUp(handLandmarks, 12, 10),
      IsFingerUp(handLandmarks, 16, 14),
      IsFingerUp(handLandmarks, 20, 19))  // the pinky is measured against its DIP joint
  }

  /** Python's & on two booleans. */
  function BitAnd(a: bool, b: bool): bool {
    a && b
  }

  /** The all-down test as the prototype writes it: four comparisons with
      False joined by &. Python's & binds tighter than ==, so the line is one
      comparison chain over five operands (the pinky flag, False & ring,
      False & middle, False & index, False), which holds when every adjacent
      pair is equal. */
  predicate AllDownAsWritten(s: FingerStates) {
    && s.pinkyUp == BitAnd(false, s.ringUp)
    && BitAnd(false, s.ringUp) == BitAnd(false, s.middleUp)
    && BitAnd(false, s.middleUp) == BitAnd(false, s.indexUp)
    && BitAnd(false, s.indexUp) == false
  }

  /** The all-down condition as intended: none of the four fingers is up. */
  predicate AllFingersDown(s: FingerStates) {
    !s.indexUp && !s.middleUp && !s.ringUp && !s.pinkyUp
  }

  /** The as-written condition only looks at the pinky. */
  lemma AllDownAsWrittenIsPinkyDown(s: FingerStates)
    ensures AllDownAsWritten(s) <==> !s.pinkyUp
  {
  }

  /** An open hand with only the pinky folded passes the as-written test. */
  lemma AllDownAsWrittenAcceptsOpenHand()
    ensures var s := FingerStates(true, true, true, false);
            AllDownAsWritten(s) && !AllFingersDown(s)
  {
  }

  /** Whenever the intended condition holds, the as-written one does too. */
  lemma AllFingersDownMeansNoFingerUp(s: FingerStates)
    ensures AllFingersDown(s) ==> AllDownAsWritten(s)
  {
  }

  /** Equal heights count as down. */
  lemma FingerUpIsStrict(handLandmarks: seq<Landmark>, fingerTip: nat, fingerMiddle: nat)
    requires fingerTip < |handLandmarks| && fingerMiddle < |handLandmarks|
    requires handLandmarks[fingerTip].y == handLandmarks[fingerMiddle].y
    ensures !IsFingerUp(handLandmarks, fingerTip, fingerMiddle)
  {
  }

  /** Each flag reads only the y of its own tip and middle joint: for the
      pinky that is landmarks 20 and 19 (its DIP), not 18 (its PIP). */
  lemma FingerStatesReadOnly(lm: seq<Landmark>, lm': seq<Landmark>)
    requires IsHand(lm) && IsHand(lm')
    requires forall i :: i in {6, 8, 10, 12, 14, 16, 19, 20} ==> lm'[i].y == lm[i].y
    ensures FingerStatesOf(lm') == FingerStatesOf(lm)
  {
  }

  /** The thumb test reads only the x of landmarks 2 and 4, and does not
      change under the mirror x -> 1 - x. */
  lemma ThumbOutReadsOnlyAndMirror(lm: seq<Landmark>, lm': seq<Landmark>)
    requires IsHand(lm) && IsHand(lm')
    requires lm'[2].x == lm[2].x && lm'[4].x == lm[4].x
    ensures IsThumbOut(lm') == IsThumbOut(lm)
    ensures IsThumbOut(MirrorX(lm)) == IsThumbOut(lm)
  {
    var m := MirrorX(lm);
    assert m[4].x - m[2].x == -(lm[4].x - lm[2].x);
  }

  /** Swapping twice gives back either detector label. */
  lemma CorrectedHandednessSwapsBack(categoryName: string)
    requires categoryName == "Left" || categoryName == "Right"
    ensures CorrectedHandedness(CorrectedHandedness(categoryName)) == categoryName
  {
  }

  /** Any name other than "Left", including "Right", is drawn as "Left". */
  lemma CorrectedHandednessDefaultsToLeft(categoryName: string)
    requires categoryName != "Left"
    ensures CorrectedHandedness(categoryName) == "Left"
  {
  }

  /** What the per-hand loop reports: each finger that is down, whether
      "All fingers are down!" is printed (the test as written), whether all
      four really are down (the test as intended), and whether the thumb is in. */
  datatype Report = Report(
    indexDown: bool, middleDown: bool, ringDown: bool, pinkyDown: bool,
    allDown: bool, allDownIntended: bool, thumbIn: bool)

  function HandReport(handLandmarks: seq<Landmark>): (r: Report)
    requires IsHand(handLandmarks)
    ensures r.indexDown <==> handLandmarks[8].y >= handLandmarks[6].y
    ensures r.middleDown <==> handLandmarks[12].y >= handLandmarks[10].y
    ensures r.ringDown <==> handLandmarks[16].y >= handLandmarks[14].y
    ensures r.pinkyDown <==> handLandmarks[20].y >= handLandmarks[19].y
    ensures r.allDown <==> r.pinkyDown
    ensures r.allDownIntended <==> r.indexDown && r.middleDown && r.ringDown && r.pinkyDown
    ensures r.thumbIn <==> -0.05 <= handLandmarks[4].x - handLandmarks[2].x <= 0.05
  {
    var s := FingerStatesOf(handLandmarks);
    Report(!s.indexUp, !s.middleUp, !s.ringUp, !s.pinkyUp,
           AllDownAsWritten(s), AllFingersDown(s), !IsThumbOut(handLandmarks))
  }
}
