/** The frame callback of djHander/script.js: the module-level transport
    flags, updated in place hand by hand as detection results arrive. */
module Mixer {
  import opened Landmarks
  import opened PoseClassifier
  import opened DeckTransport

  datatype Option<T> = None | Some(value: T)

  /** A detection result: the landmark sets and the handedness labels, each
      of which the detector may leave absent. */
  datatype Results = Results(
    multiHandLandmarks: Option<seq<seq<Landmark>>>,
    multiHandedness: Option<seq<string>>)

  /** What the callback relies on: every landmark set is a full hand, and
      every landmark set has a handedness entry at the same position. */
  predicate WellFormed(results: Results) {
    match (results.multiHandLandmarks, results.multiHandedness)
    case (Some(lms), Some(labels)) =>
      |lms| <= |labels| && forall i :: 0 <= i < |lms| ==> IsHand(lms[i])
    case _ => true
  }

  /** The hands to process: each landmark set paired with the label at its
      index, or none at all when either list is absent. */
  function HandsData(results: Results): (hs: seq<Hand>)
    requires WellFormed(results)
    ensures ValidHands(hs)
    ensures results.multiHandLandmarks.None? || results.multiHandedness.None? ==> hs == []
    ensures results.multiHandLandmarks.Some? && results.multiHandedness.Some? ==>
      && |hs| == |results.multiHandLandmarks.value|
      && forall i :: 0 <= i < |hs| ==>
           hs[i] == Hand(results.multiHandLandmarks.value[i], results.multiHandedness.value[i])
  {
    match (results.multiHandLandmarks, results.multiHandedness)
    case (Some(lms), Some(labels)) => seq(|lms|, i requires 0 <= i < |lms| => Hand(lms[i], labels[i]))
    case _ => []
  }

  class Decks {
    var isPlayer1Playing: bool
    var isPlayer2Playing: bool
    var wasHand1Closed: bool
    var wasHand2Closed: bool
    // The start()/stop() calls issued to the two players so far.
    ghost var log: seq<Command>

    function State(): Transport
      reads this
    {
      Transport(isPlayer1Playing, isPlayer2Playing, wasHand1Closed, wasHand2Closed)
    }

    /** Each playing flag says whether the last call to its player was start(). */
    ghost predicate Valid()
      reads this
    {
      Synced(State(), log)
    }

    /** Both decks stopped, both latches clear, nothing issued yet. */
    constructor ()
      ensures Valid()
      ensures State() == Initial && log == []
    {
      isPlayer1Playing := false;
      isPlayer2Playing := false;
      wasHand1Closed := false;
      wasHand2Closed := false;
      log := [];
    }

    /** The gesture part of onResults: the hands of one detection result,
        each handled in turn by the forEach callback below. */
    method OnResults(results: Results)
      requires Valid() && WellFormed(results)
      modifies this
      ensures Valid()
      ensures State() == Frame(old(State()), HandsData(results)).state
      ensures log == old(log) + Frame(old(State()), HandsData(results)).commands
    {
      var handsData := HandsData(results);
      var i := 0;
      while i < |handsData|
        invariant 0 <= i <= |handsData|
        invariant State() == Frame(old(State()), handsData[..i]).state
        invariant log == old(log) + Frame(old(State()), handsData[..i]).commands
      {
        FramePrefixStep(old(State()), handsData, i);
        OnHand(handsData[i]);
        i := i + 1;
      }
      assert handsData[..i] == handsData;
      FrameKeepsSynced(old(State()), old(log), handsData);
    }

    /** The forEach callback for one hand: a fist toggles that hand's deck
        unless its latch is set, and any raised finger clears the latch. */
    method OnHand(handData: Hand)
      requires IsHand(handData.landmarks)
      modifies this
      ensures old(Valid()) ==> Valid()
      ensures State() == StepHand(old(State()), handData.handedness, DetectFingerPoses(handData.landmarks)).state
      ensures log == old(log) + StepHand(old(State()), handData.handedness, DetectFingerPoses(handData.landmarks)).commands
    {
      var poses := DetectFingerPoses(handData.landmarks);
      if Valid() {
        StepHandKeepsSynced(State(), log, handData.handedness, poses);
      }
      if !poses.indexFingerUp && !poses.middleFingerUp && !poses.ringFingerUp && !poses.pinkyFingerUp {
        if handData.handedness == "Left" {
          if !wasHand2Closed {
            if isPlayer2Playing {
              log := log + [Stop(Deck2)];
              isPlayer2Playing := false;
            } else {
              log := log + [Start(Deck2)];
              isPlayer2Playing := true;
            }
            wasHand2Closed := true;
          }
        } else {
          if !wasHand1Closed {
            if isPlayer1Playing {
              log := log + [Stop(Deck1)];
              isPlayer1Playing := false;
            } else {
              log := log + [Start(Deck1)];
              isPlayer1Playing := true;
            }
            wasHand1Closed := true;
          }
        }
      } else {
        if handData.handedness == "Left" {
          wasHand2Closed := false;
        } else {
          wasHand1Closed := false;
        }
      }
    }
  }
}
