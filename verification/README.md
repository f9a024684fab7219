# HanDJ gesture core in Dafny

HanDJ plays two audio decks and controls them with hand gestures. A hand
detector reports, per camera frame, a 21-point landmark set and a handedness
label for each hand. This project models the decision logic that turns those
frames into `start()` and `stop()` calls on the two players:

- `landmarks.dfy` (module `Landmarks`): a landmark as three exact real
  coordinates, the 21-point hand, and the horizontal mirror and shift of a
  hand.
- `pose_classifier.dfy` (module `PoseClassifier`): `isFingerUp`,
  `isThumbOut` and `detectFingerPoses` of `djHander/script.js` as
  predicates and functions.
- `deck_transport.dfy` (module `DeckTransport`): the fist-toggle latch of
  `onResults` as a pure step function over the four module-level flags.
  `StepHand` handles one hand, `Frame` one detection result, and `Run` a
  session of frames. The start/stop calls are returned as a command list.
  The lemmas state the debounce (one toggle per continuous fist hold), the
  re-arm on an open hand, the crossed hand-to-deck mapping, and that each
  playing flag equals "the last call to that player was `start()`".
- `decks.dfy` (module `Mixer`): the same logic in the form the script has.
  The class `Decks` holds the four flags, updated in place. A ghost command
  log records every `start()`/`stop()` call. `OnResults` loops over the hands
  of a detection result and is proved equal to `Frame`. It keeps the
  invariant that the flags agree with the log.
- `hand_tracking.dfy` (module `HandTracking`): the Python prototype's
  `is_finger_up`, `is_thumb_out` and `corrected_handedness`, its per-hand
  finger, all-down and thumb tests, and the operator-precedence slip in its
  all-down test (see Findings).

Landmark coordinates are exact `real`s. The tests only compare, add, subtract,
divide by 4 and take absolute values, so over the reals they are exact; the
programs themselves compute in binary floating point, where the sum, the
differences and `1 - x` round (see "## Left out").

## Model

| member | source | states |
|---|---|---|
| `PoseClassifier.FingerUpIffAboveHigherJoint` | djHander/script.js:32-35 | a finger is up iff its tip's y is strictly less than both the MCP's and the base's y (the smaller of the two); a tip level with either joint is down |
| `PoseClassifier.FingerUpReadsOnlyBaseMcpTipY` | djHander/script.js:32-35 | the result depends only on the y of base, MCP and tip; the pip and dip entries of the index tuple, every x and z, and all other landmarks are ignored |
| `PoseClassifier.ThumbOutEitherSide` | djHander/script.js:37-47 | the thumb is out iff its tip's x lies more than 0.1 to either side of the mean x of landmarks 5, 9, 13 and 17 (strict on both sides) |
| `PoseClassifier.PosesReadOnly` | djHander/script.js:50-69 | the pose descriptor depends only on the y of landmarks 0, 5, 8, 9, 12, 13, 16, 17, 20 and the x of landmarks 4, 5, 9, 13, 17; the wrist is the base of every finger, and the unused thumb tuple (landmarks 1-3) plays no part |
| `PoseClassifier.PosesMirrorInvariant` | djHander/script.js:37-69 | mirroring every x to 1 - x leaves all five flags unchanged |
| `PoseClassifier.PosesShiftInvariant` | djHander/script.js:37-69 | shifting every x by the same constant leaves all five flags unchanged |
| `DeckTransport.StepHand` | djHander/script.js:109-140 | for one hand: a fist with the latch clear issues exactly one call (`stop` if its deck was playing, `start` otherwise), flips the playing flag and sets the latch; a fist with the latch set changes nothing; a raised finger clears the latch and issues nothing; label "Left" touches only deck 2 and any other label only deck 1 |
| `DeckTransport.Frame` | djHander/script.js:86-141 | processing a frame's hands in order issues at most one call per hand |
| `DeckTransport.StepHandKeepsSynced` | djHander/script.js:113-131 | one hand's step keeps each playing flag equal to "the last call to that player was start()" |
| `DeckTransport.FrameKeepsSynced` | djHander/script.js:86-141 | a whole frame keeps each playing flag equal to "the last call to that player was start()" |
| `DeckTransport.RunKeepsSynced` | djHander/script.js:86-141 | a whole session keeps each playing flag equal to "the last call to that player was start()" |
| `DeckTransport.SessionSynced` | djHander/script.js:27-30 | from the initial state (both stopped, both latches clear), after any session, each deck is playing exactly when its last call was `start()` |
| `DeckTransport.FrameFistToggle` | djHander/script.js:109-133 | in a frame where all of deck d's hands are fists, deck d toggles exactly once if its latch was clear and one of its hands is present; otherwise deck d's flags and calls are unchanged, so a frame without a hand for d leaves d alone |
| `DeckTransport.HeldFistTogglesOnce` | djHander/script.js:109-133 | over any run of frames in which deck d's hands are always fists, deck d receives exactly one call if its latch was clear and its hand appears at all, and none otherwise |
| `DeckTransport.HoldTogglesOnFirstFrame` | djHander/script.js:111-133 | the single toggle of a hold is issued on the hold's first frame; the later frames of the hold issue nothing to that deck |
| `DeckTransport.OpenHandRearms` | djHander/script.js:134-140 | a frame in which deck d's hands all have a finger up issues nothing to d and keeps its playing flag; it clears d's latch if such a hand is present and leaves the latch as it was if none is |
| `DeckTransport.CloseOpenClose` | djHander/script.js:109-140 | a fist hold, an open frame, then another hold give deck d exactly two calls, the toggle and its reverse; from a stopped deck these are `start()` then `stop()` |
| `DeckTransport.RightFistSession` | djHander/script.js:86-141 | from the initial state, a right-hand fist held for eleven frames, opened for one and closed again gives deck 1 `start()` then `stop()` and deck 2 nothing |
| `DeckTransport.StepHandReadsOnlyFist` | djHander/script.js:109 | a hand's step depends on its poses only through "all four fingers down"; the thumb flag never matters |
| `DeckTransport.FrameIgnoresThumb` | djHander/script.js:93-140 | two frames whose hands have the same labels and the same finger heights (y of landmarks 0, 5, 8, 9, 12, 13, 16, 17, 20) leave the same flags and issue the same calls, whatever the thumbs and all x coordinates do |
| `Mixer.HandsData` | djHander/script.js:80-84 | each landmark set is paired with the handedness label at the same index; when either list is absent there are no hands |
| `Mixer.Decks.constructor` | djHander/script.js:27-30 | both players stopped, both latches clear, no call issued |
| `Mixer.Decks.OnHand` | djHander/script.js:93-140 | the in-place update of the four flags and the logged call for one hand are exactly those of `StepHand`, and if each playing flag equalled "the last logged call to that player was start()" before, it still does after |
| `Mixer.Decks.OnResults` | djHander/script.js:80-141 | the loop over the hands leaves the flags and the log exactly as `Frame` says, and keeps every playing flag equal to "the last logged call to that player was start()" |
| `HandTracking.FingerUpIsStrict` | HandTracking1.py:37-39 | a tip level with the middle joint counts as down |
| `HandTracking.ThumbOutReadsOnlyAndMirror` | HandTracking1.py:41-43 | the thumb test depends only on the x of landmarks 2 and 4, and mirroring x to 1 - x does not change it |
| `HandTracking.CorrectedHandedness` | HandTracking1.py:55-57 | the drawn label is always "Left" or "Right", and it is "Right" exactly when the detector said "Left" |
| `HandTracking.CorrectedHandednessSwapsBack` | HandTracking1.py:55-57 | swapping twice gives back "Left" or "Right" |
| `HandTracking.CorrectedHandednessDefaultsToLeft` | HandTracking1.py:55-57 | every category name other than "Left", "Right" included, is drawn as "Left" |
| `HandTracking.FingerStatesReadOnly` | HandTracking1.py:125-128 | the finger flags read only the y of tip/middle pairs (8,6), (12,10), (16,14) and (20,19); the pinky is measured against its DIP joint 19, not its PIP joint 18 |
| `HandTracking.AllDownAsWrittenIsPinkyDown` | HandTracking1.py:139 | the all-down test as written holds exactly when the pinky is down |
| `HandTracking.AllDownAsWrittenAcceptsOpenHand` | HandTracking1.py:139 | with index, middle and ring up and the pinky down, the test as written still reports all fingers down |
| `HandTracking.AllFingersDownMeansNoFingerUp` | HandTracking1.py:139 | the intended test (no finger up) implies the test as written, so the as-written test only ever adds false positives |
| `HandTracking.HandReport` | HandTracking1.py:125-143 | per hand: each of the four fingers is reported down when its tip is not strictly above its middle joint (8/6, 12/10, 16/14, 20/19); "All fingers are down!" is reported exactly when the pinky is down, as line 139 is written, while the intended all-down flag needs all four down; thumb-in is reported when the thumb tip is within 0.05 of landmark 2 in x |

## Left out

- Canvas work in `onResults` (clear, mirror transform, skeleton drawing, restore) and the Python drawing of landmarks and handedness text. These are rendering side effects with no decisions.
- Console output of finger states in both programs. It is output only. In `HandReport` the printed messages become boolean fields.
- Construction of the Tone.js filters and players and their load callbacks. `start()` and `stop()` are only entries of the ghost log in `Mixer.Decks`, and `Command` values in `DeckTransport`. No gesture ever drives the filters. `start()` and `stop()` are assumed to return normally: the model has no case where a throwing call at script.js:114, 117, 125 or 128 leaves that deck's playing flag and latch unset and skips the frame's remaining hands.
- The MediaPipe detector, the camera and the asynchronous frame loop in `script.js`. The Python model download, detector creation and webcam loop are left out too. A detection result is an input value of `OnResults`.
- IEEE floating point. Coordinates are exact reals; in the programs' doubles the four-term sum, the differences and `1 - x` round, so the invariance lemmas below hold for exact reals only.
- PoseClassifier.PosesMirrorInvariant: holds for exact reals only; in doubles `1 - x` and the mean of the MCP x values round.
- PoseClassifier.PosesShiftInvariant: holds for exact reals only; in doubles a large shift (say 1e17) rounds every x to the same value and can flip the thumb flag.
- HandTracking.ThumbOutReadsOnlyAndMirror: its mirror clause holds for exact reals only; in doubles `1 - x` rounds.
- Inputs the scripts would fail on are excluded by a precondition. These are a landmark set with fewer than 21 points, and a handedness list shorter than the landmark list. The JavaScript would throw on either. The detector never produces them. The precondition asks for exactly 21 points, so it also excludes longer landmark sets, which the scripts would accept and read only at indices 0 to 20.
- Duplicate labels in one frame are not defended against by the script, and the model does not forbid them. The debounce lemmas are stated for every hand that drives a deck, so they hold with duplicates too.
- Landmark smoothing, the volume curve, filter gating, the reverb envelope and thumb-driven track advance do not appear in the two files modelled here, so they are not part of this model.

## Findings

| source | as written | input that shows it | evidently intended | confidence | as-written member | corrected member |
|---|---|---|---|---|---|---|
| HandTracking1.py:139 | `&` binds tighter than `==`, so the condition is a comparison chain that reduces to "pinky is down" | index, middle and ring up, pinky down: "All fingers are down!" is printed | all four fingers down | high; not executed | `HandTracking.AllDownAsWrittenAcceptsOpenHand` | `HandTracking.AllFingersDownMeansNoFingerUp` |
