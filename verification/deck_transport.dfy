/** The fist-toggle logic of onResults (djHander/script.js:80-140) as a
    function of the transport state: per hand, an edge-triggered latch that
    starts or stops that hand's deck once per continuous fist. */
module DeckTransport {
  import opened Landmarks
  import opened PoseClassifier

  datatype Deck = Deck1 | Deck2

  function Other(d: Deck): Deck {
    if d == Deck1 then Deck2 else Deck1
  }

  /** A transport call on one of the two players. */
  datatype Command = Start(deck: Deck) | Stop(deck: Deck)

  /** The four module-level flags: whether each player is playing, and whether
      the hand driving it was closed in the last frame it was seen. */
  datatype Transport = Transport(
    isPlayer1Playing: bool,
    isPlayer2Playing: bool,
    wasHand1Closed: bool,
    wasHand2Closed: bool)
  {
    predicate Playing(d: Deck) {
      if d == Deck1 then isPlayer1Playing else isPlayer2Playing
    }

    predicate Latched(d: Deck) {
      if d == Deck1 then wasHand1Closed else wasHand2Closed
    }
  }

  /** Both decks stopped, both latches clear. */
  const Initial := Transport(false, false, false, false)

  /** One entry of the frame's hands: a landmark set and its handedness label. */
  datatype Hand = Hand(landmarks: seq<Landmark>, handedness: string)

  /** The new transport state and the start/stop calls issued on the way. */
  datatype Effect = Effect(state: Transport, commands: seq<Command>)

  /** The crossed mapping: a hand labelled "Left" drives deck 2, any other label deck 1. */
  function DeckOf(handedness: string): Deck {
    if handedness == "Left" then Deck2 else Deck1
  }

  /** The call a toggle issues: stop a playing deck, start a stopped one. */
  function ToggleCommand(d: Deck, playing: bool): Command {
    if playing then Stop(d) else Start(d)
  }

  /** One pass of the forEach body for a hand with the given handedness and poses. */
  function StepHand(t: Transport, handedness: string, poses: FingerPoses): (r: Effect)
    // only the hand's own deck is touched
    ensures r.state.Playing(Other(DeckOf(handedness))) == t.Playing(Other(DeckOf(handedness)))
    ensures r.state.Latched(Other(DeckOf(handedness))) == t.Latched(Other(DeckOf(handedness)))
    ensures forall c | c in r.commands :: c.deck == DeckOf(handedness)
    // armed latch and a fist: toggle once and latch
    ensures AllFingersDown(poses) && !t.Latched(DeckOf(handedness)) ==>
      && r.commands == [ToggleCommand(DeckOf(handedness), t.Playing(DeckOf(handedness)))]
      && r.state.Playing(DeckOf(handedness)) == !t.Playing(DeckOf(handedness))
      && r.state.Latched(DeckOf(handedness))
    // fist still held: nothing at all
    ensures AllFingersDown(poses) && t.Latched(DeckOf(handedness)) ==> r == Effect(t, [])
    // a finger up: re-arm, no call, both decks keep playing or not
    ensures !AllFingersDown(poses) ==>
      && r.commands == []
      && r.state.Playing(DeckOf(handedness)) == t.Playing(DeckOf(handedness))
      && !r.state.Latched(DeckOf(handedness))
  {
    if AllFingersDown(poses) then
      if handedness == "Left" then
        if !t.wasHand2Closed then
          if t.isPlayer2Playing then
            Effect(t.(isPlayer2Playing := false, wasHand2Closed := true), [Stop(Deck2)])
          else
            Effect(t.(isPlayer2Playing := true, wasHand2Closed := true), [Start(Deck2)])
        else
          Effect(t, [])
      else
        if !t.wasHand1Closed then
          if t.isPlayer1Playing then
            Effect(t.(isPlayer1Playing := false, wasHand1Closed := true), [Stop(Deck1)])
          else
            Effect(t.(isPlayer1Playing := true, wasHand1Closed := true), [Start(Deck1)])
        else
          Effect(t, [])
    else if handedness == "Left" then
      Effect(t.(wasHand2Closed := false), [])
    else
      Effect(t.(wasHand1Closed := false), [])
  }

  predicate ValidHands(hs: seq<Hand>) {
    forall i :: 0 <= i < |hs| ==> IsHand(hs[i].landmarks)
  }

  /** One frame: the hands in the order the detector lists them. */
  function Frame(t: Transport, hs: seq<Hand>): (r: Effect)
    requires ValidHands(hs)
    ensures |r.commands| <= |hs|
    decreases |hs|
  {
    if hs == [] then Effect(t, [])
    else
      var prev := Frame(t, hs[..|hs| - 1]);
      var h := hs[|hs| - 1];
      var step := StepHand(prev.state, h.handedness, DetectFingerPoses(h.landmarks));
      Effect(step.state, prev.commands + step.commands)
  }

  /** Extending the processed prefix of a frame by one hand is one more step. */
  lemma FramePrefixStep(t: Transport, hs: seq<Hand>, i: nat)
    requires ValidHands(hs) && i < |hs|
    ensures ValidHands(hs[..i]) && ValidHands(hs[..i + 1])
    ensures var prev := Frame(t, hs[..i]);
            var step := StepHand(prev.state, hs[i].handedness, DetectFingerPoses(hs[i].landmarks));
            Frame(t, hs[..i + 1]) == Effect(step.state, prev.commands + step.commands)
  {
    assert hs[..i + 1][..i] == hs[..i];
  }

  predicate ValidFrames(frames: seq<seq<Hand>>) {
    forall k :: 0 <= k < |frames| ==> ValidHands(frames[k])
  }

  /** A session: frames one after the other, each starting from the state the last left. */
  function Run(t: Transport, frames: seq<seq<Hand>>): (r: Effect)
    requires ValidFrames(frames)
    decreases |frames|
  {
    if frames == [] then Effect(t, [])
    else
      var first := Frame(t, frames[0]);
      var rest := Run(first.state, frames[1..]);
      Effect(rest.state, first.commands + rest.commands)
  }

  /** The calls issued to deck d, in order. */
  function CommandsFor(cs: seq<Command>, d: Deck): seq<Command>
  {
    if cs == [] then []
    else (if cs[0].deck == d then [cs[0]] else []) + CommandsFor(cs[1..], d)
  }

  /** Whether the last call in cs was a start. */
  predicate LastIsStart(cs: seq<Command>) {
    |cs| > 0 && cs[|cs| - 1].Start?
  }

  /** Each playing flag is exactly "the last call issued to that player was start()". */
  predicate Synced(t: Transport, log: seq<Command>) {
    forall d: Deck :: t.Playing(d) == LastIsStart(CommandsFor(log, d))
  }

  // ---------------------------------------------------------------------
  // Commands per deck

  lemma {:induction false} CommandsForAppend(a: seq<Command>, b: seq<Command>, d: Deck)
    ensures CommandsFor(a + b, d) == CommandsFor(a, d) + CommandsFor(b, d)
    decreases |a|
  {
    if a == [] {
      assert a + b == b;
    } else {
      var head := if a[0].deck == d then [a[0]] else [];
      assert (a + b)[0] == a[0] && (a + b)[1..] == a[1..] + b;
      assert CommandsFor(a + b, d) == head + CommandsFor(a[1..] + b, d);
      CommandsForAppend(a[1..], b, d);
      assert CommandsFor(a, d) == head + CommandsFor(a[1..], d);
      assert head + (CommandsFor(a[1..], d) + CommandsFor(b, d))
          == (head + CommandsFor(a[1..], d)) + CommandsFor(b, d);
    }
  }

  lemma {:induction false} CommandsForEach(cs: seq<Command>, d: Deck)
    ensures forall c | c in CommandsFor(cs, d) :: c in cs && c.deck == d
    ensures (forall c | c in cs :: c.deck == d) ==> CommandsFor(cs, d) == cs
    ensures (forall c | c in cs :: c.deck != d) ==> CommandsFor(cs, d) == []
    decreases |cs|
  {
    if cs != [] {
      CommandsForEach(cs[1..], d);
      assert cs == [cs[0]] + cs[1..];
    }
  }

  // ---------------------------------------------------------------------
  // The playing flags follow the command log

  lemma StepHandKeepsSynced(t: Transport, log: seq<Command>, handedness: string, poses: FingerPoses)
    requires Synced(t, log)
    ensures Synced(StepHand(t, handedness, poses).state, log + StepHand(t, handedness, poses).commands)
  {
    var r := StepHand(t, handedness, poses);
    forall d: Deck
      ensures r.state.Playing(d) == LastIsStart(CommandsFor(log + r.commands, d))
    {
      CommandsForAppend(log, r.commands, d);
      CommandsForEach(r.commands, d);
      if r.commands == [] {
        assert log + r.commands == log;
      }
    }
  }

  lemma {:induction false} FrameKeepsSynced(t: Transport, log: seq<Command>, hs: seq<Hand>)
    requires ValidHands(hs) && Synced(t, log)
    ensures Synced(Frame(t, hs).state, log + Frame(t, hs).commands)
    decreases |hs|
  {
    if hs != [] {
      var init := hs[..|hs| - 1];
      var h := hs[|hs| - 1];
      var prev := Frame(t, init);
      FrameKeepsSynced(t, log, init);
      StepHandKeepsSynced(prev.state, log + prev.commands, h.handedness, DetectFingerPoses(h.landmarks));
      var step := StepHand(prev.state, h.handedness, DetectFingerPoses(h.landmarks));
      assert log + prev.commands + step.commands == log + (prev.commands + step.commands);
    } else {
      assert log + [] == log;
    }
  }

  lemma {:induction false} RunKeepsSynced(t: Transport, log: seq<Command>, frames: seq<seq<Hand>>)
    requires ValidFrames(frames) && Synced(t, log)
    ensures Synced(Run(t, frames).state, log + Run(t, frames).commands)
    decreases |frames|
  {
    if frames != [] {
      var first := Frame(t, frames[0]);
      FrameKeepsSynced(t, log, frames[0]);
      RunKeepsSynced(first.state, log + first.commands, frames[1..]);
      var rest := Run(first.state, frames[1..]);
      assert log + first.commands + rest.commands == log + (first.commands + rest.commands);
    } else {
      assert log + [] == log;
    }
  }

  /** Over any session from the initial state, each deck is playing exactly
      when the last call it received was start(). */
  lemma SessionSynced(frames: seq<seq<Hand>>)
    requires ValidFrames(frames)
    ensures forall d: Deck :: Run(Initial, frames).state.Playing(d) ==
                              LastIsStart(CommandsFor(Run(Initial, frames).commands, d))
  {
    assert Synced(Initial, []);
    RunKeepsSynced(Initial, [], frames);
    assert [] + Run(Initial, frames).commands == Run(Initial, frames).commands;
  }

  // ---------------------------------------------------------------------
  // Debounce: one toggle per continuous fist

  /** The hand is a fist: all four fingers other than the thumb are down. */
  predicate Closed(h: Hand)
    requires IsHand(h.landmarks)
  {
    AllFingersDown(DetectFingerPoses(h.landmarks))
  }

  /** Some hand of the frame drives deck d. */
  predicate Drives(hs: seq<Hand>, d: Deck) {
    exists i :: 0 <= i < |hs| && DeckOf(hs[i].handedness) == d
  }

  /** Every hand of the frame that drives deck d is a fist. */
  predicate FistOn(hs: seq<Hand>, d: Deck)
    requires ValidHands(hs)
  {
    forall i :: 0 <= i < |hs| && DeckOf(hs[i].handedness) == d ==> Closed(hs[i])
  }

  /** Every hand of the frame that drives deck d has a finger up. */
  predicate OpenOn(hs: seq<Hand>, d: Deck)
    requires ValidHands(hs)
  {
    forall i :: 0 <= i < |hs| && DeckOf(hs[i].handedness) == d ==> !Closed(hs[i])
  }

  /** Some frame of the session has a hand driving deck d. */
  predicate DrivesIn(frames: seq<seq<Hand>>, d: Deck) {
    exists k :: 0 <= k < |frames| && Drives(frames[k], d)
  }

  /** In every frame of the session, deck d's hands are fists. */
  predicate FistHeld(frames: seq<seq<Hand>>, d: Deck)
    requires ValidFrames(frames)
  {
    forall k :: 0 <= k < |frames| ==> FistOn(frames[k], d)
  }

  lemma DrivesSplit(hs: seq<Hand>, d: Deck)
    requires hs != []
    ensures Drives(hs, d) <==> Drives(hs[..|hs| - 1], d) || DeckOf(hs[|hs| - 1].handedness) == d
  {
    var init := hs[..|hs| - 1];
    if Drives(hs, d) && DeckOf(hs[|hs| - 1].handedness) != d {
      var i :| 0 <= i < |hs| && DeckOf(hs[i].handedness) == d;
      assert init[i] == hs[i];
    }
    if Drives(init, d) {
      var i :| 0 <= i < |init| && DeckOf(init[i].handedness) == d;
      assert hs[i] == init[i];
    }
  }

  /** Within one frame in which deck d's hands are all fists, deck d toggles
      at most once: exactly once if its latch was clear and one of its hands
      is present, otherwise deck d's state is left as it was. */
  lemma {:induction false} FrameFistToggle(t: Transport, hs: seq<Hand>, d: Deck)
    requires ValidHands(hs) && FistOn(hs, d)
    ensures Drives(hs, d) && !t.Latched(d) ==>
      && CommandsFor(Frame(t, hs).commands, d) == [ToggleCommand(d, t.Playing(d))]
      && Frame(t, hs).state.Playing(d) == !t.Playing(d)
      && Frame(t, hs).state.Latched(d)
    ensures !(Drives(hs, d) && !t.Latched(d)) ==>
      && CommandsFor(Frame(t, hs).commands, d) == []
      && Frame(t, hs).state.Playing(d) == t.Playing(d)
      && Frame(t, hs).state.Latched(d) == t.Latched(d)
    decreases |hs|
  {
    if hs == [] {
      assert !Drives(hs, d);
    } else {
      var init := hs[..|hs| - 1];
      var h := hs[|hs| - 1];
      assert ValidHands(init) && FistOn(init, d) by {
        forall i | 0 <= i < |init| ensures init[i] == hs[i] { }
      }
      FrameFistToggle(t, init, d);
      DrivesSplit(hs, d);
      var prev := Frame(t, init);
      var step := StepHand(prev.state, h.handedness, DetectFingerPoses(h.landmarks));
      CommandsForAppend(prev.commands, step.commands, d);
      CommandsForEach(step.commands, d);
      if DeckOf(h.handedness) == d {
        assert Closed(h);
      }
    }
  }

  /** Over a session in which deck d's hands are fists in every frame (a
      continuous hold), deck d toggles exactly once if its latch was clear
      and its hand shows up at all, and never otherwise. */
  lemma {:induction false} HeldFistTogglesOnce(t: Transport, frames: seq<seq<Hand>>, d: Deck)
    requires ValidFrames(frames) && FistHeld(frames, d)
    ensures DrivesIn(frames, d) && !t.Latched(d) ==>
      && CommandsFor(Run(t, frames).commands, d) == [ToggleCommand(d, t.Playing(d))]
      && Run(t, frames).state.Playing(d) == !t.Playing(d)
      && Run(t, frames).state.Latched(d)
    ensures !(DrivesIn(frames, d) && !t.Latched(d)) ==>
      && CommandsFor(Run(t, frames).commands, d) == []
      && Run(t, frames).state.Playing(d) == t.Playing(d)
      && Run(t, frames).state.Latched(d) == t.Latched(d)
    decreases |frames|
  {
    if frames == [] {
      assert !DrivesIn(frames, d);
    } else {
      var rest := frames[1..];
      assert ValidFrames(rest) && FistHeld(rest, d) by {
        forall k | 0 <= k < |rest| ensures rest[k] == frames[k + 1] { }
      }
      assert DrivesIn(frames, d) <==> Drives(frames[0], d) || DrivesIn(rest, d) by {
        if DrivesIn(frames, d) && !Drives(frames[0], d) {
          var k :| 0 <= k < |frames| && Drives(frames[k], d);
          assert rest[k - 1] == frames[k];
        }
        if DrivesIn(rest, d) {
          var k :| 0 <= k < |rest| && Drives(rest[k], d);
          assert frames[k + 1] == rest[k];
        }
      }
      var first := Frame(t, frames[0]);
      FrameFistToggle(t, frames[0], d);
      HeldFistTogglesOnce(first.state, rest, d);
      CommandsForAppend(first.commands, Run(first.state, rest).commands, d);
    }
  }

  /** The toggle of a hold happens on its first frame; the frames after it,
      however many, issue nothing to that deck. */
  lemma HoldTogglesOnFirstFrame(t: Transport, frames: seq<seq<Hand>>, d: Deck)
    requires ValidFrames(frames) && FistHeld(frames, d)
    requires frames != [] && Drives(frames[0], d) && !t.Latched(d)
    ensures CommandsFor(Frame(t, frames[0]).commands, d) == [ToggleCommand(d, t.Playing(d))]
    ensures CommandsFor(Run(Frame(t, frames[0]).state, frames[1..]).commands, d) == []
  {
    var rest := frames[1..];
    assert ValidFrames(rest) && FistHeld(rest, d) by {
      forall k | 0 <= k < |rest| ensures rest[k] == frames[k + 1] { }
    }
    FrameFistToggle(t, frames[0], d);
    HeldFistTogglesOnce(Frame(t, frames[0]).state, rest, d);
  }

  /** A frame in which deck d's hands all have a finger up issues nothing to
      deck d and keeps its playing flag; it clears deck d's latch as soon as
      one of those hands is present. */
  lemma {:induction false} OpenHandRearms(t: Transport, hs: seq<Hand>, d: Deck)
    requires ValidHands(hs) && OpenOn(hs, d)
    ensures CommandsFor(Frame(t, hs).commands, d) == []
    ensures Frame(t, hs).state.Playing(d) == t.Playing(d)
    ensures Frame(t, hs).state.Latched(d) == (t.Latched(d) && !Drives(hs, d))
    decreases |hs|
  {
    if hs == [] {
      assert !Drives(hs, d);
    } else {
      var init := hs[..|hs| - 1];
      var h := hs[|hs| - 1];
      assert ValidHands(init) && OpenOn(init, d) by {
        forall i | 0 <= i < |init| ensures init[i] == hs[i] { }
      }
      OpenHandRearms(t, init, d);
      DrivesSplit(hs, d);
      var prev := Frame(t, init);
      var step := StepHand(prev.state, h.handedness, DetectFingerPoses(h.landmarks));
      CommandsForAppend(prev.commands, step.commands, d);
      CommandsForEach(step.commands, d);
      if DeckOf(h.handedness) == d {
        assert !Closed(h);
      }
    }
  }

  /** Running two sessions back to back is running their concatenation. */
  lemma {:induction false} RunAppend(t: Transport, a: seq<seq<Hand>>, b: seq<seq<Hand>>)
    requires ValidFrames(a) && ValidFrames(b)
    ensures ValidFrames(a + b)
    ensures Run(t, a + b).state == Run(Run(t, a).state, b).state
    ensures Run(t, a + b).commands == Run(t, a).commands + Run(Run(t, a).state, b).commands
    decreases |a|
  {
    assert ValidFrames(a + b) by {
      forall k | 0 <= k < |a + b| ensures ValidHands((a + b)[k]) {
        if k < |a| { assert (a + b)[k] == a[k]; } else { assert (a + b)[k] == b[k - |a|]; }
      }
    }
    if a == [] {
      assert a + b == b;
    } else {
      assert (a + b)[0] == a[0];
      assert (a + b)[1..] == a[1..] + b;
      assert ValidFrames(a[1..]) by {
        forall k | 0 <= k < |a| - 1 ensures a[1..][k] == a[k + 1] { }
      }
      RunAppend(Frame(t, a[0]).state, a[1..], b);
    }
  }

  /** Close, open, close: a fist hold, a frame with the hand open, and
      another hold give exactly two calls to the deck, the toggle and its
      reverse; from a stopped deck that is start() then stop(). */
  lemma CloseOpenClose(t: Transport, hold1: seq<seq<Hand>>, release: seq<Hand>,
                       hold2: seq<seq<Hand>>, d: Deck)
    requires ValidFrames(hold1) && ValidHands(release) && ValidFrames(hold2)
    requires FistHeld(hold1, d) && DrivesIn(hold1, d)
    requires OpenOn(release, d) && Drives(release, d)
    requires FistHeld(hold2, d) && DrivesIn(hold2, d)
    requires !t.Latched(d)
    ensures ValidFrames(hold1 + [release] + hold2)
    ensures CommandsFor(Run(t, hold1 + [release] + hold2).commands, d)
            == [ToggleCommand(d, t.Playing(d)), ToggleCommand(d, !t.Playing(d))]
    ensures Run(t, hold1 + [release] + hold2).state.Playing(d) == t.Playing(d)
    ensures !t.Playing(d) ==>
            CommandsFor(Run(t, hold1 + [release] + hold2).commands, d) == [Start(d), Stop(d)]
  {
    var mid: seq<seq<Hand>> := [release];
    assert ValidFrames(mid);
    RunAppend(t, hold1, mid);
    RunAppend(t, hold1 + mid, hold2);
    var e1 := Run(t, hold1);
    var e2 := Run(e1.state, mid);
    var e3 := Run(e2.state, hold2);
    var cmds := Run(t, hold1 + mid + hold2).commands;
    assert cmds == e1.commands + e2.commands + e3.commands;
    assert Run(t, hold1 + mid + hold2).state == e3.state;
    HeldFistTogglesOnce(t, hold1, d);
    assert CommandsFor(e1.commands, d) == [ToggleCommand(d, t.Playing(d))];
    assert e1.state.Playing(d) == !t.Playing(d);
    SingleFrameRun(e1.state, release);
    OpenHandRearms(e1.state, release, d);
    assert CommandsFor(e2.commands, d) == [];
    assert e2.state.Playing(d) == !t.Playing(d) && !e2.state.Latched(d);
    HeldFistTogglesOnce(e2.state, hold2, d);
    assert CommandsFor(e3.commands, d) == [ToggleCommand(d, !t.Playing(d))];
    CommandsForAppend(e1.commands, e2.commands, d);
    CommandsForAppend(e1.commands + e2.commands, e3.commands, d);
  }

  lemma SingleFrameRun(t: Transport, hs: seq<Hand>)
    requires ValidHands(hs)
    ensures ValidFrames([hs])
    ensures Run(t, [hs]) == Frame(t, hs)
  {
    assert [hs][1..] == [];
    assert Frame(t, hs).commands + [] == Frame(t, hs).commands;
  }

  // ---------------------------------------------------------------------
  // The thumb plays no part

  /** Two hands agree on every landmark height the four finger flags read. */
  predicate SameFingerHeights(lm: seq<Landmark>, lm': seq<Landmark>)
    requires IsHand(lm) && IsHand(lm')
  {
    forall i :: i in {0, 5, 8, 9, 12, 13, 16, 17, 20} ==> lm'[i].y == lm[i].y
  }

  /** A step reads the poses only through the fist test. */
  lemma StepHandReadsOnlyFist(t: Transport, handedness: string, p: FingerPoses, p': FingerPoses)
    requires AllFingersDown(p') == AllFingersDown(p)
    ensures StepHand(t, handedness, p') == StepHand(t, handedness, p)
  {
  }

  /** The thumb never affects a flag or a call: two frames whose hands carry
      the same labels in the same order and agree on the finger heights have
      the same effect, whatever the thumbs, the x and z coordinates, and the
      PIP and DIP joints do. */
  lemma {:induction false} FrameIgnoresThumb(t: Transport, hs: seq<Hand>, hs': seq<Hand>)
    requires ValidHands(hs) && ValidHands(hs') && |hs'| == |hs|
    requires forall i :: 0 <= i < |hs| ==>
      hs'[i].handedness == hs[i].handedness && SameFingerHeights(hs[i].landmarks, hs'[i].landmarks)
    ensures Frame(t, hs') == Frame(t, hs)
    decreases |hs|
  {
    if hs != [] {
      var n := |hs| - 1;
      assert ValidHands(hs[..n]) && ValidHands(hs'[..n]) by {
        forall i | 0 <= i < n ensures hs[..n][i] == hs[i] && hs'[..n][i] == hs'[i] { }
      }
      FrameIgnoresThumb(t, hs[..n], hs'[..n]);
      var lm, lm' := hs[n].landmarks, hs'[n].landmarks;
      assert SameFingerHeights(lm, lm');
      assert 0 in {0, 5, 8, 9, 12, 13, 16, 17, 20};
      assert 5 in {0, 5, 8, 9, 12, 13, 16, 17, 20} && 8 in {0, 5, 8, 9, 12, 13, 16, 17, 20};
      assert 9 in {0, 5, 8, 9, 12, 13, 16, 17, 20} && 12 in {0, 5, 8, 9, 12, 13, 16, 17, 20};
      assert 13 in {0, 5, 8, 9, 12, 13, 16, 17, 20} && 16 in {0, 5, 8, 9, 12, 13, 16, 17, 20};
      assert 17 in {0, 5, 8, 9, 12, 13, 16, 17, 20} && 20 in {0, 5, 8, 9, 12, 13, 16, 17, 20};
      StepHandReadsOnlyFist(Frame(t, hs[..n]).state, hs[n].handedness,
                            DetectFingerPoses(lm), DetectFingerPoses(lm'));
    }
  }

  // ---------------------------------------------------------------------
  // A concrete session

  /** A fist: every finger tip lower in the image (larger y) than its joints. */
  const FistLandmarks: seq<Landmark> :=
    seq(HandPoints, i => Landmark(0.5, if i in {8, 12, 16, 20} then 0.9 else 0.5, 0.0))

  /** An open hand: every finger tip higher in the image than its joints. */
  const OpenLandmarks: seq<Landmark> :=
    seq(HandPoints, i => Landmark(0.5, if i in {8, 12, 16, 20} then 0.1 else 0.5, 0.0))

  /** A right hand held as a fist for eleven frames, opened for one, then
      closed again: deck 1 receives start() once for the whole hold, then
      stop() once on the re-close, and deck 2 receives nothing. */
  lemma RightFistSession()
    ensures var fist := [Hand(FistLandmarks, "Right")];
            var open := [Hand(OpenLandmarks, "Right")];
            var frames := seq(11, _ => fist) + [open] + [fist];
            && ValidFrames(frames)
            && CommandsFor(Run(Initial, frames).commands, Deck1) == [Start(Deck1), Stop(Deck1)]
            && CommandsFor(Run(Initial, frames).commands, Deck2) == []
            && !Run(Initial, frames).state.isPlayer1Playing
  {
    var fist := [Hand(FistLandmarks, "Right")];
    var open := [Hand(OpenLandmarks, "Right")];
    assert IsHand(FistLandmarks) && IsHand(OpenLandmarks);
    assert Closed(fist[0]) by {
      assert FistLandmarks[8].y == 0.9 && FistLandmarks[12].y == 0.9;
      assert FistLandmarks[16].y == 0.9 && FistLandmarks[20].y == 0.9;
    }
    assert !Closed(open[0]) by {
      assert OpenLandmarks[8].y == 0.1 && OpenLandmarks[5].y == 0.5 && OpenLandmarks[0].y == 0.5;
    }
    var hold1 := seq(11, _ => fist);
    var hold2 := [fist];
    assert Drives(fist, Deck1) && Drives(open, Deck1);
    assert DrivesIn(hold1, Deck1) by { assert Drives(hold1[0], Deck1); }
    assert DrivesIn(hold2, Deck1) by { assert Drives(hold2[0], Deck1); }
    CloseOpenClose(Initial, hold1, open, hold2, Deck1);
    var frames := hold1 + [open] + hold2;
    assert ValidFrames(frames);
    assert FistHeld(frames, Deck2) && !DrivesIn(frames, Deck2) by {
      forall k | 0 <= k < |frames| ensures frames[k] == fist || frames[k] == open { }
    }
    HeldFistTogglesOnce(Initial, frames, Deck2);
  }
}
