/** The motion accumulator shared by both accident detectors: its state, its
    settings, the rule that classifies one frame comparison, and what one call
    and a sequence of calls to `detect_accident` do to that state. The image
    pipeline (grayscale, blur, difference, threshold, dilation, contours) is
    opaque: it enters as the two functions of a `Vision`. */
module Motion {

  datatype Option<T> = None | Some(value: T)

  function Max(a: int, b: int): int { if a < b then b else a }
  function Min(a: int, b: int): int { if a < b then a else b }

  /** The three detection settings. */
  datatype Config = Config(minContourArea: real, thresholdSensitivity: int, accidentFramesThreshold: int)

  /** The values used when no configuration can be loaded. */
  const DefaultConfig := Config(500.0, 25, 5)

  /** The two significance rules: the detector module's "some contour is
      large AND the total area is large", and the fallback's "some contour is
      large". */
  datatype Gate = AreaAndTotal | AnyArea

  /** The image work, seen from the detector: `blurGray` turns a frame into
      the blurred grayscale image that is stored, and `contourAreas` gives the
      areas of the contours found in the difference of two such images at a
      threshold sensitivity. */
  datatype Vision<!Img> = Vision(blurGray: Img -> Img, contourAreas: (Img, Img, int) -> seq<real>)

  /** Everything a detector call depends on besides its state and the frame. */
  datatype Setup<!Img> = Setup(cfg: Config, gate: Gate, vision: Vision<Img>)

  /** The fields of a detector that its calls update. */
  datatype DetectorState<Img> =
    DetectorState(previousFrame: Option<Img>, consecutiveAccidentFrames: int, accidentDetected: bool)

  /** The state after construction and after `reset`. */
  function Initial<Img>(): (s: DetectorState<Img>)
    ensures s.previousFrame.None? && s.consecutiveAccidentFrames == 0 && !s.accidentDetected
    ensures forall threshold :: Consistent(s, threshold)
  {
    DetectorState(None, 0, false)
  }

  /** Total of the contour areas, accumulated front to back. */
  function Sum(areas: seq<real>): real
  {
    if areas == [] then 0.0 else Sum(areas[..|areas| - 1]) + areas[|areas| - 1]
  }

  predicate SomeAbove(areas: seq<real>, minArea: real)
  {
    exists i | 0 <= i < |areas| :: areas[i] > minArea
  }

  /** Whether one frame comparison counts as significant motion. */
  predicate Significant(gate: Gate, areas: seq<real>, minArea: real)
    ensures Significant(gate, areas, minArea) ==> exists i | 0 <= i < |areas| :: areas[i] > minArea
    ensures Significant(gate, areas, minArea) && gate.AreaAndTotal? ==> Sum(areas) > minArea * 2.0
    ensures gate.AnyArea? && SomeAbove(areas, minArea) ==> Significant(gate, areas, minArea)
  {
    match gate
    case AreaAndTotal => SomeAbove(areas, minArea) && Sum(areas) > minArea * 2.0
    case AnyArea => SomeAbove(areas, minArea)
  }

  /** With no negative area, the total is at least every single area. */
  lemma {:induction false} SumAtLeastEach(areas: seq<real>, k: int)
    requires forall i | 0 <= i < |areas| :: areas[i] >= 0.0
    requires 0 <= k < |areas|
    ensures Sum(areas) >= areas[k]
  {
    var last := |areas| - 1;
    var init := areas[..last];
    assert forall i | 0 <= i < |init| :: init[i] == areas[i];
    if k < last {
      SumAtLeastEach(init, k);
      assert Sum(init) >= 0.0 by { SumNonNegative(init); }
    } else {
      SumNonNegative(init);
    }
  }

  lemma {:induction false} SumNonNegative(areas: seq<real>)
    requires forall i | 0 <= i < |areas| :: areas[i] >= 0.0
    ensures Sum(areas) >= 0.0
  {
    if areas != [] {
      var init := areas[..|areas| - 1];
      assert forall i | 0 <= i < |init| :: init[i] == areas[i];
      SumNonNegative(init);
    }
  }

  /** One contour larger than twice the minimum is significant motion under
      both rules: it passes the single-contour test, and the total is at
      least that contour. */
  lemma OneLargeContourSuffices(gate: Gate, areas: seq<real>, minArea: real, k: int)
    requires forall i | 0 <= i < |areas| :: areas[i] >= 0.0
    requires minArea >= 0.0 && 0 <= k < |areas| && areas[k] > minArea * 2.0
    ensures Significant(gate, areas, minArea)
  {
    SumAtLeastEach(areas, k);
  }

  /** The classification of the comparison of a stored image with a new one. */
  predicate Compare<Img>(setup: Setup<Img>, previous: Img, gray: Img)
  {
    Significant(setup.gate, setup.vision.contourAreas(previous, gray, setup.cfg.thresholdSensitivity),
                setup.cfg.minContourArea)
  }

  /** The counter value at which the detector latches: the threshold, or 1
      when the threshold is below 1 (the counter reaches at least 1 before any
      comparison with it). */
  function LatchCount(threshold: int): (n: int)
    ensures n >= 1 && n >= threshold
  {
    Max(threshold, 1)
  }

  /** The states a detector can be in: the counter is never negative, nothing
      has been counted before a frame is stored, and the counter stays below
      the latch value until the latch is set, where it stops. */
  predicate Consistent<Img>(s: DetectorState<Img>, threshold: int)
  {
    && 0 <= s.consecutiveAccidentFrames
    && (s.previousFrame.None? ==> s.consecutiveAccidentFrames == 0 && !s.accidentDetected)
    && (if s.accidentDetected then s.consecutiveAccidentFrames == LatchCount(threshold)
        else s.consecutiveAccidentFrames < LatchCount(threshold))
  }

  /** One call of `detect_accident`: the new state and the returned value. */
  function Observe<Img>(s: DetectorState<Img>, frame: Img, setup: Setup<Img>): (r: (DetectorState<Img>, bool))
    // once latched, the call returns True and changes nothing
    ensures s.accidentDetected ==> r == (s, true)
    // the first call after construction or reset only stores the frame
    ensures !s.accidentDetected && s.previousFrame.None? ==>
              r == (s.(previousFrame := Some(setup.vision.blurGray(frame))), false)
    // the call returns True exactly when the detector is latched afterwards
    ensures r.1 == r.0.accidentDetected
    // a counter that is not negative stays so, and moves by at most one
    ensures 0 <= s.consecutiveAccidentFrames ==>
              0 <= r.0.consecutiveAccidentFrames
              && s.consecutiveAccidentFrames - 1 <= r.0.consecutiveAccidentFrames <= s.consecutiveAccidentFrames + 1
    ensures Consistent(s, setup.cfg.accidentFramesThreshold) ==> Consistent(r.0, setup.cfg.accidentFramesThreshold)
  {
    if s.accidentDetected then (s, true)
    else
      var gray := setup.vision.blurGray(frame);
      if s.previousFrame.None? then (s.(previousFrame := Some(gray)), false)
      else
        var s' := s.(previousFrame := Some(gray));
        if Compare(setup, s.previousFrame.value, gray) then
          var count := s.consecutiveAccidentFrames + 1;
          if count >= setup.cfg.accidentFramesThreshold then
            (s'.(consecutiveAccidentFrames := count, accidentDetected := true), true)
          else
            (s'.(consecutiveAccidentFrames := count), false)
        else
          (s'.(consecutiveAccidentFrames := Max(0, s.consecutiveAccidentFrames - 1)), false)
  }

  /** A call that compares: the stored image becomes the new one; a
      significant comparison adds one to the counter and latches iff the new
      count reaches the threshold; any other comparison decays the counter,
      floored at zero, and never latches. */
  lemma ObserveCompares<Img>(s: DetectorState<Img>, frame: Img, setup: Setup<Img>)
    requires !s.accidentDetected && s.previousFrame.Some?
    ensures var gray := setup.vision.blurGray(frame);
            var r := Observe(s, frame, setup);
            && r.0.previousFrame == Some(gray)
            && (Compare(setup, s.previousFrame.value, gray) ==>
                  && r.0.consecutiveAccidentFrames == s.consecutiveAccidentFrames + 1
                  && (r.1 <==> r.0.consecutiveAccidentFrames >= setup.cfg.accidentFramesThreshold))
            && (!Compare(setup, s.previousFrame.value, gray) ==>
                  && r.0.consecutiveAccidentFrames == Max(0, s.consecutiveAccidentFrames - 1)
                  && !r.1 && !r.0.accidentDetected)
  {
  }

  /** The state after a sequence of calls, and the value each call returned. */
  datatype Trace<Img> = Trace(state: DetectorState<Img>, outputs: seq<bool>)

  function Run<Img>(s: DetectorState<Img>, frames: seq<Img>, setup: Setup<Img>): (t: Trace<Img>)
    ensures |t.outputs| == |frames|
    ensures Consistent(s, setup.cfg.accidentFramesThreshold) ==> Consistent(t.state, setup.cfg.accidentFramesThreshold)
    decreases |frames|
  {
    if frames == [] then Trace(s, [])
    else
      var before := Run(s, frames[..|frames| - 1], setup);
      var r := Observe(before.state, frames[|frames| - 1], setup);
      Trace(r.0, before.outputs + [r.1])
  }

  /** Running two sequences one after the other is running their concatenation. */
  lemma {:induction false} RunAppend<Img>(s: DetectorState<Img>, a: seq<Img>, b: seq<Img>, setup: Setup<Img>)
    ensures var first := Run(s, a, setup);
            var second := Run(first.state, b, setup);
            Run(s, a + b, setup) == Trace(second.state, first.outputs + second.outputs)
    decreases |b|
  {
    if b == [] {
      assert a + b == a;
    } else {
      var b' := b[..|b| - 1];
      assert (a + b)[..|a + b| - 1] == a + b';
      RunAppend(s, a, b', setup);
    }
  }

  /** The value returned by call k is the latch after call k. */
  lemma {:induction false} OutputIsLatch<Img>(s: DetectorState<Img>, frames: seq<Img>, k: nat, setup: Setup<Img>)
    requires k < |frames|
    ensures Run(s, frames, setup).outputs[k] == Run(s, frames[..k + 1], setup).state.accidentDetected
  {
    RunAppend(s, frames[..k + 1], frames[k + 1..], setup);
    assert frames[..k + 1] + frames[k + 1..] == frames;
  }

  /** A latched detector returns True on every later call and keeps its state. */
  lemma {:induction false} LatchedStaysLatched<Img>(s: DetectorState<Img>, frames: seq<Img>, setup: Setup<Img>)
    requires s.accidentDetected
    ensures Run(s, frames, setup).state == s
    ensures forall k | 0 <= k < |frames| :: Run(s, frames, setup).outputs[k]
    decreases |frames|
  {
    if frames != [] {
      LatchedStaysLatched(s, frames[..|frames| - 1], setup);
    }
  }

  /** Once a call returns True, every later call returns True too. */
  lemma TrueIsFinal<Img>(s: DetectorState<Img>, frames: seq<Img>, j: nat, k: nat, setup: Setup<Img>)
    requires j <= k < |frames|
    requires Run(s, frames, setup).outputs[j]
    ensures Run(s, frames, setup).outputs[k]
  {
    var head, tail := frames[..j + 1], frames[j + 1..];
    assert head + tail == frames;
    OutputIsLatch(s, frames, j, setup);
    RunAppend(s, head, tail, setup);
    LatchedStaysLatched(Run(s, head, setup).state, tail, setup);
    if k > j {
      assert Run(s, frames, setup).outputs[k] == Run(Run(s, head, setup).state, tail, setup).outputs[k - j - 1];
    }
  }

  /** The first call after construction or reset returns False. */
  lemma FirstCallPrimes<Img>(frames: seq<Img>, setup: Setup<Img>)
    requires frames != []
    ensures !Run(Initial(), frames, setup).outputs[0]
  {
    OutputIsLatch(Initial(), frames, 0, setup);
  }

  /** The number of significant comparisons between consecutive frames. */
  function SignificantPairs<Img>(frames: seq<Img>, setup: Setup<Img>): (n: nat)
    ensures n < Max(|frames|, 1)
  {
    if |frames| < 2 then 0
    else
      var gray := setup.vision.blurGray;
      SignificantPairs(frames[..|frames| - 1], setup)
        + (if Compare(setup, gray(frames[|frames| - 2]), gray(frames[|frames| - 1])) then 1 else 0)
  }

  /** A prefix holds no more significant comparisons than the whole. */
  lemma {:induction false} SignificantPairsPrefix<Img>(frames: seq<Img>, j: nat, setup: Setup<Img>)
    requires j <= |frames|
    ensures SignificantPairs(frames[..j], setup) <= SignificantPairs(frames, setup)
    decreases |frames|
  {
    if j < |frames| {
      var before := frames[..|frames| - 1];
      assert before[..j] == frames[..j];
      SignificantPairsPrefix(before, j, setup);
    } else {
      assert frames[..j] == frames;
    }
  }

  /** From the initial state, the counter never exceeds the number of
      significant comparisons seen; until the latch, the stored image is that
      of the last frame. */
  lemma {:induction false} CounterBoundedBySignificant<Img>(frames: seq<Img>, setup: Setup<Img>)
    ensures var st := Run(Initial(), frames, setup).state;
            && st.consecutiveAccidentFrames <= SignificantPairs(frames, setup)
            && (frames == [] <==> st.previousFrame.None?)
            && (!st.accidentDetected && frames != [] ==>
                  st.previousFrame == Some(setup.vision.blurGray(frames[|frames| - 1])))
    decreases |frames|
  {
    if frames != [] {
      var before := frames[..|frames| - 1];
      CounterBoundedBySignificant(before, setup);
      var st := Run(Initial(), before, setup).state;
      assert Consistent(st, setup.cfg.accidentFramesThreshold);
      if |frames| >= 2 {
        assert before[|before| - 1] == frames[|frames| - 2];
      }
    }
  }

  /** The detector never returns True before it has seen as many significant
      comparisons as the latch value: call k returns True only if the first
      k+1 frames hold at least that many. */
  lemma NoEarlyDetection<Img>(frames: seq<Img>, k: nat, setup: Setup<Img>)
    requires k < |frames|
    requires Run(Initial(), frames, setup).outputs[k]
    ensures SignificantPairs(frames[..k + 1], setup) >= LatchCount(setup.cfg.accidentFramesThreshold)
  {
    OutputIsLatch(Initial(), frames, k, setup);
    CounterBoundedBySignificant(frames[..k + 1], setup);
  }

  /** Every comparison of consecutive frames is significant. */
  predicate AllSignificant<Img>(frames: seq<Img>, setup: Setup<Img>)
  {
    forall i | 1 <= i < |frames| :: Compare(setup, setup.vision.blurGray(frames[i - 1]), setup.vision.blurGray(frames[i]))
  }

  lemma {:induction false} AllSignificantState<Img>(frames: seq<Img>, setup: Setup<Img>)
    requires frames != [] && AllSignificant(frames, setup)
    ensures var st := Run(Initial(), frames, setup).state;
            var n, latch := |frames| - 1, LatchCount(setup.cfg.accidentFramesThreshold);
            && st.consecutiveAccidentFrames == Min(n, latch)
            && st.accidentDetected == (n >= latch)
            && (n <= latch ==> st.previousFrame == Some(setup.vision.blurGray(frames[n])))
    decreases |frames|
  {
    if |frames| > 1 {
      var before := frames[..|frames| - 1];
      assert forall i | 0 <= i < |before| :: before[i] == frames[i];
      AllSignificantState(before, setup);
    }
  }

  /** With every comparison significant, the first True comes on call
      LatchCount + 1 (call N + 1 for a threshold N >= 1) and every later call
      returns True; no earlier call does. */
  lemma LatchTiming<Img>(frames: seq<Img>, setup: Setup<Img>)
    requires AllSignificant(frames, setup)
    ensures forall k | 0 <= k < |frames| ::
              Run(Initial(), frames, setup).outputs[k] == (k >= LatchCount(setup.cfg.accidentFramesThreshold))
  {
    forall k | 0 <= k < |frames|
      ensures Run(Initial(), frames, setup).outputs[k] == (k >= LatchCount(setup.cfg.accidentFramesThreshold))
    {
      var prefix := frames[..k + 1];
      assert forall i | 0 <= i < |prefix| :: prefix[i] == frames[i];
      OutputIsLatch(Initial(), frames, k, setup);
      AllSignificantState(prefix, setup);
    }
  }

  /** The default settings with the double gate, fed six frames whose every
      comparison yields contours of 600 and 700 (one above 500, total above
      1000): only the sixth call returns True. */
  lemma SixthCallFires()
    ensures var setup := Setup(DefaultConfig, AreaAndTotal, Vision((g: int) => g, (p: int, g: int, t: int) => [600.0, 700.0]));
            Run(Initial(), [1, 2, 3, 4, 5, 6], setup).outputs == [false, false, false, false, false, true]
  {
    var setup := Setup(DefaultConfig, AreaAndTotal, Vision((g: int) => g, (p: int, g: int, t: int) => [600.0, 700.0]));
    var frames := [1, 2, 3, 4, 5, 6];
    assert Sum([600.0, 700.0]) == 1300.0 by {
      assert [600.0, 700.0][..1] == [600.0];
      assert [600.0][..0] == [];
    }
    assert SomeAbove([600.0, 700.0], 500.0) by {
      assert [600.0, 700.0][0] > 500.0;
    }
    LatchTiming(frames, setup);
    var outs := Run(Initial(), frames, setup).outputs;
    assert outs == [false, false, false, false, false, true] by {
      assert |outs| == 6;
      assert !outs[0] && !outs[1] && !outs[2] && !outs[3] && !outs[4] && outs[5];
    }
  }

  /** Neither half of the double gate implies the other: one contour of 600
      passes only the single-contour test, three of 400 only the total. */
  lemma GatesIndependent()
    ensures SomeAbove([600.0], 500.0) && !Significant(AreaAndTotal, [600.0], 500.0)
    ensures Significant(AnyArea, [600.0], 500.0)
    ensures !SomeAbove([400.0, 400.0, 400.0], 500.0) && Sum([400.0, 400.0, 400.0]) > 1000.0
  {
    assert [600.0][0] > 500.0;
    assert [600.0][..0] == [];
    assert [400.0, 400.0, 400.0][..2] == [400.0, 400.0];
    assert [400.0, 400.0][..1] == [400.0];
    assert [400.0][..0] == [];
  }
}
