/** The detector module's `AccidentDetector`: settings loaded from the
    configuration (or the defaults), and the double-gate motion accumulator. */
module Detector {
  import opened Motion
  import Screenshot

  /** One pass over the contour areas of a comparison: whether some contour
      is larger than the minimum, and the total area. */
  method MotionStats(contourAreas: seq<real>, minContourArea: real) returns (significantMotion: bool, motionArea: real)
    ensures significantMotion == SomeAbove(contourAreas, minContourArea)
    ensures motionArea == Sum(contourAreas)
  {
    significantMotion, motionArea := false, 0.0;
    for i := 0 to |contourAreas|
      invariant significantMotion == exists j | 0 <= j < i :: contourAreas[j] > minContourArea
      invariant motionArea == Sum(contourAreas[..i])
    {
      var contourArea := contourAreas[i];
      assert contourAreas[..i + 1][..i] == contourAreas[..i];
      motionArea := motionArea + contourArea;
      if contourArea > minContourArea {
        significantMotion := true;
      }
    }
    assert contourAreas[..|contourAreas|] == contourAreas;
  }

  class AccidentDetector<!Img> {
    const minContourArea: real
    const thresholdSensitivity: int
    const accidentFramesThreshold: int

    var previousFrame: Option<Img>
    var accidentDetected: bool
    var consecutiveAccidentFrames: int

    function Settings(): Config
    {
      Config(minContourArea, thresholdSensitivity, accidentFramesThreshold)
    }

    function State(): DetectorState<Img>
      reads this
    {
      DetectorState(previousFrame, consecutiveAccidentFrames, accidentDetected)
    }

    /** What one call depends on besides the state and the frame. */
    function Rules(vision: Vision<Img>): Setup<Img>
    {
      Setup(Settings(), AreaAndTotal, vision)
    }

    ghost predicate Valid()
      reads this
    {
      Consistent(State(), accidentFramesThreshold)
    }

    /** `loaded` is the detection section of the configuration file, or None
        when the file is missing, malformed or lacks one of the three keys. */
    constructor (loaded: Option<Config>)
      ensures Settings() == (if loaded.Some? then loaded.value else DefaultConfig)
      ensures State() == Initial() && Valid()
    {
      var cfg := if loaded.Some? then loaded.value else DefaultConfig;
      minContourArea := cfg.minContourArea;
      thresholdSensitivity := cfg.thresholdSensitivity;
      accidentFramesThreshold := cfg.accidentFramesThreshold;
      previousFrame := None;
      accidentDetected := false;
      consecutiveAccidentFrames := 0;
    }

    method DetectAccident(frame: Img, vision: Vision<Img>) returns (detected: bool)
      requires Valid()
      modifies this
      ensures Valid()
      ensures (State(), detected) == Observe(old(State()), frame, Rules(vision))
      ensures old(accidentDetected) ==> detected && unchanged(this)
      ensures old(accidentDetected) ==> accidentDetected
      ensures old(previousFrame).None? && !old(accidentDetected) ==>
                !detected && consecutiveAccidentFrames == old(consecutiveAccidentFrames)
    {
      if accidentDetected {
        return true;
      }
      var gray := vision.blurGray(frame);
      if previousFrame.None? {
        previousFrame := Some(gray);
        return false;
      }
      var contourAreas := vision.contourAreas(previousFrame.value, gray, thresholdSensitivity);
      var significantMotion, motionArea := MotionStats(contourAreas, minContourArea);
      previousFrame := Some(gray);
      if significantMotion && motionArea > minContourArea * 2.0 {
        consecutiveAccidentFrames := consecutiveAccidentFrames + 1;
        if consecutiveAccidentFrames >= accidentFramesThreshold {
          accidentDetected := true;
          return true;
        }
      } else {
        consecutiveAccidentFrames := Max(0, consecutiveAccidentFrames - 1);
      }
      return false;
    }

    /** The file name of the screenshot; writing the image is not modelled. */
    method CaptureScreenshot(videoName: string, timestamp: string) returns (filename: string)
      ensures filename == Screenshot.Path(videoName, timestamp)
    {
      var safeVideoName := Screenshot.SafeVideoName(videoName);
      var timestampStr := Screenshot.ReplaceColons(timestamp);
      filename := "screenshots/accident_" + safeVideoName + "_" + timestampStr + ".jpg";
    }

    method Reset()
      modifies this
      ensures State() == Initial() && Valid()
    {
      previousFrame := None;
      accidentDetected := false;
      consecutiveAccidentFrames := 0;
    }
  }
}
