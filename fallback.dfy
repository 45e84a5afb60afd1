/** The stand-in classes the application defines for itself when the detector
    or e-mail module cannot be imported: a detector with fixed settings whose
    significance rule has only the single-contour gate, and an e-mail sender
    that only reports what it would send. */
module Fallback {
  import opened Motion
  import Screenshot

  /** Whether some contour is larger than the minimum; stops at the first one. */
  method HasLargeContour(contourAreas: seq<real>, minContourArea: real) returns (significantMotion: bool)
    ensures significantMotion == SomeAbove(contourAreas, minContourArea)
  {
    significantMotion := false;
    var i := 0;
    while i < |contourAreas|
      invariant 0 <= i <= |contourAreas|
      invariant !significantMotion
      invariant forall j | 0 <= j < i :: contourAreas[j] <= minContourArea
    {
      if contourAreas[i] > minContourArea {
        significantMotion := true;
        break;
      }
      i := i + 1;
    }
  }

  class AccidentDetector<!Img> {
    const minContourArea: real
    const thresholdSensitivity: int
    const accidentFramesThreshold: int

    var previousFrame: Option<Img>
    var accidentDetected: bool
    var consecutiveAccidentFrames: int

    function Settings(): Config
    {
      Config(minContourArea, thresholdSensitivity, accidentFramesThreshold)
    }

    function State(): DetectorState<Img>
      reads this
    {
      DetectorState(previousFrame, consecutiveAccidentFrames, accidentDetected)
    }

    /** What one call depends on besides the state and the frame. */
    function Rules(vision: Vision<Img>): Setup<Img>
    {
      Setup(Settings(), AnyArea, vision)
    }

    ghost predicate Valid()
      reads this
    {
      Consistent(State(), accidentFramesThreshold)
    }

    /** The configuration file is ignored: the settings are always 500, 25 and 5. */
    constructor ()
      ensures Settings() == DefaultConfig
      ensures State() == Initial() && Valid()
    {
      minContourArea := 500.0;
      thresholdSensitivity := 25;
      accidentFramesThreshold := 5;
      previousFrame := None;
      accidentDetected := false;
      consecutiveAccidentFrames := 0;
    }

    method DetectAccident(frame: Img, vision: Vision<Img>) returns (detected: bool)
      requires Valid()
      modifies this
      ensures Valid()
      ensures (State(), detected) == Observe(old(State()), frame, Rules(vision))
      ensures old(accidentDetected) ==> detected && unchanged(this)
      ensures old(accidentDetected) ==> accidentDetected
      ensures old(previousFrame).None? && !old(accidentDetected) ==>
                !detected && consecutiveAccidentFrames == old(consecutiveAccidentFrames)
    {
      if accidentDetected {
        return true;
      }
      var gray := vision.blurGray(frame);
      if previousFrame.None? {
        previousFrame := Some(gray);
        return false;
      }
      var contourAreas := vision.contourAreas(previousFrame.value, gray, thresholdSensitivity);
      var significantMotion := HasLargeContour(contourAreas, minContourArea);
      previousFrame := Some(gray);
      if significantMotion {
        consecutiveAccidentFrames := consecutiveAccidentFrames + 1;
        if consecutiveAccidentFrames >= accidentFramesThreshold {
          accidentDetected := true;
          return true;
        }
      } else {
        consecutiveAccidentFrames := Max(0, consecutiveAccidentFrames - 1);
      }
      return false;
    }

    /** The file name of the screenshot; writing the image is not modelled. */
    method CaptureScreenshot(videoName: string, timestamp: string) returns (filename: string)
      ensures filename == Screenshot.Path(videoName, timestamp)
    {
      var safeVideoName := Screenshot.SafeVideoName(videoName);
      var timestampStr := Screenshot.ReplaceColons(timestamp);
      filename := "screenshots/accident_" + safeVideoName + "_" + timestampStr + ".jpg";
    }

    method Reset()
      modifies this
      ensures State() == Initial() && Valid()
    {
      previousFrame := None;
      accidentDetected := false;
      consecutiveAccidentFrames := 0;
    }
  }

  /** A sender that sends nothing and always reports success. */
  class EmailSender {
    const sender: string
    const recipient: string

    constructor ()
      ensures sender == "accident.alert.system00@gmail.com"
      ensures recipient == "singhpunitice00@gmail.com"
    {
      sender := "accident.alert.system00@gmail.com";
      recipient := "singhpunitice00@gmail.com";
    }

    /** Would send an alert about `videoName` at `timestamp`; reports success
        whether or not a screenshot path is given. */
    method SendAlert(videoName: string, timestamp: string, screenshotPath: Option<string>) returns (sent: bool)
      ensures sent
    {
      sent := true;
    }
  }
}
