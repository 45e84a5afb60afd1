/** The application's control state: the loaded video path, the `playing`
    flag, whether a processing thread is alive, and the per-run
    `accident_detected` guard that makes the screenshot and the e-mail alert
    happen at most once per run. */
module App {
  import opened Motion
  import Screenshot
  import Detector
  import Fallback

  /** The last component of a path: everything after its last '/'. */
  function BaseName(path: string): (name: string)
    ensures |name| <= |path| && name == path[|path| - |name|..]
    ensures '/' !in name
    ensures |name| < |path| ==> path[|path| - |name| - 1] == '/'
  {
    if path == [] || path[|path| - 1] == '/' then []
    else BaseName(path[..|path| - 1]) + [path[|path| - 1]]
  }

  /** The index of the first True, if any. */
  function FirstTrue(outputs: seq<bool>): (k: Option<nat>)
    ensures k.Some? ==> k.value < |outputs| && outputs[k.value] && forall j | 0 <= j < k.value :: !outputs[j]
    ensures k.None? ==> forall j | 0 <= j < |outputs| :: !outputs[j]
  {
    if outputs == [] then None
    else match FirstTrue(outputs[..|outputs| - 1])
      case Some(k) => Some(k)
      case None => if outputs[|outputs| - 1] then Some(|outputs| - 1) else None
  }

  /** A frame read from the video, with its position formatted as text. */
  datatype FrameRead<Img> = FrameRead(image: Img, timestamp: string)

  function Images<Img>(video: seq<FrameRead<Img>>): seq<Img>
  {
    seq(|video|, i requires 0 <= i < |video| => video[i].image)
  }

  /** A screenshot written and an alert sent, for the frame at `frameIndex`. */
  datatype Alert = Alert(frameIndex: nat, timestamp: string, screenshotPath: string)

  /** The alert for the frame at index k: its timestamp and the path of its screenshot. */
  function AlertFor<Img>(video: seq<FrameRead<Img>>, videoName: string, k: nat): Alert
    requires k < |video|
  {
    Alert(k, video[k].timestamp, Screenshot.Path(videoName, video[k].timestamp))
  }

  /** The alerts one complete run over `video` raises: none if the detector
      never returns True, else one, for the frame on which it first does. */
  function ExpectedAlerts<Img>(video: seq<FrameRead<Img>>, videoName: string, setup: Setup<Img>): (alerts: seq<Alert>)
    ensures |alerts| <= 1
    ensures alerts == [] ==> forall j | 0 <= j < |video| :: !Run(Initial(), Images(video), setup).outputs[j]
    ensures alerts != [] ==> exists j | 0 <= j < |video| :: Run(Initial(), Images(video), setup).outputs[j]
    ensures alerts != [] ==>
              var k, outputs := alerts[0].frameIndex, Run(Initial(), Images(video), setup).outputs;
              && k < |video| && outputs[k] && (forall j | 0 <= j < k :: !outputs[j])
              && alerts[0].timestamp == video[k].timestamp
              && alerts[0].screenshotPath == Screenshot.Path(videoName, video[k].timestamp)
  {
    var outputs := Run(Initial(), Images(video), setup).outputs;
    var first := FirstTrue(outputs);
    if first.None? then []
    else
      var k := first.value;
      assert k < |outputs| == |video| && outputs[k];
      [AlertFor(video, videoName, k)]
  }

  /** A video whose every comparison is significant raises its alert on the
      frame at index LatchCount (index N for a threshold N >= 1), provided
      the video is that long; a shorter one raises none. */
  lemma AlertTiming<Img>(video: seq<FrameRead<Img>>, videoName: string, setup: Setup<Img>)
    requires AllSignificant(Images(video), setup)
    ensures var latch := LatchCount(setup.cfg.accidentFramesThreshold);
            var alerts := ExpectedAlerts(video, videoName, setup);
            && (|video| <= latch ==> alerts == [])
            && (|video| > latch ==> alerts != [] && alerts[0].frameIndex == latch)
  {
    var latch := LatchCount(setup.cfg.accidentFramesThreshold);
    var outputs := Run(Initial(), Images(video), setup).outputs;
    LatchTiming(Images(video), setup);
    var alerts := ExpectedAlerts(video, videoName, setup);
    if |video| > latch {
      assert outputs[latch];
      if alerts != [] {
        var k := alerts[0].frameIndex;
        assert outputs[k] ==> k >= latch;
      }
    }
  }

  /** A video with fewer significant comparisons than the latch value raises no alert. */
  lemma QuietVideoRaisesNoAlert<Img>(video: seq<FrameRead<Img>>, videoName: string, setup: Setup<Img>)
    requires SignificantPairs(Images(video), setup) < LatchCount(setup.cfg.accidentFramesThreshold)
    ensures ExpectedAlerts(video, videoName, setup) == []
  {
    var frames := Images(video);
    forall k | 0 <= k < |frames| ensures !Run(Initial(), frames, setup).outputs[k] {
      if Run(Initial(), frames, setup).outputs[k] {
        NoEarlyDetection(frames, k, setup);
        SignificantPairsPrefix(frames, k + 1, setup);
      }
    }
  }

  /** One more call extends the run by one output. */
  lemma RunSnoc<Img>(frames: seq<Img>, i: nat, setup: Setup<Img>)
    requires i < |frames|
    ensures var before := Run(Initial(), frames[..i], setup);
            var r := Observe(before.state, frames[i], setup);
            Run(Initial(), frames[..i + 1], setup) == Trace(r.0, before.outputs + [r.1])
  {
    assert frames[..i + 1][..i] == frames[..i];
  }

  lemma FirstTrueSnoc(outputs: seq<bool>, o: bool)
    ensures FirstTrue(outputs + [o]) ==
              if FirstTrue(outputs).Some? then FirstTrue(outputs)
              else if o then Some(|outputs|) else None
  {
    assert (outputs + [o])[..|outputs|] == outputs;
  }

  /** The run's own bookkeeping after reading frames: the per-run
      `accident_detected` guard, the detector's state and the alerts raised. */
  datatype ScanState<Img> = ScanState(guard: bool, detector: DetectorState<Img>, alerts: seq<Alert>)

  /** The bookkeeping after the first i frames of a run: once the guard is
      set the detector is no longer called; before, each frame is given to
      it, and its first True sets the guard and raises the alert. */
  function Scan<Img>(video: seq<FrameRead<Img>>, videoName: string, setup: Setup<Img>, i: nat): (r: ScanState<Img>)
    requires i <= |video|
    ensures r.guard == (r.alerts != []) && |r.alerts| <= 1
    ensures r.alerts != [] ==> r.alerts[0].frameIndex < i && r.alerts[0] == AlertFor(video, videoName, r.alerts[0].frameIndex)
  {
    if i == 0 then ScanState(false, Initial(), [])
    else
      var before := Scan(video, videoName, setup, i - 1);
      if before.guard then before
      else
        var r := Observe(before.detector, video[i - 1].image, setup);
        ScanState(r.1, r.0, if r.1 then before.alerts + [AlertFor(video, videoName, i - 1)] else before.alerts)
  }

  /** Before the first detection the detector holds the state the first i
      calls produce and nothing has been raised; after it, exactly the alert
      of the first call that returned True has been raised. */
  lemma {:induction false} ScanFollowsRun<Img>(video: seq<FrameRead<Img>>, videoName: string, setup: Setup<Img>, i: nat)
    requires i <= |video|
    ensures var scan := Scan(video, videoName, setup, i);
            var trace := Run(Initial(), Images(video)[..i], setup);
            if scan.guard then
              FirstTrue(trace.outputs).Some? && scan.alerts == [AlertFor(video, videoName, FirstTrue(trace.outputs).value)]
            else
              FirstTrue(trace.outputs).None? && scan.alerts == [] && scan.detector == trace.state
  {
    var frames := Images(video);
    if i == 0 {
      assert frames[..0] == [];
    } else {
      ScanFollowsRun(video, videoName, setup, i - 1);
      var before := Run(Initial(), frames[..i - 1], setup);
      assert frames[i - 1] == video[i - 1].image;
      RunSnoc(frames, i - 1, setup);
      FirstTrueSnoc(before.outputs, Observe(before.state, frames[i - 1], setup).1);
    }
  }

  /** After the whole video, the bookkeeping holds exactly the expected alerts. */
  lemma ScanRaisesExpectedAlerts<Img>(video: seq<FrameRead<Img>>, videoName: string, setup: Setup<Img>)
    ensures var scan := Scan(video, videoName, setup, |video|);
            scan.alerts == ExpectedAlerts(video, videoName, setup) && scan.guard == (scan.alerts != [])
  {
    ScanFollowsRun(video, videoName, setup, |video|);
    assert Images(video)[..|video|] == Images(video);
  }

  /** Python truthiness of `video_path`: set and not empty. */
  predicate HasVideo(videoPath: Option<string>)
  {
    videoPath.Some? && videoPath.value != ""
  }

  class AccidentDetectionApp<!Img> {
    const detector: Detector.AccidentDetector<Img>
    const emailSender: Fallback.EmailSender

    var videoPath: Option<string>
    var playing: bool
    /** Whether the processing thread is alive. */
    var threadAlive: bool
    /** Set at the start of each run and on its first detection. */
    var accidentDetected: bool
    var frameCount: nat

    /** Between handler calls the detector is in its initial state (every
        run ends by stopping, which resets it), a stored path is never
        empty, and the application only plays with a video loaded. */
    ghost predicate Valid()
      reads this, detector
    {
      && detector.Valid()
      && detector.State() == Initial()
      && (videoPath.Some? ==> videoPath.value != "")
      && (playing ==> videoPath.Some?)
    }

    constructor (loaded: Option<Config>)
      ensures Valid() && fresh(detector) && fresh(emailSender)
      ensures detector.Settings() == (if loaded.Some? then loaded.value else DefaultConfig)
      ensures videoPath.None? && !playing && !threadAlive && !accidentDetected
    {
      detector := new Detector.AccidentDetector(loaded);
      emailSender := new Fallback.EmailSender();
      videoPath := None;
      playing := false;
      threadAlive := false;
      accidentDetected := false;
      frameCount := 0;
    }

    /** `filePath` is what the file dialog returned, "" when cancelled. */
    method UploadVideo(filePath: string)
      requires Valid()
      modifies this, detector
      ensures Valid()
      ensures filePath == "" ==> unchanged(this) && unchanged(detector)
      ensures filePath != "" ==> videoPath == Some(filePath) && !playing
      ensures threadAlive == old(threadAlive) && accidentDetected == old(accidentDetected)
      ensures frameCount == old(frameCount)
    {
      if filePath != "" {
        videoPath := Some(filePath);
        StopVideo();
      }
    }

    /** Pauses a playing video, or starts or resumes it, starting a
        processing thread when none is alive; without a video it only
        reports an error. */
    method TogglePlay()
      requires Valid()
      modifies this
      ensures Valid()
      ensures !HasVideo(old(videoPath)) ==> unchanged(this)
      ensures HasVideo(old(videoPath)) ==> playing == !old(playing) && threadAlive == (old(threadAlive) || playing)
      ensures videoPath == old(videoPath) && accidentDetected == old(accidentDetected)
      ensures frameCount == old(frameCount)
    {
      if !HasVideo(videoPath) {
        return;
      }
      if playing {
        playing := false;
      } else {
        playing := true;
        if !threadAlive {
          threadAlive := true;
        }
      }
    }

    method StopVideo()
      modifies this, detector
      ensures !playing
      ensures detector.State() == Initial() && detector.Valid()
      ensures videoPath == old(videoPath) && threadAlive == old(threadAlive)
      ensures accidentDetected == old(accidentDetected) && frameCount == old(frameCount)
    {
      playing := false;
      detector.Reset();
    }

    /** The body of the processing thread. `video` is what the capture
        yields, frame by frame, and `isOpened` whether it could be opened.
        The run ends by stopping, which clears `playing` and resets the
        detector, and the thread is then no longer alive. */
    method ProcessVideo(video: seq<FrameRead<Img>>, isOpened: bool, vision: Vision<Img>) returns (alerts: seq<Alert>)
      requires Valid() && videoPath.Some?
      modifies this, detector
      ensures Valid()
      ensures !playing && !threadAlive && videoPath == old(videoPath)
      ensures !isOpened || !old(playing) ==> alerts == []
      ensures isOpened && old(playing) ==>
                alerts == ExpectedAlerts(video, BaseName(videoPath.value), detector.Rules(vision))
      ensures |alerts| <= 1
      ensures isOpened ==> accidentDetected == (alerts != [])
      ensures isOpened ==> frameCount == (if old(playing) then |video| else 0)
      ensures !isOpened ==> accidentDetected == old(accidentDetected) && frameCount == old(frameCount)
    {
      if !isOpened {
        StopVideo();
        threadAlive := false;
        return [];
      }
      frameCount := 0;
      accidentDetected := false;
      var videoName := BaseName(videoPath.value);
      alerts := [];
      ghost var setup := detector.Rules(vision);
      var i := 0;
      while playing && i < |video|
        invariant 0 <= i <= |video| && frameCount == i
        invariant playing == old(playing) && (!playing ==> i == 0)
        invariant videoPath == old(videoPath) && threadAlive == old(threadAlive)
        invariant detector.Valid()
        invariant Scan(video, videoName, setup, i) == ScanState(accidentDetected, detector.State(), alerts)
      {
        var frame := video[i].image;
        frameCount := frameCount + 1;
        var timestamp := video[i].timestamp;
        if !accidentDetected {
          var detected := detector.DetectAccident(frame, vision);
          if detected {
            accidentDetected := true;
            var screenshotPath := detector.CaptureScreenshot(videoName, timestamp);
            var emailSent := emailSender.SendAlert(videoName, timestamp, Some(screenshotPath));
            alerts := alerts + [Alert(i, timestamp, screenshotPath)];
          }
        }
        i := i + 1;
      }
      if !playing {
        assert alerts == [];
      } else {
        ScanRaisesExpectedAlerts(video, videoName, setup);
      }
      StopVideo();
      threadAlive := false;
    }
  }
}
