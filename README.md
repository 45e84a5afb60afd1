# Accident detection: the motion accumulator and its control flags

This project models the decision logic of a desktop accident-detection tool.
The tool plays a video and compares each frame with the previous one. When
enough consecutive comparisons show large-area motion, it latches an
"accident detected" flag, names a screenshot file and sends one e-mail alert.

The image processing is done by a computer-vision library. Here it is opaque.
A `Vision` value supplies two functions: one turns a frame into the blurred
grayscale image that is stored, and the other gives the contour areas found
between two such images at a threshold sensitivity. What the model gets right
is what the program does with those areas:

- `Motion` (motion.dfy) is the shared specification of one
  `detect_accident` call and of a sequence of calls.
  - `Observe` is one call. It returns the new state and the value returned.
  - `Run` is a sequence of calls. It returns the final state and every returned value.
  - The lemmas cover the latch, the first-frame priming, counter bounds and
    the timing of the first True.
  - The two significance rules are the values of `Gate`. `AreaAndTotal`
    requires some contour larger than `min_contour_area` and a total area
    larger than twice it. `AnyArea` requires only some contour larger than
    `min_contour_area`.
- `Detector` (accident_detector.dfy) is the `AccidentDetector` of
  accident_detector.py. It is a class with the source's fields. Its methods are
  proved against `Observe` with the `AreaAndTotal` gate. `MotionStats` is the
  loop that accumulates the contour areas.
- `Fallback` (fallback.dfy) holds the stand-ins that main.py defines when the
  import fails.
  - Its `AccidentDetector` has fixed settings and the single gate, and is
    proved against the same `Observe` with `AnyArea`.
  - `HasLargeContour` is its early-exit loop.
  - Its `EmailSender` only reports success.
- `Screenshot` (screenshot.dfy) builds the screenshot file name. It is shared
  by both detectors, because the source duplicates that code.
- `App` (app.dfy) is `AccidentDetectionApp` with these fields:
  - the loaded path, `playing`, whether a processing thread is alive, and the
    per-run `accident_detected` guard;
  - the processing loop. It is proved to raise at most one alert per run, for
    the first frame on which the detector returns True.

With threshold N >= 1 and every comparison significant, the first True comes
on call N+1, not call N, because the first call only stores the frame
(`Motion.LatchTiming`, `Motion.SixthCallFires`).

Pausing ends the processing loop, and the thread then stops the video, which
resets the detector. Resuming therefore starts a new run from the first frame.
The model keeps this: `ProcessVideo` always ends by stopping.

## Model

| member | source | states |
|---|---|---|
| Motion.Initial | accident_detector.py:24-26 | The state after construction: no stored frame, counter 0, not latched. It satisfies the consistency invariant for every threshold. |
| Motion.Significant | accident_detector.py:49-62 | A significant comparison always has a contour larger than the minimum. Under the double rule its total area also exceeds twice the minimum. Under the single rule one such contour is enough. |
| Motion.OneLargeContourSuffices | accident_detector.py:49-62 | With no negative area and a non-negative minimum, one contour larger than twice the minimum makes the comparison significant under both rules. |
| Motion.Observe | accident_detector.py:28-70 | One call. A latched detector returns True and keeps its state. An unprimed one stores the blurred frame and returns False, counter and latch untouched. The value returned equals the latch afterwards. A non-negative counter stays non-negative and moves by at most one. The consistency invariant is preserved. |
| Motion.ObserveCompares | accident_detector.py:59-68 | A comparing call stores the new image. A significant comparison adds exactly 1 and returns True iff the new count reaches the threshold. Any other comparison sets the counter to max(0, counter-1), returns False and leaves the latch clear. |
| Motion.Run | accident_detector.py:28-70 | A sequence of calls returns one value per frame and keeps the consistency invariant: counter >= 0, nothing counted before a frame is stored, counter below the latch value until latched, equal to it once latched. |
| Motion.LatchedStaysLatched | accident_detector.py:29-30 | From a latched state, every later call returns True and the state never changes. |
| Motion.TrueIsFinal | accident_detector.py:29-30 | Once a call has returned True, every later call on the same instance returns True. |
| Motion.FirstCallPrimes | accident_detector.py:36-38 | The first call after construction or reset returns False. |
| Motion.CounterBoundedBySignificant | accident_detector.py:36-68 | From the initial state, the counter never exceeds the number of significant comparisons seen. Until the latch, the stored image is that of the last frame. |
| Motion.NoEarlyDetection | accident_detector.py:62-66 | Call k returns True only if frames 0..k hold at least max(threshold, 1) significant comparisons. |
| Motion.SignificantPairsPrefix | accident_detector.py:62 | A prefix of the frames holds no more significant comparisons than the whole. |
| Motion.LatchTiming | accident_detector.py:36-66 | With every comparison significant, call k (0-based) returns True iff k >= max(threshold, 1). For threshold N >= 1 the first True is call N+1, and none comes earlier. |
| Motion.SixthCallFires | accident_detector.py:20-22 | With the default settings and every comparison giving contours of 600 and 700, six calls return False five times and then True. |
| Motion.GatesIndependent | accident_detector.py:62 | Neither gate of the double rule implies the other. One contour of 600 is significant for the fallback only. Three of 400 pass the total but not the single-contour test. |
| Detector.MotionStats | accident_detector.py:50-56 | The loop's flag is True iff some contour area exceeds the minimum, and its total is the sum of all areas. |
| Detector.AccidentDetector.constructor | accident_detector.py:9-26 | Settings are the loaded ones, or 500/25/5 when loading fails. No previous frame, counter 0, not detected. |
| Detector.AccidentDetector.DetectAccident | accident_detector.py:28-70 | New fields and result are exactly `Observe` with the double gate. Latched: returns True, nothing changes. First frame: returns False, counter unchanged. The object invariant is kept. |
| Detector.AccidentDetector.CaptureScreenshot | accident_detector.py:72-84 | Returns `Screenshot.Path` of the video name and timestamp. |
| Detector.AccidentDetector.Reset | accident_detector.py:86-89 | Restores exactly the constructor's initial state. |
| Screenshot.KeepSafe | accident_detector.py:78 | The result holds only letters, digits, ' ', '.' and '_', and is no longer than the input. |
| Screenshot.KeepSafeAppend | accident_detector.py:78 | Filtering distributes over concatenation, so the kept characters stay in their order. |
| Screenshot.KeepSafeCounts | accident_detector.py:78 | Each safe character is kept as often as it occurs. No other character is kept. |
| Screenshot.KeepSafeOfSafe | accident_detector.py:78 | A name made only of safe characters passes unchanged. |
| Screenshot.KeepSafeIdempotent | accident_detector.py:78 | Filtering twice is filtering once. |
| Screenshot.RStrip | accident_detector.py:78 | The result is the longest prefix not ending in whitespace. Everything removed is whitespace. |
| Screenshot.SafeVideoName | accident_detector.py:78 | The name part holds only safe characters and never ends with a space. |
| Screenshot.ReplaceColons | accident_detector.py:79 | Same length. Each ':' becomes '-', and every other character is kept in place. |
| Screenshot.Path | accident_detector.py:80 | The path starts with `screenshots/accident_` and ends with `.jpg`. Its length is the prefix, the safe name, one separator, the timestamp and the extension. |
| Screenshot.PathHasNoColon | accident_detector.py:78-80 | The path contains no ':'. |
| Screenshot.PathDistinguishesTimestamps | accident_detector.py:78-80 | For one video, two different digit-and-colon timestamps give two different paths. |
| Fallback.HasLargeContour | main.py:44-48 | The loop with early exit returns True iff some contour area exceeds the minimum. There is no total-area gate. |
| Fallback.AccidentDetector.constructor | main.py:17-23 | Settings are always 500/25/5. No previous frame, counter 0, not detected. |
| Fallback.AccidentDetector.DetectAccident | main.py:25-60 | New fields and result are exactly `Observe` with the single gate. It has the same latch, priming and counter behaviour as the primary detector. |
| Fallback.AccidentDetector.CaptureScreenshot | main.py:62-71 | Returns the same `Screenshot.Path` as the primary detector. |
| Fallback.AccidentDetector.Reset | main.py:73-76 | Clears the previous frame, the latch and the counter. |
| Fallback.EmailSender.constructor | main.py:79-81 | The fixed sender and recipient addresses. |
| Fallback.EmailSender.SendAlert | main.py:83-87 | Always reports success. |
| App.BaseName | main.py:234 | The result is the suffix of the path after its last '/', holds no '/', and is the whole path when there is no '/'. |
| App.FirstTrue | main.py:245-246 | Gives the index of the first True, or None when there is none. |
| App.ExpectedAlerts | main.py:236-261 | A complete run raises at most one alert: none iff the detector never returns True. Otherwise the alert is for the first True call, with that frame's timestamp and the screenshot path for it. |
| App.AlertTiming | main.py:245-255 | With every comparison significant, the alert is raised on the frame at index max(threshold, 1). A video with no more frames than that raises none. |
| App.QuietVideoRaisesNoAlert | main.py:245-246 | A video with fewer significant comparisons than max(threshold, 1) raises no alert. |
| App.Scan | main.py:236-246 | The loop's bookkeeping after i frames. The guard is set iff an alert has been raised. At most one alert exists, and it is the alert of a frame already read, with that frame's timestamp and screenshot path. |
| App.ScanFollowsRun | main.py:236-266 | The loop's bookkeeping agrees with the detector's run. Before the guard is set, the detector state is that of the frames read and no alert is raised. After, exactly the alert of the first True is raised. |
| App.ScanRaisesExpectedAlerts | main.py:236-266 | After the whole video the bookkeeping holds exactly the expected alerts, and the guard is set iff an alert was raised. |
| App.AccidentDetectionApp.constructor | main.py:90-105 | Builds a detector with the loaded settings. No video, not playing, no thread. The detector is in its initial state. |
| App.AccidentDetectionApp.UploadVideo | main.py:175-186 | An empty dialog result changes nothing. Otherwise the path is stored, playback stops and the detector is reset. The thread, the guard and the frame count are untouched. |
| App.AccidentDetectionApp.TogglePlay | main.py:188-206 | Without a loaded video nothing changes. Otherwise `playing` flips, and a thread is started when playing resumes with none alive. The path, the guard and the frame count are untouched. |
| App.AccidentDetectionApp.StopVideo | main.py:208-218 | Always clears `playing` and resets the detector. The path, thread and guard are untouched. |
| App.AccidentDetectionApp.ProcessVideo | main.py:220-284 | An unopened video or a run that is not playing raises nothing. An unopened video also leaves the guard and the frame count as they were. For an opened video that is playing, the alerts are exactly the expected ones: at most one, for the first detection. For an opened video, the guard ends set iff an alert was raised, and the frame count is the number of frames read. The run ends stopped, detector reset, thread gone. |

## Left out

- The image pipeline (grayscale conversion, Gaussian blur, absolute difference, binary threshold, dilation, contour extraction and contour areas) is made of library calls. It enters as the two opaque functions of `Motion.Vision`.
- Contour areas are `real`, so floating-point rounding of the area sum is not modelled. The three settings are a real and two integers.
- Reading the JSON configuration is file I/O. The constructor takes the parsed detection section, or None when loading raised. Any failure there gives all three defaults, as in the source.
- Writing the screenshot (`imwrite`) and creating the `screenshots` directory are file I/O. Only the file name is modelled.
- email_sender.py is not part of this model: it assembles a MIME message and talks SMTP. Pairing the primary detector with the fallback sender is a modelling choice; the source never makes it. A successful import gives the SMTP sender, and a failed one defines both stand-ins. No modelled state depends on the send result, and the "failed to send" status is not modelled.
- Console output is not modelled: the import-error message and the fallback sender's printed simulation lines.
- The Tk interface is not modelled: labels, buttons and their states, dialogs, the progress bar, frame rendering, the status texts and the playback delay.
- The processing thread is not modelled as a thread: `ProcessVideo` runs to completion as one step. `threadAlive` stands for `is_alive()`, and a pause that arrives while frames are being read is not representable. The `playing` flag is read by the loop but never changes during it.
- The capture handle (`cap`, its release, `fps`) is not modelled. The video enters as the sequence of frames it yields, each with its position already formatted as text. The `mins:secs` formatting of the position is floating-point arithmetic and is left out.
- App.AccidentDetectionApp.ProcessVideo: requires a stored video path. The source starts this method only from `toggle_play`, after checking the path.
- The application is modelled with the primary detector only. With the fallback detector it behaves the same way with the single gate, since both classes are proved against the same `Observe`.
- Screenshot.IsAlnum: only ASCII letters and digits count. Python's `isalnum` also accepts non-ASCII letters and digits, which this model drops from the name.
- Screenshot.IsWhitespace: only ASCII whitespace is stripped. After filtering, the only whitespace character that can remain is the space, so the file name is unaffected.
- App.BaseName: splits at '/' only, as on POSIX. On Windows `os.path.basename` also splits at '\\'.
