# Gesture sender: decision layer

A model of the decision layer of a webcam utility that sends the clipboard text
to a local server when the user shows a fist. The image work underneath it is
done with OpenCV and is not modelled. Its results enter the model as plain
values: contour areas, hull sizes, and per-defect angle and depth.

Three modules:

- `Tracker` (tracker.dfy) covers the `SimpleHandTracker` object.
  - Its skin-colour bounds live in a `HandTracker` class.
  - `Calibrate` overwrites the bounds from integer per-channel means.
  - `FindHand` picks the first contour of largest area, and only if that area is above 3000.
  - `CheckFist` is a counting loop. It is proved equal to the fist decision `IsFist`.
- `Clipboard` (clipboard.dfy) models Python's `str.isspace` and `str.strip()`. On top of them it defines the test that decides whether the pasted text may be sent.
- `Sender` (sender.dfy) is the debounce/cooldown state machine of the main loop.
  - `Next` is the specification of one frame.
  - `Run` replays a sequence of frames.
  - The `GestureSender` class holds the loop-level counter and timestamp. Its `OnFrame` method updates them in place and is proved to agree with `Next`.

Inputs from outside the model:

- Time is a `real` number of seconds, as `time.time()` gives it.
- The server's answer is a boolean per frame, true when the POST would return status 200.
- The clipboard text is a `string`.

The source comment at gesturesend.py:85 says a fist has "0, 1, or 2" defects. The code at line 86 accepts at most one valley, and the model follows the code.

## Model

| member | source | states |
|---|---|---|
| `Tracker.HandTracker.constructor` | gesturesend.py:12-15 | The tracker starts with the default bounds (0,20,70)–(20,255,255) and is not calibrated |
| `Tracker.CalibratedLower` | gesturesend.py:28 | Each lower channel is at most the mean and at least 0. It lies no more than the channel's offset (30 for hue, 40 for saturation and value) below the mean, and is either 0 or exactly that offset below |
| `Tracker.CalibratedUpper` | gesturesend.py:29 | Upper hue is at most 180 and at most 30 above the mean. It is either 180 or exactly 30 above, and at least the mean when the mean is at most 180. Upper saturation and value are 255 |
| `Tracker.CalibratedBoundsAdmit` | gesturesend.py:28-29 | The calibrated bounds admit a colour exactly when it lies within the offsets around the mean and its hue is at most 180. So they admit the mean itself when its hue is at most 180 |
| `Tracker.HandTracker.Calibrate` | gesturesend.py:17-30 | The new lower and upper bounds are the calibrated bounds of the given mean, and `calibrated` is set |
| `Tracker.FirstLargest` | gesturesend.py:46 | Returns an index into the non-empty contour list. No contour is larger than the one at that index, and every contour before it is strictly smaller (Python's `max` keeps the first maximum) |
| `Tracker.FindHand` | gesturesend.py:45-49 | A hand is reported exactly when some contour has area above 3000. The reported contour is then the first contour of largest area, and its area is above 3000 |
| `Tracker.SmallContoursAreNoFist` | gesturesend.py:45-49 | When no contour is above 3000, no hand is handed to the classifier and the frame is not a fist |
| `Tracker.ValleyCountPositive` | gesturesend.py:82-83 | The valley count is positive exactly when some defect has angle ≤ 90 and depth > 30 |
| `Tracker.AtMostOneValley` | gesturesend.py:82-87 | A valley count of at most one is the same as no two distinct defects both being valleys |
| `Tracker.HandTracker.CheckFist` | gesturesend.py:51-91 | The counting loop returns `IsFist`. That is false for a missing contour, for a hull of at most 3 indices, when the defect query raises, or when any defect's measurement raises. Otherwise it is true exactly when at most one defect is a valley, and true when there are no defects |
| `Clipboard.TrimStart` | gesturesend.py:174 | The result is the suffix of the text starting at its first non-whitespace character. Every dropped character is whitespace in Python's sense |
| `Clipboard.TrimEnd` | gesturesend.py:174 | The result is the prefix of the text ending at its last non-whitespace character. Every dropped character is whitespace |
| `Clipboard.SendableIff` | gesturesend.py:174 | `text and text.strip()` holds exactly when some character of the text is not whitespace |
| `Sender.Next` | gesturesend.py:148-177 | A fist frame adds one to the counter and any other frame clears it, unless the send succeeds. Arming happens exactly when this frame completes more than 10 fist frames in a row or the manual key is pressed. A post is made exactly when armed, strictly more than 3 s after the last success, with a non-whitespace character to send. Success gives counter 0 and time `now`. Every other outcome keeps the time |
| `Sender.Run` | gesturesend.py:126-177 | Replaying frames gives one outcome per frame. What those outcomes and the final state are is stated by the lemmas below |
| `Sender.RunExtends` | gesturesend.py:126-177 | Replaying one more frame gives the replay of the earlier frames followed by that frame's step from the state they reached |
| `Sender.RunStamp` | gesturesend.py:175-177 | After a run, the last trigger time is the starting one if no frame sent. Otherwise it is the time of the last frame that sent |
| `Sender.QuietWithinCooldown` | gesturesend.py:169-177 | Frames that all come at most 3 s after the current stamp post nothing, however they are armed, and keep the stamp. When they are all fist frames, the counter grows by one per frame |
| `Sender.FistStreakCounts` | gesturesend.py:148-157 | Consecutive fist frames without the key, while the counter stays ≤ 10, only add one each and never arm |
| `Sender.TenFistsDoNotArmEleventhDoes` | gesturesend.py:153-157 | From a cleared counter, 10 consecutive fist frames arm nothing and an 11th fist frame arms |
| `Sender.OneSendPerCooldown` | gesturesend.py:171-177 | After a successful send, no frame of any later run that stays within 3 s of it posts, however it is armed (by vision or by the key) |
| `Sender.SendAgainAfterCooldown` | gesturesend.py:169-177 | After any run in which nothing was sent, an armed frame more than 3 s after the starting stamp sends if its text is sendable and the server accepts it |
| `Sender.HeldFistSendsAgain` | gesturesend.py:148-177 | A fist held after a successful send posts nothing for at least 10 further fist frames within 3 s. The next fist frame more than 3 s after that send sends again, if its text is sendable and the server accepts it |
| `Sender.FailedSendRetries` | gesturesend.py:175-177 | A failed send armed by vision leaves the time unchanged and the counter above 10. So the next fist frame, not earlier than the failed one, re-arms and posts again exactly when its text is sendable |
| `Sender.GestureSender.constructor` | gesturesend.py:94-97 | The loop starts with counter 0 and last trigger time 0 |
| `Sender.GestureSender.OnFrame` | gesturesend.py:148-177 | The new counter, the new timestamp and the returned outcome are those `Next` gives for the old state and this frame |

## Left out

- Camera capture, frame flipping, window drawing, status text and colours, the "SENT!" overlay and its 500 ms pause: these are I/O and display.
- The keys other than the manual trigger 'f': quit (Esc), calibrate ('c') and the debug toggle ('d'). These are keyboard UI, and `OnFrame` takes only whether 'f' was pressed. Because the keys form one `elif` chain, a frame that quits or calibrates never also triggers manually. The model does not capture that Esc ends the loop before that frame's dispatch.
- Segmentation: HSV conversion, `inRange`, dilation, blur, `findContours`, `contourArea`, `convexHull`, `convexityDefects`. These are OpenCV library algorithms. Their results are inputs: the `Contour` area, the hull-index count and the `Defects` value. `Admits` states the inclusive bound test that `inRange` applies, but no mask is computed.
- Defect geometry: side lengths, Heron's area, the `acos` angle scaled by 57 and the depth `2·area/a`. This is floating-point arithmetic, so each defect's angle and depth are given values. A computation that raises (zero side, domain error) becomes `Degenerate`.
- Debug drawing in `check_fist`: it does not affect the result.
- Calibration statistics: the mean and the unused standard deviation over the centre region are float statistics. `Calibrate` takes an integer mean per channel, so the float-to-uint8 truncation of a fractional mean is not modelled.
- `convexHull` at gesturesend.py:61 lies outside the `try`. An exception there would leave `check_fist` and end the program. The model assumes the hull count is always available.
- Network and clipboard: the HTTP POST of `send_text_to_server` and `pyperclip.paste()` are outside calls. The POST's result is the `accepted` input, and the clipboard is the `clipboard` input. Any exception, timeout or non-200 status collapses to `accepted == false`.
- Sender.Next: time is exact real arithmetic, so float rounding of `time.time()` differences is not modelled.
- Logging with `print`.
