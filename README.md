# Blink detection pipeline — a Dafny model

This project models the signal path of an EEG fatigue dashboard. Raw sensor
lines come in over a serial link. Each value goes through a two-pole bandpass
filter (`BiquadFilter`). A sliding-window shape matcher (`BlinkDetector`) then
turns the filtered samples into blink events. A timer counts the blinks of the
last minute and averages their durations. The browser dashboard keeps the
newest 2500 graph points and the 10 newest blinks, and puts a marker on the
graph point of each blink.

Modules, one per source component:

- `BlinkDetection` (`blink_detector.dfy`) models `backend/blinkDetector.js`.
  - Pure specification functions: `FirstMinIndex`, `Walk`, `StablePoint`, `BlinkShape`, `Slide` and `Step`.
  - The class `BlinkDetector` holds the window `buffer` and the counter `samplesSinceLastBlink`.
  - Its `Process` method mutates that state. `FindBlinkShape` and `FindStablePoint` keep the source's `for` and `while` loops, and each is proved equal to its specification function.
- `DetectorTrace` (`detector_trace.dfy`) states what a sequence of `process` calls does.
- `Biquad` (`biquad.dfy`) models the filter class of `backend/server.js`, with its recurrence and its delay taps.
- `Stats` (`stats.dfy`) models the `setInterval` body of `backend/server.js`: eviction, count and mean.
- `Pipeline` (`pipeline.dfy`) models the serial data handler of `backend/server.js`.
  - It covers `trim`, `split(",")`, filter, detector and `recentBlinks.push`.
  - A `Server` class owns the filter, the detector and `recentBlinks`.
- `Dashboard` (`dashboard.dfy`) models the `onmessage` updaters of `frontend/src/App.jsx`.
- `GraphMarkers` (`graph_markers.dfy`) models the `blinkMarkers` expression of `frontend/src/components/Graph.jsx`.
- `Wrappers` (`wrappers.dfy`) holds `Option`. It stands for a JavaScript `null` or `undefined` result.

Values are `real` and timestamps `int`. The detector only compares values,
and the filter is stated over exact reals.

## How the code behaves where a reader might expect otherwise

These points come from the code as written. The model follows the code in each case.

- **The refractory gate never decides anything.** The window and the counter
  are reset together on a detection, and both grow by one per call. So the
  window never holds more samples than the counter (`DetectorInvariant`).
  Whenever `samplesSinceLastBlink < 0.5 * sampleRate` holds, the window is not
  full either (`RefractoryGateSubsumed`). The minimum gap between two events
  is therefore one window, `bufferSize` calls (`EventsSeparated`). It is not
  window plus refractory period, as a reading of the comments would suggest.
- **The cleared window does not prevent re-detection.** Suppose the same
  window of samples is fed again right after a detection. The window fills up
  again, and on its last sample the same blink is reported a second time
  (`ReplayedWindowRedetected`).
- **`findStablePoint` checks both edges whatever the direction.** Its `while`
  guard tests `currentIndex > 0` and `currentIndex < length - 1` on every step.
  So a walk that starts at either edge does not move at all (`WalkRises`). The
  edge guard of `findBlinkShape` keeps the minimum well inside the window, so
  this does not change any detection.
- **The graph trim keeps 2500 points in all.** `newData.slice(newData.length - 2500)`
  keeps the newest 2499 old points and then the new point (`AppendPoint`).

## Model

| member | source | states |
|---|---|---|
| `BlinkDetection.BlinkDetector.constructor` | backend/blinkDetector.js:4-16 | An absent sample rate (0) becomes 250. The window size equals the rate and the refractory period is half the rate. The buffer starts empty and the counter at 0. |
| `BlinkDetection.BlinkDetector.Process` | backend/blinkDetector.js:23-54 | The new window, the new counter and the returned event are those of `Step` on the old state. The detector invariant is kept. |
| `BlinkDetection.BlinkDetector.FindBlinkShape` | backend/blinkDetector.js:61-94 | The minimum scan loop and the checks after it return exactly `BlinkShape(chunk)`. |
| `BlinkDetection.BlinkDetector.FindStablePoint` | backend/blinkDetector.js:103-122 | The walk loop returns exactly `StablePoint`: the sample where the walk stops if it lies more than 5 samples from the start, otherwise None. Any start index is accepted. |
| `BlinkDetection.FirstMinIndex` | backend/blinkDetector.js:62-70 | It is -1 on an empty chunk. Otherwise it is an index holding the smallest value, and every earlier index holds a strictly larger value. |
| `BlinkDetection.FirstMinUnique` | backend/blinkDetector.js:62-70 | Exactly one index has the first-minimum property, and it is the scan's result. |
| `BlinkDetection.Walk` | backend/blinkDetector.js:104-114 | The walk ends where it started or inside the chunk. It ends inside the chunk when it starts inside. |
| `BlinkDetection.WalkRises` | backend/blinkDetector.js:107-114 | Every step of the walk reaches a strictly greater value. From an interior start, the walk stops where the rise cannot go on. From an edge start, it does not move. |
| `BlinkDetection.WalkUnique` | backend/blinkDetector.js:107-114 | From an interior start, any strict rise that cannot be continued ends where the walk ends. Together with `WalkRises` this characterises the walk. |
| `BlinkDetection.StablePoint` | backend/blinkDetector.js:103-122 | A point is returned exactly when the walk ends more than 5 samples from the start. A point is found only from an interior start. The point found is where the walk stops: every step up to it is a strict rise, and the rise cannot go on past it. |
| `BlinkDetection.EventOf` | backend/blinkDetector.js:82-89 | Given the two stable points `l` (left) and `r` (right) of a blink, the event's `ts` is the timestamp at `r`. Its duration times 1000 is the span in ms from `l` to `r`. `BlinkShapeSound` shows the reported event is `EventOf` at the two walk ends. |
| `BlinkDetection.BlinkShape` | backend/blinkDetector.js:61-94 | An event is reported only when the first minimum lies at least 10 samples from both edges, and its duration in seconds lies strictly between 0.04 and 0.5. `BlinkShapeSound` and `BlinkShapeComplete` characterise it fully: it reports an event exactly for the blink shapes `IsBlinkAt`. |
| `BlinkDetection.BlinkShapeSound` | backend/blinkDetector.js:72-93 | A reported event comes from a full blink shape around the first minimum, with left < minimum < right. Its duration in seconds lies strictly between 0.04 and 0.5. |
| `BlinkDetection.BlinkShapeComplete` | backend/blinkDetector.js:61-93 | Every blink shape in a chunk is reported, with the event built from its stable points. |
| `BlinkDetection.EdgeMinimumRejected` | backend/blinkDetector.js:72-75 | A first minimum below index 10, or at index length-10 or later, yields no event. This includes the empty chunk, whose first minimum is -1. |
| `BlinkDetection.Slide` | backend/blinkDetector.js:24-28 | The window ends with the new sample and stays within capacity. Nothing is dropped while there is room. When the capacity is exceeded, exactly the oldest sample is dropped. |
| `BlinkDetection.GatesPassed` | backend/blinkDetector.js:30-40 | For a detector with a positive rate that keeps its invariant, both gates pass exactly when the slid window is full. |
| `BlinkDetection.Step` | backend/blinkDetector.js:23-54 | The detector invariant is kept. An event is returned exactly when both gates pass and the shape matcher finds one in the slid window. After an event the window is empty and the counter is 0. Without an event the slid window is kept and the counter goes up by one. |
| `BlinkDetection.RefractoryGateSubsumed` | backend/blinkDetector.js:30-40 | Under the invariant, whenever the refractory gate rejects, the window is not yet full. |
| `DetectorTrace.EventNeedsFullWindow` | backend/blinkDetector.js:25-40 | The call at position t can return an event only if the old window length plus t + 1 reaches `bufferSize`. |
| `DetectorTrace.EventsSeparated` | backend/blinkDetector.js:38-51 | Any two returned events are at least `bufferSize` calls apart. |
| `DetectorTrace.RefillWindow` | backend/blinkDetector.js:25-53 | The samples that complete a window return nothing until the last one. The last one returns what the shape matcher finds in the completed window. |
| `DetectorTrace.FirstWindow` | backend/blinkDetector.js:10-53 | A new detector returns nothing for its first `bufferSize - 1` samples. It then returns the shape matcher's verdict on the first full window. |
| `DetectorTrace.ReplayedWindowRedetected` | backend/blinkDetector.js:45-51 | After a detection the state is the initial one. Feeding the matched window again reports the same event on its last sample, and nothing before it. |
| `Biquad.BandpassCoefficients` | backend/server.js:24-30 | The derived coefficients have b1 = 0 and b2 = -b0, and b0 (1 + K/Q + K²) = K/Q. |
| `Biquad.ServerNormaliserPositive` | backend/server.js:25 | With the server's Q = 2.5 (line 60) the normaliser 1 + K/Q + K² is positive for every K, so the derivation never divides by zero. |
| `Biquad.BiquadFilter.constructor` | backend/server.js:19-31 | The filter starts with all four taps at zero and with the given coefficients. |
| `Biquad.BiquadFilter.Process` | backend/server.js:32-39 | The result is b0·x + b1·x1 + b2·x2 − a1·y1 − a2·y2 on the taps from before the call. Afterwards x2 is the old x1, x1 is the input, y2 is the old y1 and y1 is the result. |
| `Biquad.Output` | backend/server.js:33 | From zero taps the output is b0·x. `RunObeysRecurrence` shows that the outputs are the solution of the difference equation. |
| `Biquad.Shift` | backend/server.js:34-37 | Zero input and output keep zero taps at zero. |
| `Biquad.ShiftForgets` | backend/server.js:34-37 | After two shifts the taps hold only the last two inputs and outputs, in order. Nothing older survives. |
| `Biquad.FilterRun` | backend/server.js:32-39 | There is one output per input. `RunObeysRecurrence` and `RecurrenceDeterminesRun` show that the run is the one solution of the difference equation. |
| `Biquad.RunObeysRecurrence` | backend/server.js:32-39 | Running the filter sample by sample solves the difference equation at every position of any input sequence. The taps stand for the values before the start. |
| `Biquad.RecurrenceDeterminesRun` | backend/server.js:32-39 | The difference equation has exactly one solution, so the filter's output sequence is determined by it. |
| `Biquad.ZeroInputZeroOutput` | backend/server.js:20-39 | From zero taps, an all-zero input gives an all-zero output. |
| `Biquad.ConstantInputCancels` | backend/server.js:26-33 | With b1 = 0 and b2 = -b0, a constant input drops out of the recurrence from the third sample on. |
| `Stats.Evict` | backend/server.js:73-76 | An event is kept exactly when its `ts` exceeds now − 60000. |
| `Stats.EvictAppend` | backend/server.js:76 | Eviction commutes with concatenation, so the kept events keep their original order. |
| `Stats.BoundaryEvicted` | backend/server.js:73-76 | An event exactly 60000 ms old is dropped. |
| `Stats.EvictLater` | backend/server.js:71-76 | Evicting at a later tick what an earlier tick kept equals one eviction at the later time. |
| `Stats.SumDurations` | backend/server.js:81 | The total is non-negative when every duration is. |
| `Stats.SumAppend` | backend/server.js:81 | The total of a concatenation is the sum of the two totals. |
| `Stats.MeanDuration` | backend/server.js:79-83 | The average is 0 when there are no events. Otherwise the average times the count equals the total. |
| `Stats.Snapshot` | backend/server.js:79-88 | `blinkRate` is the number of kept events. `avgDuration` is 0 when none are kept; otherwise it times the count equals the sum of durations. |
| `Stats.Tick` | backend/server.js:71-88 | A tick keeps exactly the evicted list and reports its length as the rate. The reported statistics are `Snapshot` of the kept list, so the average bounds of `MeanWithinBounds` apply. |
| `Stats.SumBounds` | backend/server.js:81 | If every duration lies in [lo, hi], the total lies in [n·lo, n·hi]. |
| `Stats.MeanWithinBounds` | backend/server.js:79-83 | The average of a non-empty kept list lies between any lower and upper bound of its durations. |
| `Stats.TwoBlinksOneRecent` | backend/server.js:72-88 | Take blinks at now − 70000 and now − 10000. Only the second is kept; the rate is 1 and the average is its duration. |
| `Pipeline.Trim` | backend/server.js:127 | The result is a contiguous slice of the line that neither starts nor ends with white space. Only white space is cut off on either side. |
| `Pipeline.LeadingSpaces` | backend/server.js:127 | It counts the white space at the start of a string and stops at the first other character. |
| `Pipeline.TrailingSpaces` | backend/server.js:127 | It counts the white space at the end of a string and stops at the last other character. |
| `Pipeline.Split` | backend/server.js:127 | There is one field more than there are commas. No field contains a comma, and joining the fields with commas gives the text back. |
| `Pipeline.TwoFieldsIffOneComma` | backend/server.js:127-128 | A line is processed exactly when its trimmed text holds one comma. |
| `Pipeline.LineStep` | backend/server.js:127-139 | A line without exactly two fields changes nothing and outputs nothing. Otherwise the raw field goes through the filter. The filtered value and the parsed timestamp go to the detector. The returned event, and only it, is appended to `recentBlinks`. |
| `Pipeline.LineRecords` | backend/server.js:134-139 | One line appends to `recentBlinks` exactly the blink it outputs, and nothing when it outputs none. |
| `Pipeline.RecordedEqualsBroadcast` | backend/server.js:134-146 | Over any sequence of lines, `recentBlinks` grows by exactly the broadcast blinks, in broadcast order. |
| `Pipeline.Server.constructor` | backend/server.js:57-68 | The server starts with the bandpass filter for Q = 2.5 at rest, so b1 = 0 and b2 = -b0. It has a 250 Hz detector in its initial state and an empty `recentBlinks`. |
| `Pipeline.Server.OnLine` | backend/server.js:125-159 | The new filter taps, detector state and `recentBlinks`, and the output, are those of `LineStep`. |
| `Pipeline.Server.OnTick` | backend/server.js:71-88 | The new `recentBlinks` and the reported statistics are those of `Tick`. |
| `Dashboard.LastN` | frontend/src/App.jsx:33 | It returns the last n elements, or all of them when there are fewer. |
| `Dashboard.FirstN` | frontend/src/App.jsx:41 | It returns the first n elements, or all of them when there are fewer. |
| `Dashboard.AppendPoint` | frontend/src/App.jsx:30-36 | There are at most 2500 points and the new point is last. Nothing is dropped while the old length + 1 ≤ 2500. Otherwise the result is the newest old points followed by the new one. |
| `Dashboard.GraphKeepsNewest` | frontend/src/App.jsx:30-36 | Appending the points one message at a time keeps exactly the newest 2500 points of the whole stream. |
| `Dashboard.LastNOfWindow` | frontend/src/App.jsx:30-36 | Taking the newest 2500 after one update equals taking them from the untrimmed history. |
| `Dashboard.LastNOfShort` | frontend/src/App.jsx:35 | A list of at most n points is its own last n points. |
| `Dashboard.PrependBlink` | frontend/src/App.jsx:41 | The new blink is first and there are at most 10 entries. The rest are the previous list's first (up to) 9 entries, in order. |
| `Dashboard.Reverse` | frontend/src/App.jsx:41 | Element k of the result is element n − 1 − k of the input. |
| `Dashboard.RecentBlinksNewestFirst` | frontend/src/App.jsx:41 | After a stream of blinks, the list is the first 10 entries of (the reversed stream followed by the previous list). |
| `Dashboard.RecentBlinksFromEmpty` | frontend/src/App.jsx:11-41 | From an empty list, the list is the newest 10 blinks in reverse order of arrival. |
| `Dashboard.OnMessage` | frontend/src/App.jsx:22-48 | A message without `eegVal` leaves the points alone, and one without `blinkEvent` leaves the blinks alone. Otherwise the updaters apply. `fatigueStats` is replaced whole when present. |
| `Dashboard.MessagesKeepBounds` | frontend/src/App.jsx:22-48 | Whatever messages arrive, the state keeps at most 2500 points and 10 blinks. |
| `Dashboard.BoundedFromStart` | frontend/src/App.jsx:10-48 | Starting from the initial state, any message sequence leaves at most 2500 points and 10 blinks. |
| `GraphMarkers.FirstMatch` | frontend/src/components/Graph.jsx:88 | It returns the first index whose `x` is the timestamp, or the length if there is none. |
| `GraphMarkers.FindPoint` | frontend/src/components/Graph.jsx:88 | It finds nothing exactly when no point has the timestamp. Otherwise it returns the first such point. |
| `GraphMarkers.Markers` | frontend/src/components/Graph.jsx:86-91 | There are no more markers than blinks. Each marker is the point found for some blink's `ts`. |
| `GraphMarkers.MarkersAppend` | frontend/src/components/Graph.jsx:86-91 | Markers keep the relative order of their blinks: the markers of a concatenation are the concatenated markers. |
| `GraphMarkers.MarkerOfOne` | frontend/src/components/Graph.jsx:88-91 | A single blink yields its first matching point, or no marker when no point has its `ts`. |
| `GraphMarkers.MarkersMatchTimestamps` | frontend/src/components/Graph.jsx:86-91 | Every marker is a point of the graph with a timestamp. There are no markers exactly when no blink matches any point. |

## Left out

- The coefficient derivation's `Math.tan` (backend/server.js:24) is left out. `K` is a parameter of `BandpassCoefficients` and of the `Server` constructor, which stands for tan(π·10/250).
- IEEE double rounding, `NaN` and `Infinity` are not modelled. All values are exact reals. A `NaN` from `parseInt` or from `Q = 0` does not occur in the model.
- `Biquad.BandpassCoefficients`: requires Q ≠ 0 and a non-zero normaliser. Where the source divides by zero there, it yields infinities or NaN, which the model cannot represent.
- `parseInt` is a parameter `string -> int` of `LineStep` and `OnLine`. Its handling of leading white space, partial digits and `NaN` is not modelled.
- `Pipeline.Trim`: strips only the characters `IsSpace` lists. JavaScript's `trim` also strips the other Unicode space separators.
- `BlinkDetection.BlinkDetector.constructor`: the sample rate is a `nat`, and 0 stands for an absent or falsy option. Negative and fractional rates are not modelled.
- `Date.now` and `setInterval` are left out: `now` is a parameter of `Tick` and `OnTick`. The two-second cadence is not modelled.
- JavaScript runs the data handler and the interval callback on one thread, so each is one method call here. No concurrency is modelled.
- The serial port, WebSocket server, Express/HTTP setup and broadcasting to clients are I/O (backend/server.js:43-54, 90-97, 141-153, 162-166). `LineOutput` only says what would be broadcast.
- CSV recording (backend/server.js:101-122, 154-156) and backend/recorder.js are left out as file-system I/O.
- backend/serial_echo.js and backend/list_ports.js are left out as serial-port utilities.
- WebSocket message parsing in `App.jsx` is not modelled: a message is already split into optional fields. A present but `null` or non-numeric `eegVal` is not modelled.
- The React lifecycle, the Chart.js construction and update, and the assignment of the markers into the chart datasets are UI only (frontend/src/components/Graph.jsx:12-75, 83, 94-96).
- The display formatting of frontend/src/components/BlinkStats.jsx and the socket sends of frontend/src/components/Controls.jsx are UI only.
