/** The sliding-window blink detector of backend/blinkDetector.js.

    The detector keeps the last second of filtered samples and a counter of
    the samples seen since the last accepted blink.  On every sample it slides
    the window, applies a refractory gate and a full-window gate, and then
    looks for a blink shape: a global minimum away from the window edges with
    a strictly rising flank on each side that is long enough, spanning between
    40 and 500 milliseconds. */
module BlinkDetection {
  import opened Wrappers

  /** One filtered sample.  Values are only compared, so `real` is enough;
      timestamps are integer milliseconds. */
  datatype Sample = Sample(value: real, timestamp: int)

  /** A detected blink: `ts` is in milliseconds, `duration` in seconds. */
  datatype BlinkEvent = BlinkEvent(ts: int, duration: real)

  /** The direction in which a stable point is searched for. */
  datatype Direction = Left | Right

  const DefaultSampleRate: nat := 250
  const BufferSeconds: nat := 1
  const RefractorySeconds: real := 0.5
  const EdgeGuard: int := 10
  const MinStableDistance: int := 5
  const MinDurationMs: int := 40
  const MaxDurationMs: int := 500

  function BufferSize(sampleRate: nat): nat { BufferSeconds * sampleRate }

  function RefractoryPeriod(sampleRate: nat): real { RefractorySeconds * sampleRate as real }

  function Increment(d: Direction): int { if d == Left then -1 else 1 }

  function Abs(x: int): nat { if x < 0 then -x else x }

  // ---------------------------------------------------------------------------
  // Specification of findBlinkShape's minimum search

  /** `m` is the first index that holds the smallest value of `chunk`. */
  ghost predicate IsFirstMin(chunk: seq<Sample>, m: int)
  {
    && 0 <= m < |chunk|
    && (forall j :: 0 <= j < |chunk| ==> chunk[m].value <= chunk[j].value)
    && (forall j :: 0 <= j < m ==> chunk[m].value < chunk[j].value)
  }

  /** The index the minimum scan of findBlinkShape ends with; -1 on an empty chunk. */
  function FirstMinIndex(chunk: seq<Sample>): (m: int)
    ensures chunk == [] ==> m == -1
    ensures chunk != [] ==> IsFirstMin(chunk, m)
    decreases |chunk|
  {
    if chunk == [] then -1
    else
      var prefix := chunk[..|chunk| - 1];
      var m := FirstMinIndex(prefix);
      assert forall j :: 0 <= j < |prefix| ==> prefix[j] == chunk[j];
      if m == -1 || chunk[|chunk| - 1].value < chunk[m].value then |chunk| - 1 else m
  }

  /** The first minimum is the only index with the first-minimum property. */
  lemma FirstMinUnique(chunk: seq<Sample>, m: int)
    requires IsFirstMin(chunk, m)
    ensures m == FirstMinIndex(chunk)
  {
    assert IsFirstMin(chunk, FirstMinIndex(chunk));
  }

  // ---------------------------------------------------------------------------
  // Specification of findStablePoint

  /** The index where findStablePoint's walk stops: it keeps stepping in
      direction `d` while the current index lies strictly inside the chunk
      (on both sides, whatever the direction) and the next value is strictly
      greater than the current one. */
  function Walk(chunk: seq<Sample>, current: int, d: Direction): (c: int)
    ensures c == current || 0 <= c < |chunk|
    ensures 0 <= current < |chunk| ==> 0 <= c < |chunk|
    decreases if d == Left then current else |chunk| - current
  {
    if 0 < current < |chunk| - 1 && chunk[current + Increment(d)].value > chunk[current].value
    then Walk(chunk, current + Increment(d), d)
    else current
  }

  /** Stepping from `start` to `c` in direction `d`, every step reaches a
      strictly greater value. */
  ghost predicate RisesTo(chunk: seq<Sample>, start: int, c: int, d: Direction)
  {
    && 0 <= start < |chunk|
    && 0 <= c < |chunk|
    && match d
       case Left => c <= start && forall k :: c <= k < start ==> chunk[k].value > chunk[k + 1].value
       case Right => start <= c && forall k :: start <= k < c ==> chunk[k + 1].value > chunk[k].value
  }

  /** The rise cannot be continued past `c` in direction `d`: the edge of the
      chunk is reached, or the next value is not greater. */
  ghost predicate StopsAt(chunk: seq<Sample>, c: int, d: Direction)
    requires 0 <= c < |chunk|
  {
    match d
    case Left => c == 0 || chunk[c - 1].value <= chunk[c].value
    case Right => c == |chunk| - 1 || chunk[c + 1].value <= chunk[c].value
  }

  /** The walk follows a strict rise and stops where the rise ends; started on
      an edge of the chunk it does not move at all. */
  lemma {:induction false} WalkRises(chunk: seq<Sample>, start: int, d: Direction)
    requires 0 <= start < |chunk|
    ensures RisesTo(chunk, start, Walk(chunk, start, d), d)
    ensures 0 < start < |chunk| - 1 ==> StopsAt(chunk, Walk(chunk, start, d), d)
    ensures start == 0 || start == |chunk| - 1 ==> Walk(chunk, start, d) == start
    decreases if d == Left then start else |chunk| - start
  {
    var next := start + Increment(d);
    if 0 < start < |chunk| - 1 && chunk[next].value > chunk[start].value {
      WalkRises(chunk, next, d);
    }
  }

  /** Conversely, from an interior start, a strict rise that cannot be
      continued ends exactly where the walk stops. */
  lemma {:induction false} WalkUnique(chunk: seq<Sample>, start: int, c: int, d: Direction)
    requires 0 < start < |chunk| - 1
    requires RisesTo(chunk, start, c, d)
    requires StopsAt(chunk, c, d)
    ensures c == Walk(chunk, start, d)
    decreases if d == Left then start else |chunk| - start
  {
    var next := start + Increment(d);
    if c != start {
      assert chunk[next].value > chunk[start].value;
      assert RisesTo(chunk, next, c, d);
      if 0 < next < |chunk| - 1 {
        WalkUnique(chunk, next, c, d);
      } else {
        WalkRises(chunk, next, d);
      }
    }
  }

  /** The sample findStablePoint returns: the end of the walk, provided it lies
      more than MinStableDistance samples from the start. */
  function StablePoint(chunk: seq<Sample>, start: int, d: Direction): (p: Option<Sample>)
    ensures p.Some? <==> Abs(start - Walk(chunk, start, d)) > MinStableDistance
    ensures p.Some? ==> 0 < start < |chunk| - 1
    ensures p.Some? ==>
              var c := Walk(chunk, start, d);
              && RisesTo(chunk, start, c, d) && StopsAt(chunk, c, d)
              && Abs(start - c) > MinStableDistance && p.value == chunk[c]
  {
    var c := Walk(chunk, start, d);
    if Abs(start - c) > MinStableDistance then
      WalkRises(chunk, start, d);
      Some(chunk[c])
    else None
  }

  // ---------------------------------------------------------------------------
  // Specification of findBlinkShape

  /** The event findBlinkShape builds from a chunk, or None. */
  function BlinkShape(chunk: seq<Sample>): (e: Option<BlinkEvent>)
    ensures e.Some? ==> EdgeGuard <= FirstMinIndex(chunk) < |chunk| - EdgeGuard
    ensures e.Some? ==> 0.04 < e.value.duration < 0.5
  {
    var m := FirstMinIndex(chunk);
    if m < EdgeGuard || m >= |chunk| - EdgeGuard then None
    else
      var left := StablePoint(chunk, m, Left);
      var right := StablePoint(chunk, m, Right);
      if left.Some? && right.Some? then
        var duration := right.value.timestamp - left.value.timestamp;
        if MinDurationMs < duration < MaxDurationMs
        then Some(BlinkEvent(right.value.timestamp, duration as real / 1000.0))
        else None
      else None
  }

  /** The shape of a blink in `chunk`: the first minimum `m` lies at least
      EdgeGuard samples from both edges; strict rises lead from `m` to the
      stable points `l` on the left and `r` on the right, each further than
      MinStableDistance samples from `m`, and neither rise can be continued;
      the span from `l` to `r` lasts strictly between 40 and 500 ms. */
  ghost predicate IsBlinkAt(chunk: seq<Sample>, l: int, m: int, r: int)
  {
    && IsFirstMin(chunk, m)
    && EdgeGuard <= m < |chunk| - EdgeGuard
    && RisesTo(chunk, m, l, Left) && StopsAt(chunk, l, Left)
    && RisesTo(chunk, m, r, Right) && StopsAt(chunk, r, Right)
    && m - l > MinStableDistance && r - m > MinStableDistance
    && MinDurationMs < chunk[r].timestamp - chunk[l].timestamp < MaxDurationMs
  }

  /** The event reported for a blink with stable points `l` and `r`. */
  function EventOf(chunk: seq<Sample>, l: int, r: int): (e: BlinkEvent)
    requires 0 <= l < |chunk| && 0 <= r < |chunk|
    ensures e.ts == chunk[r].timestamp
    ensures e.duration * 1000.0 == (chunk[r].timestamp - chunk[l].timestamp) as real
  {
    BlinkEvent(chunk[r].timestamp, (chunk[r].timestamp - chunk[l].timestamp) as real / 1000.0)
  }

  /** Every event findBlinkShape reports is a blink shape, reported with the
      right stable point's timestamp and its duration in seconds. */
  lemma BlinkShapeSound(chunk: seq<Sample>)
    requires BlinkShape(chunk).Some?
    ensures var m := FirstMinIndex(chunk);
            var l := Walk(chunk, m, Left);
            var r := Walk(chunk, m, Right);
            && IsBlinkAt(chunk, l, m, r)
            && l < m < r
            && BlinkShape(chunk).value == EventOf(chunk, l, r)
            && 0.04 < BlinkShape(chunk).value.duration < 0.5
  {
    var m := FirstMinIndex(chunk);
    WalkRises(chunk, m, Left);
    WalkRises(chunk, m, Right);
  }

  /** Every blink shape is found, with the event built from its stable points. */
  lemma BlinkShapeComplete(chunk: seq<Sample>, l: int, m: int, r: int)
    requires IsBlinkAt(chunk, l, m, r)
    ensures BlinkShape(chunk) == Some(EventOf(chunk, l, r))
  {
    FirstMinUnique(chunk, m);
    WalkUnique(chunk, m, l, Left);
    WalkUnique(chunk, m, r, Right);
  }

  /** A chunk whose first minimum lies within EdgeGuard samples of an edge
      yields no event. */
  lemma EdgeMinimumRejected(chunk: seq<Sample>)
    requires FirstMinIndex(chunk) < EdgeGuard || FirstMinIndex(chunk) >= |chunk| - EdgeGuard
    ensures BlinkShape(chunk) == None
  {
  }

  // ---------------------------------------------------------------------------
  // Specification of process

  /** The detector's mutable state: the detection window and the number of
      samples processed since the last accepted blink. */
  datatype DetectorState = DetectorState(buffer: seq<Sample>, samplesSinceLastBlink: nat)

  /** What one call of process leaves behind and returns. */
  datatype StepResult = StepResult(state: DetectorState, event: Option<BlinkEvent>)

  /** A freshly constructed detector. */
  function Initial(): DetectorState { DetectorState([], 0) }

  /** The state the detector maintains from construction on: the window never
      holds more than one second of samples, nor more samples than were
      processed since the last blink. */
  ghost predicate DetectorInvariant(sampleRate: nat, st: DetectorState)
  {
    && |st.buffer| <= BufferSize(sampleRate)
    && |st.buffer| <= st.samplesSinceLastBlink
  }

  /** The window after appending `sample`: it ends with `sample`, and only the
      oldest element is dropped, and only when the capacity is exceeded. */
  function Slide(buffer: seq<Sample>, sample: Sample, capacity: nat): (r: seq<Sample>)
    ensures |buffer| <= capacity ==> |r| <= capacity
    ensures capacity > 0 ==> |r| > 0 && r[|r| - 1] == sample
    ensures |buffer| + 1 <= capacity ==> r == buffer + [sample]
    ensures 0 < capacity < |buffer| + 1 ==> r == buffer[1..] + [sample]
  {
    var pushed := buffer + [sample];
    if |pushed| > capacity then pushed[1..] else pushed
  }

  /** Both gates of process are passed: the refractory period has elapsed and
      the window is full. */
  function GatesPassed(sampleRate: nat, st: DetectorState, sample: Sample): (passed: bool)
    ensures sampleRate > 0 && DetectorInvariant(sampleRate, st) ==>
              (passed <==> |Slide(st.buffer, sample, BufferSize(sampleRate))| == BufferSize(sampleRate))
  {
    && RefractoryPeriod(sampleRate) <= (st.samplesSinceLastBlink + 1) as real
    && BufferSize(sampleRate) <= |Slide(st.buffer, sample, BufferSize(sampleRate))|
  }

  /** One call of process on a detector built for `sampleRate`. */
  function Step(sampleRate: nat, st: DetectorState, sample: Sample): (r: StepResult)
    ensures DetectorInvariant(sampleRate, st) ==> DetectorInvariant(sampleRate, r.state)
    ensures r.event.Some? <==> GatesPassed(sampleRate, st, sample) && BlinkShape(Slide(st.buffer, sample, BufferSize(sampleRate))).Some?
    ensures r.event.Some? ==> r.event == BlinkShape(Slide(st.buffer, sample, BufferSize(sampleRate)))
    ensures r.event.Some? ==> r.state == Initial()
    ensures r.event.None? ==>
              r.state == DetectorState(Slide(st.buffer, sample, BufferSize(sampleRate)), st.samplesSinceLastBlink + 1)
  {
    var window := Slide(st.buffer, sample, BufferSize(sampleRate));
    var count := st.samplesSinceLastBlink + 1;
    if (count as real) < RefractoryPeriod(sampleRate) then StepResult(DetectorState(window, count), None)
    else if |window| < BufferSize(sampleRate) then StepResult(DetectorState(window, count), None)
    else
      match BlinkShape(window)
      case Some(e) => StepResult(Initial(), Some(e))
      case None => StepResult(DetectorState(window, count), None)
  }

  /** The refractory gate never decides anything on its own: whenever it
      rejects, the window is not full either, so the full-window gate would
      have rejected too.  The window and the counter restart together, and
      the refractory period is shorter than the window. */
  lemma RefractoryGateSubsumed(sampleRate: nat, st: DetectorState, sample: Sample)
    requires sampleRate > 0
    requires DetectorInvariant(sampleRate, st)
    requires (st.samplesSinceLastBlink + 1) as real < RefractoryPeriod(sampleRate)
    ensures |Slide(st.buffer, sample, BufferSize(sampleRate))| < BufferSize(sampleRate)
  {
  }

  // ---------------------------------------------------------------------------
  // The detector object

  class BlinkDetector {
    const sampleRate: nat
    const bufferSize: nat
    const refractoryPeriod: real
    var buffer: seq<Sample>
    var samplesSinceLastBlink: nat

    ghost predicate Valid()
      reads this
    {
      && sampleRate > 0
      && bufferSize == BufferSize(sampleRate)
      && refractoryPeriod == RefractoryPeriod(sampleRate)
      && DetectorInvariant(sampleRate, State())
    }

    function State(): DetectorState
      reads this
    {
      DetectorState(buffer, samplesSinceLastBlink)
    }

    /** `requestedRate == 0` stands for an absent (or falsy) sampleRate option,
        which falls back to 250 Hz. */
    constructor (requestedRate: nat)
      ensures Valid()
      ensures sampleRate == if requestedRate == 0 then DefaultSampleRate else requestedRate
      ensures bufferSize == sampleRate && refractoryPeriod == 0.5 * sampleRate as real
      ensures State() == Initial()
    {
      var rate: nat := if requestedRate == 0 then DefaultSampleRate else requestedRate;
      sampleRate := rate;
      bufferSize := BufferSeconds * rate;
      refractoryPeriod := RefractorySeconds * rate as real;
      buffer := [];
      samplesSinceLastBlink := 0;
    }

    /** Adds `sample` to the window and reports a blink, if one is found. */
    method Process(sample: Sample) returns (blink: Option<BlinkEvent>)
      requires Valid()
      modifies this
      ensures Valid()
      ensures State() == Step(sampleRate, old(State()), sample).state
      ensures blink == Step(sampleRate, old(State()), sample).event
    {
      buffer := buffer + [sample];
      if |buffer| > bufferSize {
        buffer := buffer[1..];
      }
      samplesSinceLastBlink := samplesSinceLastBlink + 1;
      if (samplesSinceLastBlink as real) < refractoryPeriod {
        return None;
      }
      if |buffer| < bufferSize {
        return None;
      }
      blink := FindBlinkShape(buffer);
      if blink.Some? {
        samplesSinceLastBlink := 0;
        buffer := [];
        return blink;
      }
      return None;
    }

    /** Scans `chunk` for its first minimum and checks the blink shape around it. */
    method FindBlinkShape(chunk: seq<Sample>) returns (blink: Option<BlinkEvent>)
      ensures blink == BlinkShape(chunk)
    {
      // minIndex == -1 plays the part of the initial minVal = Infinity
      var minIndex := -1;
      var minVal: real := 0.0;
      for i := 0 to |chunk|
        invariant minIndex == FirstMinIndex(chunk[..i])
        invariant minIndex >= 0 ==> minVal == chunk[minIndex].value
      {
        assert chunk[..i + 1][..i] == chunk[..i];
        if minIndex == -1 || chunk[i].value < minVal {
          minVal := chunk[i].value;
          minIndex := i;
        }
      }
      assert chunk[..|chunk|] == chunk;

      if minIndex < EdgeGuard || minIndex >= |chunk| - EdgeGuard {
        return None;
      }

      var leftPoint := FindStablePoint(chunk, minIndex, Left);
      var rightPoint := FindStablePoint(chunk, minIndex, Right);
      if leftPoint.Some? && rightPoint.Some? {
        var duration := rightPoint.value.timestamp - leftPoint.value.timestamp;
        if MinDurationMs < duration < MaxDurationMs {
          return Some(BlinkEvent(rightPoint.value.timestamp, duration as real / 1000.0));
        }
      }
      return None;
    }

    /** Walks from `startIndex` in direction `d` while the signal rises, and
        returns the sample reached if it is far enough from the start. */
    method FindStablePoint(chunk: seq<Sample>, startIndex: int, d: Direction) returns (point: Option<Sample>)
      ensures point == StablePoint(chunk, startIndex, d)
    {
      var increment := Increment(d);
      var currentIndex := startIndex;
      while 0 < currentIndex < |chunk| - 1 && chunk[currentIndex + increment].value > chunk[currentIndex].value
        invariant Walk(chunk, currentIndex, d) == Walk(chunk, startIndex, d)
        decreases if d == Left then currentIndex else |chunk| - currentIndex
      {
        currentIndex := currentIndex + increment;
      }
      if Abs(startIndex - currentIndex) > MinStableDistance {
        return Some(chunk[currentIndex]);
      }
      return None;
    }
  }
}
