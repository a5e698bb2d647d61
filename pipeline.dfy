/** The per-line data path of backend/server.js: a serial line is trimmed and
    split at commas; only a line with exactly two fields is processed, its
    value goes through the bandpass filter, the filtered value and the line's
    timestamp go to the blink detector, and a detected blink is appended to
    `recentBlinks`, which the periodic tick then trims and summarises.

    `parseInt` is a parameter: the model treats JavaScript's parseInt as an
    arbitrary function from a field to an integer. */
module Pipeline {
  import opened Wrappers
  import opened BlinkDetection
  import opened Biquad
  import opened Stats

  const Separator: char := ','

  // ---------------------------------------------------------------------------
  // String.prototype.trim and split(",")

  /** The white space that trim removes (the ASCII controls, the no-break
      space, the byte-order mark and the line and paragraph separators). */
  predicate IsSpace(ch: char)
  {
    ch == ' ' || ch == '\t' || ch == '\n' || ch == '\r' || ch == '\U{000B}' || ch == '\U{000C}'
    || ch == '\U{00A0}' || ch == '\U{FEFF}' || ch == '\U{2028}' || ch == '\U{2029}'
  }

  /** The number of white-space characters at the start of `s`. */
  function LeadingSpaces(s: string): (n: nat)
    ensures n <= |s|
    ensures forall k :: 0 <= k < n ==> IsSpace(s[k])
    ensures n < |s| ==> !IsSpace(s[n])
    decreases |s|
  {
    if s == [] || !IsSpace(s[0]) then 0 else 1 + LeadingSpaces(s[1..])
  }

  /** The number of white-space characters at the end of `s`. */
  function TrailingSpaces(s: string): (n: nat)
    ensures n <= |s|
    ensures forall k :: |s| - n <= k < |s| ==> IsSpace(s[k])
    ensures n < |s| ==> !IsSpace(s[|s| - 1 - n])
    decreases |s|
  {
    if s == [] || !IsSpace(s[|s| - 1]) then 0 else 1 + TrailingSpaces(s[..|s| - 1])
  }

  /** `s` without its leading and trailing white space: a contiguous slice of
      `s` that neither starts nor ends with white space, with only white space
      cut off on either side. */
  function Trim(s: string): (r: string)
    ensures LeadingSpaces(s) + |r| <= |s| && r == s[LeadingSpaces(s)..LeadingSpaces(s) + |r|]
    ensures r == [] || (!IsSpace(r[0]) && !IsSpace(r[|r| - 1]))
    ensures forall k :: LeadingSpaces(s) + |r| <= k < |s| ==> IsSpace(s[k])
  {
    var rest := s[LeadingSpaces(s)..];
    rest[..|rest| - TrailingSpaces(rest)]
  }

  /** The number of occurrences of `c` in `s`. */
  function Occurrences(s: string, c: char): nat
    decreases |s|
  {
    if s == [] then 0 else (if s[0] == c then 1 else 0) + Occurrences(s[1..], c)
  }

  /** The pieces joined back together with `sep` between them. */
  function Join(parts: seq<string>, sep: char): string
    requires |parts| > 0
    decreases |parts|
  {
    if |parts| == 1 then parts[0] else parts[0] + [sep] + Join(parts[1..], sep)
  }

  /** `s` cut at every `sep`: one piece more than there are separators, no
      piece holds a separator, and joining the pieces gives `s` back. */
  function Split(s: string, sep: char): (parts: seq<string>)
    ensures |parts| == Occurrences(s, sep) + 1
    ensures forall k :: 0 <= k < |parts| ==> sep !in parts[k]
    ensures Join(parts, sep) == s
    decreases |s|
  {
    if s == [] then [[]]
    else
      var rest := Split(s[1..], sep);
      if s[0] == sep then
        assert [sep] + s[1..] == s;
        [[]] + rest
      else
        var parts := [[s[0]] + rest[0]] + rest[1..];
        assert parts[1..] == rest[1..];
        assert |rest| > 1 ==> Join(rest, sep) == rest[0] + [sep] + Join(rest[1..], sep);
        assert [s[0]] + s[1..] == s;
        parts
  }

  /** The guard of the data handler: a line is processed exactly when its
      trimmed text holds one comma. */
  lemma TwoFieldsIffOneComma(line: string)
    ensures |Split(Trim(line), Separator)| == 2 <==> Occurrences(Trim(line), Separator) == 1
  {
  }

  // ---------------------------------------------------------------------------
  // One line through the pipeline

  /** The filtered value broadcast for each processed line. */
  datatype Reading = Reading(timestamp: int, eegVal: real)

  /** What a processed line produces: the reading, and a blink if one was detected. */
  datatype LineOutput = LineOutput(data: Reading, blink: Option<BlinkEvent>)

  /** The server state the data handler changes: the filter's taps, the
      detector's state and `recentBlinks`. */
  datatype ServerState = ServerState(taps: Taps, detector: DetectorState, recentBlinks: seq<BlinkEvent>)

  datatype LineResult = LineResult(state: ServerState, out: Option<LineOutput>)

  function EventList(e: Option<BlinkEvent>): seq<BlinkEvent>
  {
    if e.Some? then [e.value] else []
  }

  /** The data handler on one line, for filter coefficients `c` and a
      detector built for `sampleRate`. */
  function LineStep(c: Coefficients, sampleRate: nat, st: ServerState, line: string, parseInt: string -> int): (r: LineResult)
    ensures |Split(Trim(line), Separator)| != 2 ==> r == LineResult(st, None)
    ensures |Split(Trim(line), Separator)| == 2 ==>
              var parts := Split(Trim(line), Separator);
              var timestamp := parseInt(parts[0]);
              var raw := parseInt(parts[1]) as real;
              var filtered := Output(c, st.taps, raw);
              var step := Step(sampleRate, st.detector, Sample(filtered, timestamp));
              && r.out == Some(LineOutput(Reading(timestamp, filtered), step.event))
              && r.state.taps == Shift(st.taps, raw, filtered)
              && r.state.detector == step.state
              && r.state.recentBlinks == st.recentBlinks + EventList(step.event)
  {
    var parts := Split(Trim(line), Separator);
    if |parts| != 2 then LineResult(st, None)
    else
      var timestamp := parseInt(parts[0]);
      var raw := parseInt(parts[1]) as real;
      var filtered := Output(c, st.taps, raw);
      var step := Step(sampleRate, st.detector, Sample(filtered, timestamp));
      LineResult(ServerState(Shift(st.taps, raw, filtered), step.state, st.recentBlinks + EventList(step.event)),
                 Some(LineOutput(Reading(timestamp, filtered), step.event)))
  }

  /** The outputs of the data handler on `lines`, together with the final state. */
  datatype LinesResult = LinesResult(state: ServerState, outs: seq<Option<LineOutput>>)

  function RunLines(c: Coefficients, sampleRate: nat, st: ServerState, lines: seq<string>, parseInt: string -> int): (r: LinesResult)
    ensures |r.outs| == |lines|
    decreases |lines|
  {
    if lines == [] then LinesResult(st, [])
    else
      var first := LineStep(c, sampleRate, st, lines[0], parseInt);
      var rest := RunLines(c, sampleRate, first.state, lines[1..], parseInt);
      LinesResult(rest.state, [first.out] + rest.outs)
  }

  /** The blinks broadcast for a sequence of outputs, in order. */
  function Broadcast(outs: seq<Option<LineOutput>>): seq<BlinkEvent>
    decreases |outs|
  {
    if outs == [] then []
    else (if outs[0].Some? then EventList(outs[0].value.blink) else []) + Broadcast(outs[1..])
  }

  lemma AppendAssociates(a: seq<BlinkEvent>, b: seq<BlinkEvent>, c: seq<BlinkEvent>)
    ensures a + b + c == a + (b + c)
  {
  }

  /** One line appends to `recentBlinks` exactly the blink it outputs. */
  lemma LineRecords(c: Coefficients, sampleRate: nat, st: ServerState, line: string, parseInt: string -> int)
    ensures var r := LineStep(c, sampleRate, st, line, parseInt);
            r.state.recentBlinks == st.recentBlinks + (if r.out.Some? then EventList(r.out.value.blink) else [])
  {
  }

  /** `recentBlinks` grows by exactly the blinks that were broadcast, in the
      order they were broadcast. */
  lemma {:induction false} RecordedEqualsBroadcast(c: Coefficients, sampleRate: nat, st: ServerState,
                                                   lines: seq<string>, parseInt: string -> int)
    ensures var r := RunLines(c, sampleRate, st, lines, parseInt);
            r.state.recentBlinks == st.recentBlinks + Broadcast(r.outs)
    decreases |lines|
  {
    if lines != [] {
      var first := LineStep(c, sampleRate, st, lines[0], parseInt);
      var rest := RunLines(c, sampleRate, first.state, lines[1..], parseInt);
      var outs := [first.out] + rest.outs;
      var head := if first.out.Some? then EventList(first.out.value.blink) else [];
      assert RunLines(c, sampleRate, st, lines, parseInt) == LinesResult(rest.state, outs);
      assert outs[1..] == rest.outs;
      assert Broadcast(outs) == head + Broadcast(rest.outs);
      LineRecords(c, sampleRate, st, lines[0], parseInt);
      RecordedEqualsBroadcast(c, sampleRate, first.state, lines[1..], parseInt);
      assert rest.state.recentBlinks == st.recentBlinks + head + Broadcast(rest.outs);
      AppendAssociates(st.recentBlinks, head, Broadcast(rest.outs));
    } else {
      assert RunLines(c, sampleRate, st, lines, parseInt) == LinesResult(st, []);
      assert Broadcast([]) == [];
      assert st.recentBlinks + [] == st.recentBlinks;
    }
  }

  // ---------------------------------------------------------------------------
  // The server object

  class Server {
    const filter: BiquadFilter
    const detector: BlinkDetector
    var recentBlinks: seq<BlinkEvent>

    ghost predicate Valid()
      reads this, detector
    {
      detector.Valid()
    }

    function State(): ServerState
      reads this, filter, detector
    {
      ServerState(filter.State(), detector.State(), recentBlinks)
    }

    /** The server at start-up: the bandpass filter for Q = 2.5 at rest, a
        250 Hz detector and no recorded blinks.  `k` stands for
        K = tan(pi * 10 / 250), the filter's centre frequency over its
        sample rate. */
    constructor (k: real)
      ensures Valid() && fresh(filter) && fresh(detector)
      ensures filter.Coeffs() == BandpassCoefficients(k, ServerQ)
      ensures IsBandpass(filter.Coeffs())
      ensures detector.sampleRate == 250
      ensures State() == ServerState(ZeroTaps(), Initial(), [])
    {
      ServerNormaliserPositive(k);
      filter := new BiquadFilter(BandpassCoefficients(k, ServerQ));
      detector := new BlinkDetector(250);
      recentBlinks := [];
    }

    /** The serial data handler on one line. */
    method OnLine(line: string, parseInt: string -> int) returns (out: Option<LineOutput>)
      requires Valid()
      modifies this, filter, detector
      ensures Valid()
      ensures LineResult(State(), out) == LineStep(filter.Coeffs(), detector.sampleRate, old(State()), line, parseInt)
    {
      var parts := Split(Trim(line), Separator);
      if |parts| == 2 {
        var timestamp := parseInt(parts[0]);
        var rawEegVal := parseInt(parts[1]);
        var filteredVal := filter.Process(rawEegVal as real);
        var blinkEvent := detector.Process(Sample(filteredVal, timestamp));
        if blinkEvent.Some? {
          recentBlinks := recentBlinks + [blinkEvent.value];
        }
        out := Some(LineOutput(Reading(timestamp, filteredVal), blinkEvent));
      } else {
        out := None;
      }
    }

    /** The periodic statistics tick at time `now`. */
    method OnTick(now: int) returns (stats: StatsSnapshot)
      modifies this
      ensures TickResult(recentBlinks, stats) == Tick(old(recentBlinks), now)
    {
      recentBlinks := Evict(recentBlinks, now);
      var avgDuration := 0.0;
      if |recentBlinks| > 0 {
        var totalDuration := SumDurations(recentBlinks);
        avgDuration := totalDuration / |recentBlinks| as real;
      }
      stats := StatsSnapshot(|recentBlinks|, avgDuration);
    }
  }
}
