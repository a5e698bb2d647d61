/** What a sequence of process calls on one BlinkDetector does. */
module DetectorTrace {
  import opened Wrappers
  import opened BlinkDetection

  /** The results of feeding `samples`, in order, to a detector in state `st`. */
  function Run(sampleRate: nat, st: DetectorState, samples: seq<Sample>): (outs: seq<Option<BlinkEvent>>)
    ensures |outs| == |samples|
    decreases |samples|
  {
    if samples == [] then []
    else
      var r := Step(sampleRate, st, samples[0]);
      [r.event] + Run(sampleRate, r.state, samples[1..])
  }

  /** No event is reported before the window has been refilled: the call at
      position `t` can report one only if the window held, together with the
      `t + 1` samples since, at least a full window's worth. */
  lemma {:induction false} EventNeedsFullWindow(sampleRate: nat, st: DetectorState, samples: seq<Sample>, t: nat)
    requires t < |samples|
    requires Run(sampleRate, st, samples)[t].Some?
    ensures |st.buffer| + t + 1 >= BufferSize(sampleRate)
    decreases t
  {
    var r := Step(sampleRate, st, samples[0]);
    if t > 0 {
      assert Run(sampleRate, st, samples)[t] == Run(sampleRate, r.state, samples[1..])[t - 1];
      EventNeedsFullWindow(sampleRate, r.state, samples[1..], t - 1);
    }
  }

  /** Two reported events are at least one window (bufferSize calls) apart:
      the window is emptied on every detection and must fill up again. */
  lemma {:induction false} EventsSeparated(sampleRate: nat, st: DetectorState, samples: seq<Sample>, i: nat, j: nat)
    requires i < j < |samples|
    requires Run(sampleRate, st, samples)[i].Some? && Run(sampleRate, st, samples)[j].Some?
    ensures j - i >= BufferSize(sampleRate)
    decreases i
  {
    var r := Step(sampleRate, st, samples[0]);
    var rest := Run(sampleRate, r.state, samples[1..]);
    assert Run(sampleRate, st, samples) == [r.event] + rest;
    if i == 0 {
      assert rest[j - 1].Some?;
      EventNeedsFullWindow(sampleRate, r.state, samples[1..], j - 1);
    } else {
      EventsSeparated(sampleRate, r.state, samples[1..], i - 1, j - 1);
    }
  }

  /** `n` calls that report nothing. */
  function Silent(n: nat): (s: seq<Option<BlinkEvent>>)
    ensures |s| == n && forall k :: 0 <= k < n ==> s[k] == None
  {
    if n == 0 then [] else [None] + Silent(n - 1)
  }

  /** Refilling a window: from a state whose window holds `|st.buffer|`
      samples (no more than were counted since the last blink), the samples
      that complete the window report nothing until the last one, which
      reports exactly what the shape matcher finds in the completed window. */
  lemma {:induction false} RefillWindow(sampleRate: nat, st: DetectorState, samples: seq<Sample>)
    requires sampleRate > 0
    requires |st.buffer| <= st.samplesSinceLastBlink
    requires samples != [] && |st.buffer| + |samples| == BufferSize(sampleRate)
    ensures Run(sampleRate, st, samples) == Silent(|samples| - 1) + [BlinkShape(st.buffer + samples)]
    decreases |samples|
  {
    var r := Step(sampleRate, st, samples[0]);
    var window := st.buffer + [samples[0]];
    assert Slide(st.buffer, samples[0], BufferSize(sampleRate)) == window;
    if |samples| == 1 {
      assert GatesPassed(sampleRate, st, samples[0]);
      assert st.buffer + samples == window;
    } else {
      assert r.event == None;
      assert r.state == DetectorState(window, st.samplesSinceLastBlink + 1);
      RefillWindow(sampleRate, r.state, samples[1..]);
      assert window + samples[1..] == st.buffer + samples;
      assert Silent(|samples| - 1) == [None] + Silent(|samples| - 2);
    }
  }

  /** A new detector reports nothing for its first bufferSize - 1 samples and
      then exactly what the shape matcher finds in the first full window. */
  lemma FirstWindow(sampleRate: nat, samples: seq<Sample>)
    requires sampleRate > 0 && |samples| == BufferSize(sampleRate)
    ensures Run(sampleRate, Initial(), samples) == Silent(|samples| - 1) + [BlinkShape(samples)]
  {
    RefillWindow(sampleRate, Initial(), samples);
    assert [] + samples == samples;
  }

  /** Feeding the window that was just matched once more through the detector
      reports the same blink again, on its last sample: clearing the window
      delays a re-detection by one window but does not prevent it. */
  lemma ReplayedWindowRedetected(sampleRate: nat, st: DetectorState, sample: Sample)
    requires sampleRate > 0
    requires DetectorInvariant(sampleRate, st)
    requires Step(sampleRate, st, sample).event.Some?
    ensures Step(sampleRate, st, sample).state == Initial()
    ensures Run(sampleRate, Initial(), Slide(st.buffer, sample, BufferSize(sampleRate)))
            == Silent(BufferSize(sampleRate) - 1) + [Step(sampleRate, st, sample).event]
  {
    var r := Step(sampleRate, st, sample);
    var window := Slide(st.buffer, sample, BufferSize(sampleRate));
    assert r.event == BlinkShape(window) && r.state == Initial();
    assert GatesPassed(sampleRate, st, sample);
    FirstWindow(sampleRate, window);
  }
}
