/** The two-pole bandpass filter of backend/server.js (class BiquadFilter).

    Arithmetic is over `real`: the model states the recurrence exactly and
    says nothing about IEEE rounding. */
module Biquad {

  /** The five coefficients, fixed at construction. */
  datatype Coefficients = Coefficients(b0: real, b1: real, b2: real, a1: real, a2: real)

  /** The delay taps: the last two inputs and the last two outputs. */
  datatype Taps = Taps(x1: real, x2: real, y1: real, y2: real)

  function ZeroTaps(): Taps { Taps(0.0, 0.0, 0.0, 0.0) }

  /** The shape of the coefficients the constructor derives: no x1 term,
      and an x2 term that cancels the x term. */
  predicate IsBandpass(c: Coefficients) { c.b1 == 0.0 && c.b2 == -c.b0 }

  /** The quality factor of the server's filter. */
  const ServerQ: real := 2.5

  /** With Q = 2.5 the normaliser 1 + K/Q + K^2 is positive for every K, so
      the derivation never divides by zero. */
  lemma ServerNormaliserPositive(k: real)
    ensures 1.0 + k / ServerQ + k * k > 0.0
  {
    assert 1.0 + k / ServerQ + k * k == (k + 0.2) * (k + 0.2) + 0.96;
  }

  /** The coefficients the constructor derives from K = tan(pi * Fc / Fs) and Q. */
  function BandpassCoefficients(k: real, q: real): (c: Coefficients)
    requires q != 0.0 && 1.0 + k / q + k * k != 0.0
    ensures IsBandpass(c)
    ensures c.b0 * (1.0 + k / q + k * k) == k / q
  {
    var norm := 1.0 / (1.0 + k / q + k * k);
    var b0 := k / q * norm;
    Coefficients(b0, 0.0, -b0, 2.0 * (k * k - 1.0) * norm, (1.0 - k / q + k * k) * norm)
  }

  /** The difference equation's right-hand side: the new output from the new
      input, the two previous inputs and the two previous outputs. */
  function Recur(c: Coefficients, x: real, x1: real, x2: real, y1: real, y2: real): real
  {
    c.b0 * x + c.b1 * x1 + c.b2 * x2 - c.a1 * y1 - c.a2 * y2
  }

  /** The output for input `x` given the taps before the call. */
  function Output(c: Coefficients, t: Taps, x: real): (y: real)
    ensures t == ZeroTaps() ==> y == c.b0 * x
  {
    Recur(c, x, t.x1, t.x2, t.y1, t.y2)
  }

  /** The taps after input `x` produced output `y`. */
  function Shift(t: Taps, x: real, y: real): (s: Taps)
    ensures t == ZeroTaps() && x == 0.0 && y == 0.0 ==> s == ZeroTaps()
  {
    Taps(x, t.x1, y, t.y1)
  }

  /** After two samples the taps hold only those two inputs and their two
      outputs: nothing older survives a shift. */
  lemma ShiftForgets(t: Taps, x: real, y: real, x': real, y': real)
    ensures Shift(Shift(t, x, y), x', y') == Taps(x', x, y', y)
  {
  }

  /** The outputs of feeding `xs`, in order, to a filter whose taps are `t`. */
  function FilterRun(c: Coefficients, t: Taps, xs: seq<real>): (ys: seq<real>)
    ensures |ys| == |xs|
    decreases |xs|
  {
    if xs == [] then []
    else
      var y := Output(c, t, xs[0]);
      [y] + FilterRun(c, Shift(t, xs[0], y), xs[1..])
  }

  /** The input at position `n`, reaching back into the taps for n = -1, -2. */
  function InputAt(t: Taps, xs: seq<real>, n: int): real
  {
    if 0 <= n < |xs| then xs[n] else if n == -1 then t.x1 else if n == -2 then t.x2 else 0.0
  }

  /** The output at position `n`, reaching back into the taps for n = -1, -2. */
  function OutputAt(t: Taps, ys: seq<real>, n: int): real
  {
    if 0 <= n < |ys| then ys[n] else if n == -1 then t.y1 else if n == -2 then t.y2 else 0.0
  }

  /** `ys` solves the difference equation
      y[n] = b0 x[n] + b1 x[n-1] + b2 x[n-2] - a1 y[n-1] - a2 y[n-2]
      for the inputs `xs`, with the taps `t` as the values before the start. */
  ghost predicate ObeysRecurrence(c: Coefficients, t: Taps, xs: seq<real>, ys: seq<real>)
  {
    && |ys| == |xs|
    && forall n :: 0 <= n < |xs| ==> RecurrenceAt(c, t, xs, ys, n)
  }

  /** The difference equation at position `n`. */
  ghost predicate RecurrenceAt(c: Coefficients, t: Taps, xs: seq<real>, ys: seq<real>, n: nat)
    requires n < |xs| && n < |ys|
  {
    ys[n] == Recur(c, xs[n], InputAt(t, xs, n - 1), InputAt(t, xs, n - 2),
                   OutputAt(t, ys, n - 1), OutputAt(t, ys, n - 2))
  }

  /** Running the filter sample by sample, updating the taps, solves the
      difference equation over the whole input sequence. */
  lemma {:induction false} RunObeysRecurrence(c: Coefficients, t: Taps, xs: seq<real>)
    ensures ObeysRecurrence(c, t, xs, FilterRun(c, t, xs))
    decreases |xs|
  {
    if xs != [] {
      var ys := FilterRun(c, t, xs);
      var y := Output(c, t, xs[0]);
      var t' := Shift(t, xs[0], y);
      RunObeysRecurrence(c, t', xs[1..]);
      assert ys == [y] + FilterRun(c, t', xs[1..]);
      assert RecurrenceAt(c, t, xs, ys, 0);
      forall n | 1 <= n < |xs|
        ensures RecurrenceAt(c, t, xs, ys, n)
      {
        assert RecurrenceAt(c, t', xs[1..], ys[1..], n - 1);
        assert InputAt(t', xs[1..], n - 2) == InputAt(t, xs, n - 1);
        assert InputAt(t', xs[1..], n - 3) == InputAt(t, xs, n - 2);
        assert OutputAt(t', ys[1..], n - 2) == OutputAt(t, ys, n - 1);
        assert OutputAt(t', ys[1..], n - 3) == OutputAt(t, ys, n - 2);
      }
    }
  }

  /** The difference equation has one solution: the filter's run is it. */
  lemma {:induction false} RecurrenceDeterminesRun(c: Coefficients, t: Taps, xs: seq<real>, ys: seq<real>)
    requires ObeysRecurrence(c, t, xs, ys)
    ensures ys == FilterRun(c, t, xs)
  {
    var zs := FilterRun(c, t, xs);
    RunObeysRecurrence(c, t, xs);
    var n := 0;
    while n < |xs|
      invariant 0 <= n <= |xs|
      invariant ys[..n] == zs[..n]
    {
      assert RecurrenceAt(c, t, xs, ys, n) && RecurrenceAt(c, t, xs, zs, n);
      assert OutputAt(t, ys, n - 1) == OutputAt(t, zs, n - 1);
      assert OutputAt(t, ys, n - 2) == OutputAt(t, zs, n - 2);
      assert ys[..n + 1] == ys[..n] + [ys[n]];
      assert zs[..n + 1] == zs[..n] + [zs[n]];
      n := n + 1;
    }
    assert ys == ys[..n] && zs == zs[..n];
  }

  /** From rest, an all-zero input gives an all-zero output. */
  lemma {:induction false} ZeroInputZeroOutput(c: Coefficients, xs: seq<real>)
    requires forall k :: 0 <= k < |xs| ==> xs[k] == 0.0
    ensures forall k :: 0 <= k < |xs| ==> FilterRun(c, ZeroTaps(), xs)[k] == 0.0
    decreases |xs|
  {
    if xs != [] {
      assert Output(c, ZeroTaps(), xs[0]) == 0.0;
      assert Shift(ZeroTaps(), xs[0], 0.0) == ZeroTaps();
      ZeroInputZeroOutput(c, xs[1..]);
    }
  }

  /** With the bandpass coefficients a constant input cancels out of the
      recurrence from the third sample on: the output then evolves by
      y[n] = -a1 y[n-1] - a2 y[n-2] alone. */
  lemma ConstantInputCancels(c: Coefficients, t: Taps, v: real, xs: seq<real>)
    requires IsBandpass(c)
    requires forall k :: 0 <= k < |xs| ==> xs[k] == v
    ensures var ys := FilterRun(c, t, xs);
            forall n :: 2 <= n < |xs| ==> ys[n] == -c.a1 * ys[n - 1] - c.a2 * ys[n - 2]
  {
    var ys := FilterRun(c, t, xs);
    RunObeysRecurrence(c, t, xs);
    forall n | 2 <= n < |xs|
      ensures ys[n] == -c.a1 * ys[n - 1] - c.a2 * ys[n - 2]
    {
      assert RecurrenceAt(c, t, xs, ys, n);
      assert InputAt(t, xs, n - 2) == v && xs[n] == v;
    }
  }

  /** The filter object: fixed coefficients and four delay taps. */
  class BiquadFilter {
    const b0: real
    const b1: real
    const b2: real
    const a1: real
    const a2: real
    var x1: real
    var x2: real
    var y1: real
    var y2: real

    function Coeffs(): Coefficients { Coefficients(b0, b1, b2, a1, a2) }

    function State(): Taps reads this { Taps(x1, x2, y1, y2) }

    /** A filter at rest with the given coefficients. */
    constructor (c: Coefficients)
      ensures Coeffs() == c && State() == ZeroTaps()
    {
      b0, b1, b2, a1, a2 := c.b0, c.b1, c.b2, c.a1, c.a2;
      x1, x2, y1, y2 := 0.0, 0.0, 0.0, 0.0;
    }

    /** Filters one sample and shifts the taps. */
    method Process(sample: real) returns (result: real)
      modifies this
      ensures result == Output(Coeffs(), old(State()), sample)
      ensures State() == Shift(old(State()), sample, result)
    {
      result := b0 * sample + b1 * x1 + b2 * x2 - a1 * y1 - a2 * y2;
      x2 := x1;
      x1 := sample;
      y2 := y1;
      y1 := result;
    }
  }
}
