/** The trailing-window statistics of backend/server.js (the setInterval body):
    drop the blinks older than one minute, then count the rest and average
    their durations.  The clock reading `now` is a parameter. */
module Stats {
  import opened BlinkDetection

  const WindowMs: int := 60000

  /** What is sent to the dashboard on every tick. */
  datatype StatsSnapshot = StatsSnapshot(blinkRate: nat, avgDuration: real)

  /** What a tick leaves in `recentBlinks`, and what it reports. */
  datatype TickResult = TickResult(kept: seq<BlinkEvent>, stats: StatsSnapshot)

  predicate IsRecent(e: BlinkEvent, now: int) { e.ts > now - WindowMs }

  /** The events that survive eviction at time `now`, in their original order. */
  function Evict(events: seq<BlinkEvent>, now: int): (kept: seq<BlinkEvent>)
    ensures |kept| <= |events|
    ensures forall e :: e in kept <==> e in events && IsRecent(e, now)
    decreases |events|
  {
    if events == [] then []
    else (if IsRecent(events[0], now) then [events[0]] else []) + Evict(events[1..], now)
  }

  /** Eviction works element by element: it commutes with concatenation, so
      the order of the kept events is the original one. */
  lemma {:induction false} EvictAppend(a: seq<BlinkEvent>, b: seq<BlinkEvent>, now: int)
    ensures Evict(a + b, now) == Evict(a, now) + Evict(b, now)
    decreases |a|
  {
    if a == [] {
      assert a + b == b;
    } else {
      assert (a + b)[0] == a[0];
      assert (a + b)[1..] == a[1..] + b;
      EvictAppend(a[1..], b, now);
    }
  }

  /** An event exactly one minute old is evicted. */
  lemma BoundaryEvicted(e: BlinkEvent, now: int)
    requires e.ts == now - WindowMs
    ensures Evict([e], now) == []
  {
  }

  /** Running eviction at a later tick on what an earlier tick kept is the
      same as one eviction at the later time: reassigning `recentBlinks` on
      every tick loses nothing that a single filter would keep. */
  lemma {:induction false} EvictLater(events: seq<BlinkEvent>, earlier: int, later: int)
    requires earlier <= later
    ensures Evict(Evict(events, earlier), later) == Evict(events, later)
    decreases |events|
  {
    if events != [] {
      var head := if IsRecent(events[0], earlier) then [events[0]] else [];
      EvictAppend(head, Evict(events[1..], earlier), later);
      EvictLater(events[1..], earlier, later);
    }
  }

  /** The running total of the durations, summed from the first event on. */
  function SumDurations(events: seq<BlinkEvent>): (total: real)
    ensures (forall i :: 0 <= i < |events| ==> events[i].duration >= 0.0) ==> total >= 0.0
    decreases |events|
  {
    if events == [] then 0.0 else SumDurations(events[..|events| - 1]) + events[|events| - 1].duration
  }

  /** The mean duration, 0 when there are no events. */
  function MeanDuration(events: seq<BlinkEvent>): (mean: real)
    ensures events == [] ==> mean == 0.0
    ensures events != [] ==> mean * |events| as real == SumDurations(events)
  {
    if |events| > 0 then SumDurations(events) / |events| as real else 0.0
  }

  /** The statistics of the kept events. */
  function Snapshot(kept: seq<BlinkEvent>): (s: StatsSnapshot)
    ensures s.blinkRate == |kept|
    ensures kept == [] ==> s.avgDuration == 0.0
    ensures kept != [] ==> s.avgDuration * |kept| as real == SumDurations(kept)
  {
    StatsSnapshot(|kept|, MeanDuration(kept))
  }

  /** One tick at time `now`. */
  function Tick(events: seq<BlinkEvent>, now: int): (r: TickResult)
    ensures r.kept == Evict(events, now)
    ensures r.stats.blinkRate == |Evict(events, now)|
    ensures r.stats == Snapshot(r.kept)
  {
    var kept := Evict(events, now);
    TickResult(kept, Snapshot(kept))
  }

  /** If every duration lies in [lo, hi], so does the total divided by the count. */
  lemma {:induction false} SumBounds(events: seq<BlinkEvent>, lo: real, hi: real)
    requires forall i :: 0 <= i < |events| ==> lo <= events[i].duration <= hi
    ensures |events| as real * lo <= SumDurations(events) <= |events| as real * hi
    decreases |events|
  {
    if events != [] {
      var prefix := events[..|events| - 1];
      assert forall i :: 0 <= i < |prefix| ==> prefix[i] == events[i];
      SumBounds(prefix, lo, hi);
      assert |events| as real * lo == |prefix| as real * lo + lo;
      assert |events| as real * hi == |prefix| as real * hi + hi;
    }
  }

  /** The total of a concatenation is the sum of the two totals, so it does
      not depend on how the kept list was built up. */
  lemma {:induction false} SumAppend(a: seq<BlinkEvent>, b: seq<BlinkEvent>)
    ensures SumDurations(a + b) == SumDurations(a) + SumDurations(b)
    decreases |b|
  {
    if b == [] {
      assert a + b == a;
    } else {
      var front := b[..|b| - 1];
      SumAppend(a, front);
      assert (a + b)[..|a + b| - 1] == a + front;
      assert (a + b)[|a + b| - 1] == b[|b| - 1];
    }
  }

  /** A total between n·lo and n·hi, divided by n, lies between lo and hi. */
  lemma QuotientBounds(total: real, n: real, lo: real, hi: real)
    requires n > 0.0 && n * lo <= total <= n * hi
    ensures lo <= total / n <= hi
  {
    var q := total / n;
    assert q * n == total;
    assert (q - lo) * n >= 0.0 && (hi - q) * n >= 0.0;
  }

  /** The reported average lies between the smallest and the largest kept
      duration; with no kept events it is 0. */
  lemma MeanWithinBounds(events: seq<BlinkEvent>, lo: real, hi: real)
    requires events != []
    requires forall i :: 0 <= i < |events| ==> lo <= events[i].duration <= hi
    ensures lo <= Snapshot(events).avgDuration <= hi
  {
    SumBounds(events, lo, hi);
    QuotientBounds(SumDurations(events), |events| as real, lo, hi);
  }

  /** With blinks at now - 70000 and now - 10000 only the second is counted,
      and the average is its duration. */
  lemma TwoBlinksOneRecent(now: int, d1: real, d2: real)
    ensures var r := Tick([BlinkEvent(now - 70000, d1), BlinkEvent(now - 10000, d2)], now);
            r.stats == StatsSnapshot(1, d2) && r.kept == [BlinkEvent(now - 10000, d2)]
  {
    var e1, e2 := BlinkEvent(now - 70000, d1), BlinkEvent(now - 10000, d2);
    assert [e1, e2][1..] == [e2];
    assert [e2][1..] == [];
    assert Evict([e2], now) == [e2];
    assert Evict([e1, e2], now) == [e2];
    assert [e2][..0] == [];
    assert SumDurations([e2]) == d2;
  }
}
