/** The state updaters of frontend/src/App.jsx: every WebSocket message may
    carry a new graph point, a new blink and new statistics, and each present
    part updates its own piece of the dashboard state. */
module Dashboard {
  import opened Wrappers
  import opened BlinkDetection
  import opened Stats

  const MaxGraphPoints: nat := 2500
  const MaxRecentBlinks: nat := 10

  /** A point of the time-series chart: `x` is the message's timestamp (absent
      when the message has none), `y` the filtered value. */
  datatype Point = Point(x: Option<int>, y: real)

  /** A parsed message; each field is None when the message lacks it. */
  datatype Message = Message(timestamp: Option<int>, eegVal: Option<real>,
                             blinkEvent: Option<BlinkEvent>, fatigueStats: Option<StatsSnapshot>)

  /** The three pieces of React state. */
  datatype AppState = AppState(eegData: seq<Point>, blinkEvents: seq<BlinkEvent>, fatigueStats: StatsSnapshot)

  /** The state before any message: no points, no blinks, zero statistics. */
  function InitialApp(): AppState { AppState([], [], StatsSnapshot(0, 0.0)) }

  function Min(a: nat, b: nat): nat { if a <= b then a else b }

  /** The last `n` elements of `s` (all of them when there are fewer). */
  function LastN<T>(s: seq<T>, n: nat): (r: seq<T>)
    ensures |r| == Min(n, |s|)
    ensures forall k :: 0 <= k < |r| ==> r[k] == s[|s| - |r| + k]
  {
    s[|s| - Min(n, |s|)..]
  }

  /** The first `n` elements of `s` (all of them when there are fewer). */
  function FirstN<T>(s: seq<T>, n: nat): (r: seq<T>)
    ensures |r| == Min(n, |s|)
    ensures forall k :: 0 <= k < |r| ==> r[k] == s[k]
  {
    s[..Min(n, |s|)]
  }

  /** The graph-point updater: append the point, then keep the newest
      MaxGraphPoints points. */
  function AppendPoint(prev: seq<Point>, p: Point): (r: seq<Point>)
    ensures |r| <= MaxGraphPoints
    ensures |r| > 0 && r[|r| - 1] == p
    ensures |prev| + 1 <= MaxGraphPoints ==> r == prev + [p]
    ensures |prev| + 1 > MaxGraphPoints ==> r == prev[|prev| + 1 - MaxGraphPoints..] + [p]
  {
    var newData := prev + [p];
    if |newData| > MaxGraphPoints then newData[|newData| - MaxGraphPoints..] else newData
  }

  /** Appending the points one message at a time keeps exactly the newest
      MaxGraphPoints points of the whole stream. */
  lemma {:induction false} GraphKeepsNewest(prev: seq<Point>, points: seq<Point>)
    requires |prev| <= MaxGraphPoints
    ensures FoldPoints(prev, points) == LastN(prev + points, MaxGraphPoints)
    decreases |points|
  {
    if points == [] {
      assert prev + points == prev;
      LastNOfShort(prev, MaxGraphPoints);
    } else {
      var p, rest := points[0], points[1..];
      var next := AppendPoint(prev, p);
      assert FoldPoints(prev, points) == FoldPoints(next, rest);
      GraphKeepsNewest(next, rest);
      LastNOfWindow(prev, p, rest);
      SplitHead(prev, points);
    }
  }

  /** Appending a non-empty sequence is appending its head, then its tail. */
  lemma SplitHead<T>(prev: seq<T>, points: seq<T>)
    requires points != []
    ensures prev + [points[0]] + points[1..] == prev + points
  {
    assert points == [points[0]] + points[1..];
  }

  /** A sequence no longer than `n` is its own last `n` elements. */
  lemma LastNOfShort<T>(s: seq<T>, n: nat)
    requires |s| <= n
    ensures LastN(s, n) == s
  {
  }

  /** Taking the newest points after one update is the same as taking them
      from the longer history. */
  lemma LastNOfWindow(prev: seq<Point>, p: Point, rest: seq<Point>)
    ensures LastN(AppendPoint(prev, p) + rest, MaxGraphPoints) == LastN(prev + [p] + rest, MaxGraphPoints)
  {
    var a := AppendPoint(prev, p) + rest;
    var b := prev + [p] + rest;
    var x := LastN(a, MaxGraphPoints);
    var y := LastN(b, MaxGraphPoints);
    assert |x| == |y|;
    forall k | 0 <= k < |x| ensures x[k] == y[k] {
      assert x[k] == a[|a| - |x| + k];
      assert y[k] == b[|b| - |y| + k];
    }
  }

  /** The graph updates of a sequence of messages that all carry a point. */
  function FoldPoints(prev: seq<Point>, points: seq<Point>): seq<Point>
    decreases |points|
  {
    if points == [] then prev else FoldPoints(AppendPoint(prev, points[0]), points[1..])
  }

  /** The recent-blinks updater: the new blink first, then the previous list,
      cut to MaxRecentBlinks entries. */
  function PrependBlink(prev: seq<BlinkEvent>, b: BlinkEvent): (r: seq<BlinkEvent>)
    ensures 0 < |r| <= MaxRecentBlinks && r[0] == b
    ensures r[1..] == FirstN(prev, MaxRecentBlinks - 1)
  {
    FirstN([b] + prev, MaxRecentBlinks)
  }

  function Reverse<T>(s: seq<T>): (r: seq<T>)
    ensures |r| == |s|
    ensures forall k :: 0 <= k < |s| ==> r[k] == s[|s| - 1 - k]
    decreases |s|
  {
    if s == [] then [] else Reverse(s[1..]) + [s[0]]
  }

  /** The blink updates of a sequence of messages that all carry a blink. */
  function FoldBlinks(prev: seq<BlinkEvent>, blinks: seq<BlinkEvent>): seq<BlinkEvent>
    decreases |blinks|
  {
    if blinks == [] then prev else FoldBlinks(PrependBlink(prev, blinks[0]), blinks[1..])
  }

  /** After a stream of blinks the list holds the MaxRecentBlinks newest
      entries of the stream followed by the previous list, newest first. */
  lemma {:induction false} RecentBlinksNewestFirst(prev: seq<BlinkEvent>, blinks: seq<BlinkEvent>)
    ensures FoldBlinks(prev, blinks) ==
            (if blinks == [] then prev else FirstN(Reverse(blinks) + prev, MaxRecentBlinks))
    decreases |blinks|
  {
    if blinks != [] {
      var next := PrependBlink(prev, blinks[0]);
      var rest := blinks[1..];
      RecentBlinksNewestFirst(next, rest);
      assert Reverse(blinks) == Reverse(rest) + [blinks[0]];
      var a := FirstN(Reverse(rest) + next, MaxRecentBlinks);
      var b := FirstN(Reverse(blinks) + prev, MaxRecentBlinks);
      if rest != [] {
        assert |a| == |b|;
        forall k | 0 <= k < |a| ensures a[k] == b[k] {
          if k < |rest| {
            assert a[k] == Reverse(rest)[k] == b[k];
          } else {
            assert a[k] == next[k - |rest|];
            assert b[k] == ([blinks[0]] + prev)[k - |rest|];
          }
        }
      }
    }
  }

  /** From an empty list, the list is the newest MaxRecentBlinks blinks in
      reverse order of arrival. */
  lemma RecentBlinksFromEmpty(blinks: seq<BlinkEvent>)
    ensures FoldBlinks([], blinks) == Reverse(LastN(blinks, MaxRecentBlinks))
  {
    RecentBlinksNewestFirst([], blinks);
    var a := FoldBlinks([], blinks);
    var b := Reverse(LastN(blinks, MaxRecentBlinks));
    assert Reverse(blinks) + [] == Reverse(blinks);
    assert |a| == |b|;
    forall k | 0 <= k < |a| ensures a[k] == b[k] {
      assert a[k] == Reverse(blinks)[k] == blinks[|blinks| - 1 - k];
    }
  }

  /** The onmessage handler. */
  function OnMessage(st: AppState, msg: Message): (r: AppState)
    ensures msg.eegVal.None? ==> r.eegData == st.eegData
    ensures msg.eegVal.Some? ==> r.eegData == AppendPoint(st.eegData, Point(msg.timestamp, msg.eegVal.value))
    ensures msg.blinkEvent.None? ==> r.blinkEvents == st.blinkEvents
    ensures msg.blinkEvent.Some? ==> r.blinkEvents == PrependBlink(st.blinkEvents, msg.blinkEvent.value)
    ensures r.fatigueStats == if msg.fatigueStats.Some? then msg.fatigueStats.value else st.fatigueStats
  {
    var eegData := if msg.eegVal.Some? then AppendPoint(st.eegData, Point(msg.timestamp, msg.eegVal.value)) else st.eegData;
    var blinkEvents := if msg.blinkEvent.Some? then PrependBlink(st.blinkEvents, msg.blinkEvent.value) else st.blinkEvents;
    var fatigueStats := if msg.fatigueStats.Some? then msg.fatigueStats.value else st.fatigueStats;
    AppState(eegData, blinkEvents, fatigueStats)
  }

  /** The bounds the dashboard state keeps. */
  predicate Bounded(st: AppState)
  {
    |st.eegData| <= MaxGraphPoints && |st.blinkEvents| <= MaxRecentBlinks
  }

  function OnMessages(st: AppState, msgs: seq<Message>): AppState
    decreases |msgs|
  {
    if msgs == [] then st else OnMessages(OnMessage(st, msgs[0]), msgs[1..])
  }

  /** Whatever messages arrive, the dashboard never holds more than
      MaxGraphPoints points and MaxRecentBlinks blinks. */
  lemma {:induction false} MessagesKeepBounds(st: AppState, msgs: seq<Message>)
    requires Bounded(st)
    ensures Bounded(OnMessages(st, msgs))
    decreases |msgs|
  {
    if msgs != [] {
      MessagesKeepBounds(OnMessage(st, msgs[0]), msgs[1..]);
    }
  }

  /** From the initial state, whatever messages arrive, the dashboard holds at
      most 2500 points and 10 blinks. */
  lemma BoundedFromStart(msgs: seq<Message>)
    ensures Bounded(OnMessages(InitialApp(), msgs))
  {
    MessagesKeepBounds(InitialApp(), msgs);
  }
}
