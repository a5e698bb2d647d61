/** The blink markers of frontend/src/components/Graph.jsx: each blink is
    drawn at the first graph point whose `x` equals the blink's timestamp;
    blinks with no such point are not drawn. */
module GraphMarkers {
  import opened Wrappers
  import opened BlinkDetection
  import opened Dashboard

  /** The index of the first point whose `x` is `ts`, or |data| if there is none. */
  function FirstMatch(data: seq<Point>, ts: int): (i: nat)
    ensures i <= |data|
    ensures i < |data| ==> data[i].x == Some(ts)
    ensures forall j :: 0 <= j < i ==> data[j].x != Some(ts)
    decreases |data|
  {
    if data == [] then 0
    else if data[0].x == Some(ts) then 0
    else 1 + FirstMatch(data[1..], ts)
  }

  /** `eegData.find(d => d.x === ts)`. */
  function FindPoint(data: seq<Point>, ts: int): (r: Option<Point>)
    ensures r.None? <==> forall j :: 0 <= j < |data| ==> data[j].x != Some(ts)
    ensures r.Some? ==> r.value == data[FirstMatch(data, ts)]
  {
    var i := FirstMatch(data, ts);
    if i < |data| then Some(data[i]) else None
  }

  /** The marker list: blinks mapped to their points, unmatched blinks dropped. */
  function Markers(data: seq<Point>, blinks: seq<BlinkEvent>): (r: seq<Point>)
    ensures |r| <= |blinks|
    ensures forall m :: m in r ==> exists b :: b in blinks && FindPoint(data, b.ts) == Some(m)
    decreases |blinks|
  {
    if blinks == [] then []
    else
      var rest := Markers(data, blinks[1..]);
      match FindPoint(data, blinks[0].ts)
      case Some(p) => [Point(p.x, p.y)] + rest
      case None => rest
  }

  /** Markers keep the relative order of their blinks: the marker list of a
      concatenation is the concatenation of the marker lists. */
  lemma {:induction false} MarkersAppend(data: seq<Point>, a: seq<BlinkEvent>, b: seq<BlinkEvent>)
    ensures Markers(data, a + b) == Markers(data, a) + Markers(data, b)
    decreases |a|
  {
    if a == [] {
      assert a + b == b;
    } else {
      assert (a + b)[0] == a[0];
      assert (a + b)[1..] == a[1..] + b;
      MarkersAppend(data, a[1..], b);
    }
  }

  /** A single blink yields its point, or nothing when no point has its timestamp. */
  lemma MarkerOfOne(data: seq<Point>, b: BlinkEvent)
    ensures Markers(data, [b]) == if FindPoint(data, b.ts).Some? then [FindPoint(data, b.ts).value] else []
  {
    assert [b][1..] == [];
  }

  /** Every marker sits on a point with its blink's timestamp, and no blink
      is drawn unless some point has its timestamp. */
  lemma MarkersMatchTimestamps(data: seq<Point>, blinks: seq<BlinkEvent>)
    ensures forall m :: m in Markers(data, blinks) ==> m in data && m.x.Some?
    ensures Markers(data, blinks) == [] <==> forall b :: b in blinks ==> FindPoint(data, b.ts).None?
  {
    if blinks != [] {
      MarkersMatchTimestamps(data, blinks[1..]);
    }
  }
}
