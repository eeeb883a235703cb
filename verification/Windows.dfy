/** The activity windows of a session: the main stream's talks, cut where it was quiet. */
module Windows {

  import opened Epochs
  import opened Streams
  import opened StableSort
  import opened Placement
  import opened Talks
  import opened TalkTimes
  import Segments

  type Window = Segments.Window

  /** The record times of a stream. */
  function TimesIn(canon: seq<Record>, lane: Lane): (ts: seq<nat>)
    requires forall j :: 0 <= j < |lane.ats| ==> lane.ats[j] < |canon|
    ensures |ts| == |lane.ats| && forall j :: 0 <= j < |ts| ==> ts[j] == canon[lane.ats[j]].ts
  {
    seq(|lane.ats|, j requires 0 <= j < |lane.ats| => canon[lane.ats[j]].ts)
  }

  /** These are the main stream's talks with their times; there are none without a main stream. */
  ghost predicate MainTimes(canon: seq<Record>, lanes: seq<Lane>, main: nat, epochAt: map<nat, NodeId>,
                            xs: seq<TalkTime>) {
    if HasLane(lanes, main)
    then exists j :: 0 <= j < |lanes| && lanes[j].id == main && LaneTimes(canon, lanes[j], main, epochAt, xs)
    else xs == []
  }

  ghost predicate LaneTimes(canon: seq<Record>, lane: Lane, main: nat, epochAt: map<nat, NodeId>, xs: seq<TalkTime>) {
    LaneFits(canon, lane, main, epochAt) && TimesAre(LineageOf(canon, lane, main, epochAt), TimesIn(canon, lane), xs)
  }

  /** Windows cut at the quiet times between the main stream's talks, in the order these began. */
  ghost predicate Windowed(canon: seq<Record>, lanes: seq<Lane>, main: nat, epochAt: map<nat, NodeId>, gap: int,
                           ws: seq<Window>) {
    exists xs :: MainTimes(canon, lanes, main, epochAt, xs) && WindowsOf(xs, gap, ws)
  }

  ghost predicate WindowsOf(xs: seq<TalkTime>, gap: int, ws: seq<Window>) {
    Segments.CutAtQuiet(ws, gap) && Segments.Talks(ws) == Sorted(xs, (t: TalkTime) => t.first)
  }

  /** Cuts the activity windows. */
  method FindWindows(canon: seq<Record>, lanes: seq<Lane>, main: nat, epochAt: map<nat, NodeId>,
                     container: map<nat, NodeId>, gap: int) returns (ws: seq<Window>)
    requires AllFit(canon, lanes, main, epochAt)
    requires forall j :: 0 <= j < |lanes| ==> LanePlaced(canon, lanes[j], main, epochAt, container)
    ensures Windowed(canon, lanes, main, epochAt, gap, ws)
  {
    hide Fits, TimesAre, Segments.CutAtQuiet, Segments.Talks, Sorted;
    var xs: seq<TalkTime> := [];
    var k := 0;
    while k < |lanes| && lanes[k].id != main
      invariant k <= |lanes| && forall j :: 0 <= j < k ==> lanes[j].id != main
    {
      k := k + 1;
    }
    if k < |lanes| {
      var l := LineageOf(canon, lanes[k], main, epochAt);
      assert LaneFits(canon, lanes[k], main, epochAt) && LanePlaced(canon, lanes[k], main, epochAt, container);
      xs := TimeTalks(l, TimesIn(canon, lanes[k]), container);
      assert LaneTimes(canon, lanes[k], main, epochAt, xs);
    }
    assert MainTimes(canon, lanes, main, epochAt, xs);
    ws := Segments.CutWindows(xs, gap);
    assert WindowsOf(xs, gap, ws);
  }
}
