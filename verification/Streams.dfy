/**
 The records of a session as assembly takes them, and its streams: every record
 that names a stream is in that stream and no other, in landed order.
 */
module Streams {

  import opened Epochs

  datatype RecordKind = Assistant | Journal | Meta | OtherKind

  datatype BlockKind = Text | Thinking | ToolUse | ToolResult | OtherBlock

  /** A content block of a record; tool is 0 when it names none. */
  datatype Block = Block(kind: BlockKind, tool: nat, ord: nat)

  /** A record of the canonical view; its place in the view is its landed position. */
  datatype Record = Record(entry: Entry, ts: nat, kind: RecordKind, call: nat, synthetic: bool,
                           child: nat, auxiliary: bool, childResult: bool, blocks: seq<Block>,
                           input: bool, injection: bool, launchAck: bool,
                           error: bool, turnDuration: bool, command: bool, notice: bool)

  datatype Lane = Lane(id: nat, ats: seq<nat>)

  /** The positions, of the first n, whose record is of this stream. */
  function PositionsOf(canon: seq<Record>, id: nat, n: nat): (ats: seq<nat>)
    requires n <= |canon|
    ensures forall i: nat :: i in ats <==> i < n && canon[i].entry.stream == id
    ensures forall k :: 0 <= k < |ats| ==> ats[k] < n
    ensures forall j, k :: 0 <= j < k < |ats| ==> ats[j] < ats[k]
  {
    if n == 0 then []
    else PositionsOf(canon, id, n - 1) + if canon[n-1].entry.stream == id then [n - 1] else []
  }

  /** The streams, of the first n records: each that one of them names, once, with all of its records in order. */
  ghost predicate Partitioned(canon: seq<Record>, lanes: seq<Lane>, n: nat)
    requires n <= |canon|
  {
    && (forall k :: 0 <= k < |lanes| ==> LaneOk(canon, lanes[k], n))
    && (forall j, k :: 0 <= j < k < |lanes| ==> lanes[j].id != lanes[k].id)
    && (forall i :: 0 <= i < n && canon[i].entry.stream != 0 ==> HasLane(lanes, canon[i].entry.stream))
  }

  ghost predicate LaneOk(canon: seq<Record>, lane: Lane, n: nat)
    requires n <= |canon|
  {
    lane.id != 0 && lane.ats == PositionsOf(canon, lane.id, n) && lane.ats != []
  }

  ghost predicate HasLane(lanes: seq<Lane>, id: nat) {
    exists k :: 0 <= k < |lanes| && lanes[k].id == id
  }

  /** Puts every record that names a stream into it. */
  method PartitionStreams(canon: seq<Record>) returns (lanes: seq<Lane>)
    ensures Partitioned(canon, lanes, |canon|)
  {
    hide Partitioned, Numbered, PositionsOf;
    var byStream: map<nat, nat> := map[];
    lanes := [];
    NoLanes(canon);
    for n := 0 to |canon|
      invariant Partitioned(canon, lanes, n)
      invariant Numbered(lanes, byStream)
    {
      var id := canon[n].entry.stream;
      if id == 0 {
        NoStream(canon, lanes, n);
      } else {
        if id !in byStream {
          Opens(canon, lanes, byStream, n);
          byStream := byStream[id := |lanes|];
          lanes := lanes + [Lane(id, [n])];
        } else {
          Joins(canon, lanes, byStream, n);
          var k := byStream[id];
          lanes := lanes[k := Lane(id, lanes[k].ats + [n])];
        }
      }
    }
  }

  ghost predicate Numbered(lanes: seq<Lane>, byStream: map<nat, nat>) {
    && (forall id :: id in byStream ==> byStream[id] < |lanes| && lanes[byStream[id]].id == id)
    && (forall k :: 0 <= k < |lanes| ==> lanes[k].id in byStream && byStream[lanes[k].id] == k)
  }

  lemma NoLanes(canon: seq<Record>)
    ensures Partitioned(canon, [], 0) && Numbered([], map[])
  {
  }

  /** A record changes no stream but its own. */
  lemma LaneStays(canon: seq<Record>, lane: Lane, n: nat)
    requires n < |canon| && LaneOk(canon, lane, n) && canon[n].entry.stream != lane.id
    ensures LaneOk(canon, lane, n + 1)
  {
  }

  lemma LaneGrows(canon: seq<Record>, lane: Lane, n: nat)
    requires n < |canon| && LaneOk(canon, lane, n) && canon[n].entry.stream == lane.id
    ensures LaneOk(canon, Lane(lane.id, lane.ats + [n]), n + 1)
  {
  }

  lemma LaneBegins(canon: seq<Record>, n: nat)
    requires n < |canon| && canon[n].entry.stream != 0
    requires forall i :: 0 <= i < n ==> canon[i].entry.stream != canon[n].entry.stream
    ensures LaneOk(canon, Lane(canon[n].entry.stream, [n]), n + 1)
  {
    NoPositions(canon, canon[n].entry.stream, n);
  }

  lemma {:induction false} NoPositions(canon: seq<Record>, id: nat, n: nat)
    requires n <= |canon| && forall i :: 0 <= i < n ==> canon[i].entry.stream != id
    ensures PositionsOf(canon, id, n) == []
  {
    if n > 0 { NoPositions(canon, id, n - 1); }
  }

  /** A stream that has a lane keeps one when lanes are added or replaced by lanes of their own streams. */
  lemma LanesKept(lanes: seq<Lane>, more: seq<Lane>, id: nat)
    requires |lanes| <= |more| && (forall k :: 0 <= k < |lanes| ==> more[k].id == lanes[k].id) && HasLane(lanes, id)
    ensures HasLane(more, id)
  {
    var k :| 0 <= k < |lanes| && lanes[k].id == id;
    assert more[k].id == id;
  }

  lemma NoStream(canon: seq<Record>, lanes: seq<Lane>, n: nat)
    requires n < |canon| && Partitioned(canon, lanes, n) && canon[n].entry.stream == 0
    ensures Partitioned(canon, lanes, n + 1)
  {
    hide LaneOk, HasLane;
    forall k | 0 <= k < |lanes| ensures LaneOk(canon, lanes[k], n + 1) {
      IdOf(canon, lanes[k], n);
      LaneStays(canon, lanes[k], n);
    }
  }

  lemma IdOf(canon: seq<Record>, lane: Lane, n: nat)
    requires n <= |canon| && LaneOk(canon, lane, n)
    ensures lane.id != 0
  {
  }

  lemma Opens(canon: seq<Record>, lanes: seq<Lane>, byStream: map<nat, nat>, n: nat)
    requires n < |canon| && Partitioned(canon, lanes, n) && Numbered(lanes, byStream)
    requires canon[n].entry.stream != 0 && canon[n].entry.stream !in byStream
    ensures Partitioned(canon, lanes + [Lane(canon[n].entry.stream, [n])], n + 1)
    ensures Numbered(lanes + [Lane(canon[n].entry.stream, [n])], byStream[canon[n].entry.stream := |lanes|])
  {
    hide LaneOk, HasLane;
    var id := canon[n].entry.stream;
    var more := lanes + [Lane(id, [n])];
    forall i | 0 <= i < n ensures canon[i].entry.stream != id { NewToAll(lanes, byStream, id); }
    LaneBegins(canon, n);
    forall k | 0 <= k < |more| ensures LaneOk(canon, more[k], n + 1) {
      if k < |lanes| { LaneStays(canon, lanes[k], n); }
    }
    forall i | 0 <= i < n + 1 && canon[i].entry.stream != 0 ensures HasLane(more, canon[i].entry.stream) {
      if i < n { LanesKept(lanes, more, canon[i].entry.stream); } else { LastHas(more); }
    }
  }

  lemma LastHas(lanes: seq<Lane>)
    requires lanes != []
    ensures HasLane(lanes, lanes[|lanes|-1].id)
  {
    var k := |lanes| - 1;
    assert lanes[k].id == lanes[|lanes|-1].id;
  }

  lemma NewToAll(lanes: seq<Lane>, byStream: map<nat, nat>, id: nat)
    requires Numbered(lanes, byStream) && id !in byStream
    ensures !HasLane(lanes, id)
  {
  }

  lemma Joins(canon: seq<Record>, lanes: seq<Lane>, byStream: map<nat, nat>, n: nat)
    requires n < |canon| && Partitioned(canon, lanes, n) && Numbered(lanes, byStream)
    requires canon[n].entry.stream != 0 && canon[n].entry.stream in byStream
    ensures var k := byStream[canon[n].entry.stream];
      && k < |lanes|
      && Partitioned(canon, lanes[k := Lane(canon[n].entry.stream, lanes[k].ats + [n])], n + 1)
      && Numbered(lanes[k := Lane(canon[n].entry.stream, lanes[k].ats + [n])], byStream)
  {
    hide LaneOk, HasLane;
    var id := canon[n].entry.stream;
    var k := byStream[id];
    var more := lanes[k := Lane(id, lanes[k].ats + [n])];
    forall j | 0 <= j < |more| ensures LaneOk(canon, more[j], n + 1) {
      if j == k { LaneGrows(canon, lanes[k], n); } else { LaneStays(canon, lanes[j], n); }
    }
    forall i | 0 <= i < n + 1 && canon[i].entry.stream != 0 ensures HasLane(more, canon[i].entry.stream) {
      if i < n { LanesKept(lanes, more, canon[i].entry.stream); } else { HasAt(more, k); }
    }
  }

  lemma HasAt(lanes: seq<Lane>, k: nat)
    requires k < |lanes|
    ensures HasLane(lanes, lanes[k].id)
  {
  }

  /** Every record that names a stream is in one stream's list, its own. */
  lemma OneLane(canon: seq<Record>, lanes: seq<Lane>, i: nat)
    requires Partitioned(canon, lanes, |canon|) && i < |canon|
    ensures forall k :: 0 <= k < |lanes| ==> (i in lanes[k].ats <==> lanes[k].id == canon[i].entry.stream)
    ensures canon[i].entry.stream != 0 <==> exists k :: 0 <= k < |lanes| && i in lanes[k].ats
    ensures forall j, k :: 0 <= j < |lanes| && 0 <= k < |lanes| && i in lanes[j].ats && i in lanes[k].ats ==> j == k
  {
    forall k | 0 <= k < |lanes|
      ensures lanes[k].id != 0 && (i in lanes[k].ats <==> lanes[k].id == canon[i].entry.stream)
    {
      assert LaneOk(canon, lanes[k], |canon|);
    }
    if canon[i].entry.stream != 0 {
      var k :| 0 <= k < |lanes| && lanes[k].id == canon[i].entry.stream;
      assert i in lanes[k].ats;
    }
  }
}
