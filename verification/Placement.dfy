/**
 Streams, epochs, talks and runs of a whole session: the upper levels of the
 containment tree, and the container every record of a stream gets.
 */
module Placement {

  import opened Epochs
  import opened Streams
  import opened Calls
  import opened Talks
  import opened Containers

  function EntriesOf(canon: seq<Record>, lane: Lane): (es: seq<Entry>)
    requires forall j :: 0 <= j < |lane.ats| ==> lane.ats[j] < |canon|
    ensures |es| == |lane.ats| && forall j :: 0 <= j < |es| ==> es[j] == canon[lane.ats[j]].entry
  {
    seq(|lane.ats|, j requires 0 <= j < |lane.ats| => canon[lane.ats[j]].entry)
  }

  // ---------------------------------------------------------------- the tree

  /** A reset or a summary that names no stream: it has no epoch to be in. */
  ghost predicate Loose(canon: seq<Record>, id: NodeId) {
    && id.Step? && (id.name.Boundary? || id.name.Summary?)
    && id.at < |canon| && canon[id.at].entry.stream == 0
  }

  /** A node's parent was written and lies less deep; only the session, and what is loose, has none. */
  ghost predicate Attached(canon: seq<Record>, nodes: Tree, id: NodeId, parent: Option<NodeId>) {
    match parent
    case None => id == Session || Loose(canon, id)
    case Some(p) => p in nodes && Level(p) < Level(id)
  }

  ghost predicate Rooted(canon: seq<Record>, nodes: Tree) {
    Session in nodes && nodes[Session].None? && forall id :: id in nodes ==> Attached(canon, nodes, id, nodes[id])
  }

  lemma RootedOne(canon: seq<Record>, nodes: Tree, id: NodeId, p: NodeId)
    requires Rooted(canon, nodes) && p in nodes && Level(p) < Level(id)
    ensures Rooted(canon, nodes[id := Some(p)])
  {
    var out := nodes[id := Some(p)];
    forall k | k in out
      ensures Attached(canon, out, k, out[k])
    {
      assert k != id ==> Attached(canon, nodes, k, nodes[k]);
    }
  }

  /** Nodes that attach to what is there, or to each other, keep the tree rooted. */
  lemma RootedMore(canon: seq<Record>, nodes: Tree, m: Tree)
    requires Rooted(canon, nodes) && Session !in m && forall id :: id in m ==> Attached(canon, nodes + m, id, m[id])
    ensures Rooted(canon, nodes + m)
  {
    var out := nodes + m;
    forall k | k in out
      ensures Attached(canon, out, k, out[k])
    {
      assert k !in m ==> Attached(canon, nodes, k, nodes[k]);
    }
  }

  /** The way up from a node, parent by parent. */
  ghost predicate LeadsUp(nodes: Tree, id: NodeId, top: NodeId, steps: nat)
    decreases steps
  {
    if steps == 0 then id == top && id in nodes && nodes[id].None?
    else id in nodes && nodes[id].Some? && LeadsUp(nodes, nodes[id].value, top, steps - 1)
  }

  /** Containment is a tree: every node that is not loose is under the session, in no more steps than its level. */
  lemma {:induction false} UnderSession(canon: seq<Record>, nodes: Tree, id: NodeId) returns (steps: nat)
    requires Rooted(canon, nodes) && id in nodes && !Loose(canon, id)
    ensures LeadsUp(nodes, id, Session, steps) && steps <= Level(id)
    decreases Level(id)
  {
    assert Attached(canon, nodes, id, nodes[id]);
    if nodes[id].None? {
      steps := 0;
    } else {
      var p := nodes[id].value;
      assert Attached(canon, nodes, p, nodes[p]);
      var up := UnderSession(canon, nodes, p);
      steps := up + 1;
    }
  }

  // ---------------------------------------------------------------- streams

  /** Writes the session, and every stream in it. */
  method EmitStreams(canon: seq<Record>, lanes: seq<Lane>) returns (nodes: Tree)
    ensures Rooted(canon, nodes)
    ensures forall id :: id in nodes <==> id == Session || (id.Stream? && HasLane(lanes, id.stream))
    ensures forall id :: id in nodes ==> nodes[id] == if id == Session then None else Some(Session)
  {
    nodes := map[Session := None];
    for k := 0 to |lanes|
      invariant Rooted(canon, nodes)
      invariant forall id :: id in nodes <==> id == Session || (id.Stream? && HasLane(lanes[..k], id.stream))
      invariant forall id :: id in nodes ==> nodes[id] == if id == Session then None else Some(Session)
    {
      hide Rooted;
      RootIs(canon, nodes);
      LaneAdded(lanes, k);
      RootedOne(canon, nodes, Stream(lanes[k].id), Session);
      nodes := nodes[Stream(lanes[k].id) := Some(Session)];
    }
    assert lanes[..|lanes|] == lanes;
  }

  lemma RootIs(canon: seq<Record>, nodes: Tree)
    requires Rooted(canon, nodes)
    ensures Session in nodes && nodes[Session].None?
  {
  }

  lemma LaneAdded(lanes: seq<Lane>, k: nat)
    requires k < |lanes|
    ensures var more := lanes[..k+1]; forall id :: HasLane(more, id) <==> HasLane(lanes[..k], id) || id == lanes[k].id
  {
    var more := lanes[..k+1];
    forall id ensures HasLane(more, id) <==> HasLane(lanes[..k], id) || id == lanes[k].id {
      if HasLane(lanes[..k], id) {
        var j :| 0 <= j < k && lanes[..k][j].id == id;
        assert more[j].id == id;
      }
      if HasLane(more, id) {
        var j :| 0 <= j < |more| && more[j].id == id;
        assert j < k ==> lanes[..k][j].id == id;
      }
      assert more[k].id == lanes[k].id;
    }
  }

  // ---------------------------------------------------------------- epochs

  datatype Cut = Cut(eps: seq<Epoch>, ids: seq<NodeId>)

  /** A stream's epochs and their ids. */
  ghost predicate CutOk(canon: seq<Record>, lane: Lane, c: Cut) {
    && (forall j :: 0 <= j < |lane.ats| ==> lane.ats[j] < |canon|)
    && Tiles(EntriesOf(canon, lane), c.eps, |lane.ats|) && |c.ids| == |c.eps|
    && forall m :: 0 <= m < |c.ids| ==> c.ids[m] == EpochId(lane.id, EntriesOf(canon, lane), lane.ats, c.eps[m])
  }

  /** Each record of these epochs, of a stream, is said to be in the epoch it is in. */
  ghost predicate Held(lane: Lane, c: Cut, n: nat, epochAt: map<nat, NodeId>) {
    forall m, i :: 0 <= m < n <= |c.eps| == |c.ids| && c.eps[m].start <= i < c.eps[m].end && i < |lane.ats| ==>
      lane.ats[i] in epochAt && epochAt[lane.ats[i]] == c.ids[m]
  }

  /** Cuts one stream into epochs, and writes them and who is in them. */
  method CutStream(canon: seq<Record>, lane: Lane, nodes: Tree, epochAt: map<nat, NodeId>)
    returns (c: Cut, out: Tree, now: map<nat, NodeId>)
    requires LaneOk(canon, lane, |canon|) && Rooted(canon, nodes) && Stream(lane.id) in nodes
    ensures CutOk(canon, lane, c) && Held(lane, c, |c.eps|, now)
    ensures Marked(lane.ats, epochAt, now)
    ensures Rooted(canon, out) && EpochsAdded(nodes, c.ids, lane.id, out)
  {
    hide Rooted, Tiles, EpochId, CutOk, Held, PositionsOf, Marked, LaneOk, Level, BoundaryAt, EpochsAdded;
    LaneAts(canon, lane);
    var es := EntriesOf(canon, lane);
    var eps := CutEpochs(es);
    var ids := seq(|eps|, m requires 0 <= m < |eps| => EpochId(lane.id, es, lane.ats, eps[m]));
    c := Cut(eps, ids);
    CutIs(canon, lane, c);
    out, now := nodes, epochAt;
    HeldNone(lane, c, now);
    MarkedNone(now);
    NoEpochMap(nodes, lane.id);
    ghost var n: nat := 0;
    for m := 0 to |eps|
      invariant n == (if m == 0 then 0 else eps[m-1].end) && n <= |lane.ats|
      invariant Rooted(canon, out) && Stream(lane.id) in out && EpochsAdded(nodes, ids[..m], lane.id, out)
      invariant Held(lane, c, m, now) && Marked(lane.ats[..n], epochAt, now)
    {
      EpochBounds(es, eps, m);
      out, now := WriteEpoch(canon, lane, es, c, m, nodes, epochAt, out, now);
      n := eps[m].end;
    }
    assert ids[..|eps|] == ids;
    CutEnds(es, eps);
    assert lane.ats[..|lane.ats|] == lane.ats;
  }

  /** Writes one epoch of a stream, and who is in it. */
  method WriteEpoch(canon: seq<Record>, lane: Lane, es: seq<Entry>, c: Cut, m: nat,
                    ghost nodes: Tree, ghost epochAt: map<nat, NodeId>, before: Tree, at: map<nat, NodeId>)
    returns (out: Tree, now: map<nat, NodeId>)
    requires LaneOk(canon, lane, |canon|) && |es| == |lane.ats| && Tiles(es, c.eps, |es|) && m < |c.eps| == |c.ids|
    requires c.eps[m].start <= c.eps[m].end <= |es| && c.ids[m] == EpochId(lane.id, es, lane.ats, c.eps[m])
    requires Rooted(canon, before) && Stream(lane.id) in before && EpochsAdded(nodes, c.ids[..m], lane.id, before)
    requires Held(lane, c, m, at) && Marked(lane.ats[..c.eps[m].start], epochAt, at)
    ensures Rooted(canon, out) && Stream(lane.id) in out && EpochsAdded(nodes, c.ids[..m+1], lane.id, out)
    ensures Held(lane, c, m + 1, now) && Marked(lane.ats[..c.eps[m].end], epochAt, now)
  {
    hide Rooted, Tiles, EpochId, Held, Marked, LaneOk, Level, EpochsAdded;
    var id, start, end := c.ids[m], c.eps[m].start, c.eps[m].end;
    EpochIsDeep(lane.id, es, lane.ats, c.eps[m]);
    RootedOne(canon, before, id, Stream(lane.id));
    NextEpochMap(nodes, c.ids, m, lane.id, before);
    out := before[id := Some(Stream(lane.id))];
    now := MarkEpoch(lane.ats, start, end, id, at);
    HeldMore(canon, es, lane, c, m, at, now);
    MarkedMore(lane.ats, start, end, epochAt, at, now, id);
  }

  /** The epochs of a stream, each in the stream. */
  function EpochMap(ids: seq<NodeId>, stream: nat): Tree {
    map id | id in ids :: Some(Stream(stream))
  }

  ghost predicate EpochsAdded(nodes: Tree, ids: seq<NodeId>, stream: nat, out: Tree) {
    out == nodes + EpochMap(ids, stream)
  }

  lemma NoEpochMap(nodes: Tree, stream: nat)
    ensures EpochsAdded(nodes, [], stream, nodes)
  {
  }

  lemma NextEpochMap(nodes: Tree, ids: seq<NodeId>, m: nat, stream: nat, out: Tree)
    requires m < |ids| && EpochsAdded(nodes, ids[..m], stream, out)
    ensures EpochsAdded(nodes, ids[..m+1], stream, out[ids[m] := Some(Stream(stream))])
  {
    assert ids[..m+1] == ids[..m] + [ids[m]];
  }

  /** Only these records are marked anew. */
  ghost predicate Marked(ats: seq<nat>, before: map<nat, NodeId>, now: map<nat, NodeId>) {
    && (forall at :: at in now <==> at in before || at in ats)
    && (forall at :: at in before && at !in ats ==> now[at] == before[at])
  }

  lemma MarkedNone(epochAt: map<nat, NodeId>)
    ensures Marked([], epochAt, epochAt)
  {
  }

  /** Says of each record of an epoch which one it is in. */
  method MarkEpoch(ats: seq<nat>, start: nat, end: nat, id: NodeId, epochAt: map<nat, NodeId>)
    returns (now: map<nat, NodeId>)
    requires start <= end <= |ats|
    ensures Marked(ats[start..end], epochAt, now)
    ensures forall k :: start <= k < end ==> ats[k] in now && now[ats[k]] == id
  {
    now := epochAt;
    for i := start to end
      invariant Marked(ats[start..i], epochAt, now)
      invariant forall k :: start <= k < i ==> ats[k] in now && now[ats[k]] == id
    {
      assert ats[start..i+1] == ats[start..i] + [ats[i]];
      now := now[ats[i] := id];
    }
  }

  lemma MarkedMore(ats: seq<nat>, start: nat, end: nat, first: map<nat, NodeId>, before: map<nat, NodeId>, now: map<nat,
                   NodeId>, id: NodeId)
    requires start <= end <= |ats| && Marked(ats[..start], first, before) && Marked(ats[start..end], before, now)
    ensures Marked(ats[..end], first, now)
  {
    assert ats[..end] == ats[..start] + ats[start..end];
  }

  lemma LaneAts(canon: seq<Record>, lane: Lane)
    requires LaneOk(canon, lane, |canon|)
    ensures lane.id != 0 && lane.ats != []
    ensures forall j :: 0 <= j < |lane.ats| ==> lane.ats[j] < |canon|
    ensures forall j, k :: 0 <= j < k < |lane.ats| ==> lane.ats[j] != lane.ats[k]
  {
  }

  lemma CutIs(canon: seq<Record>, lane: Lane, c: Cut)
    requires forall j :: 0 <= j < |lane.ats| ==> lane.ats[j] < |canon|
    requires Tiles(EntriesOf(canon, lane), c.eps, |lane.ats|) && |c.ids| == |c.eps|
    requires forall m :: 0 <= m < |c.ids| ==> c.ids[m] == EpochId(lane.id, EntriesOf(canon, lane), lane.ats, c.eps[m])
    ensures CutOk(canon, lane, c)
  {
  }

  lemma HeldNone(lane: Lane, c: Cut, epochAt: map<nat, NodeId>)
    ensures Held(lane, c, 0, epochAt)
  {
  }

  lemma EpochBounds(es: seq<Entry>, eps: seq<Epoch>, m: nat)
    requires Tiles(es, eps, |es|) && m < |eps|
    ensures eps[m].start == (if m == 0 then 0 else eps[m-1].end) && eps[m].start < eps[m].end <= |es|
  {
    assert EpochOk(es, eps[m]);
  }

  lemma CutEnds(es: seq<Entry>, eps: seq<Epoch>)
    requires Tiles(es, eps, |es|) && eps != []
    ensures eps[|eps|-1].end == |es|
  {
  }

  lemma EpochIsDeep(stream: nat, es: seq<Entry>, ats: seq<nat>, ep: Epoch)
    requires |ats| == |es|
    ensures Level(EpochId(stream, es, ats, ep)) == 2 && Level(Stream(stream)) == 1
  {
  }

  lemma HeldMore(canon: seq<Record>, es: seq<Entry>, lane: Lane, c: Cut, m: nat, before: map<nat, NodeId>, now: map<nat,
                 NodeId>)
    requires LaneOk(canon, lane, |canon|)
    requires Tiles(es, c.eps, |es|) && |es| == |lane.ats| && m < |c.eps| == |c.ids| && Held(lane, c, m, before)
    requires c.eps[m].start <= c.eps[m].end <= |es| && Marked(lane.ats[c.eps[m].start..c.eps[m].end], before, now)
    requires forall k :: c.eps[m].start <= k < c.eps[m].end ==> lane.ats[k] in now && now[lane.ats[k]] == c.ids[m]
    ensures Held(lane, c, m + 1, now)
  {
    hide Tiles, LaneOk;
    LaneAts(canon, lane);
    forall j, i | 0 <= j < m + 1 && c.eps[j].start <= i < c.eps[j].end && i < |lane.ats|
      ensures lane.ats[i] in now && now[lane.ats[i]] == c.ids[j]
    {
      if j < m {
        EndsBefore(es, c.eps, j, m);
        assert i < c.eps[m].start && lane.ats[i] !in lane.ats[c.eps[m].start..c.eps[m].end];
      }
    }
  }

  /** Every record of a stream is in an epoch of it. */
  lemma HeldIn(canon: seq<Record>, lane: Lane, c: Cut, epochAt: map<nat, NodeId>)
    requires CutOk(canon, lane, c) && Held(lane, c, |c.eps|, epochAt)
    ensures forall at :: at in lane.ats ==> at in epochAt && epochAt[at] in c.ids && Level(epochAt[at]) == 2
  {
    hide Tiles, EpochId, Level;
    var es := EntriesOf(canon, lane);
    forall at | at in lane.ats ensures at in epochAt && epochAt[at] in c.ids && Level(epochAt[at]) == 2 {
      var i :| 0 <= i < |lane.ats| && lane.ats[i] == at;
      LastEpochEnds(es, c.eps, i);
      var m := EpochOf(es, c.eps, i, |c.eps|);
      EpochIsDeep(lane.id, es, lane.ats, c.eps[m]);
      assert epochAt[lane.ats[i]] == c.ids[m];
    }
  }

  lemma LastEpochEnds(es: seq<Entry>, eps: seq<Epoch>, i: nat)
    requires Tiles(es, eps, |es|) && i < |es|
    ensures eps != [] && i < eps[|eps|-1].end
  {
  }

  ghost predicate InLanes(lanes: seq<Lane>, k: nat, at: nat)
    requires k <= |lanes|
  {
    exists j :: 0 <= j < k && at in lanes[j].ats
  }

  /** The first k streams are cut into epochs that were written, and each of their records is in one. */
  ghost predicate CutUpTo(canon: seq<Record>, lanes: seq<Lane>, cuts: seq<Cut>, k: nat, nodes: Tree, epochAt: map<nat,
                          NodeId>) {
    && |cuts| == k <= |lanes|
    && (forall j :: 0 <= j < k ==> CutOk(canon, lanes[j], cuts[j]) && Held(lanes[j], cuts[j], |cuts[j].eps|, epochAt))
    && (forall at :: at in epochAt <==> InLanes(lanes, k, at))
    && (forall at :: at in epochAt ==> epochAt[at] in nodes && Level(epochAt[at]) == 2)
  }

  /** Cuts every stream into epochs. */
  method CutAll(canon: seq<Record>, lanes: seq<Lane>, nodes: Tree)
    returns (cuts: seq<Cut>, out: Tree, epochAt: map<nat, NodeId>)
    requires Partitioned(canon, lanes, |canon|) && Rooted(canon, nodes)
    requires forall id :: HasLane(lanes, id) ==> Stream(id) in nodes
    ensures CutUpTo(canon, lanes, cuts, |lanes|, out, epochAt)
    ensures Rooted(canon, out) && out == nodes + EpochMaps(lanes, cuts)
  {
    hide Partitioned, Rooted, CutOk, Held, Marked, LaneOk, CutUpTo, Level, HasLane, EpochMap;
    cuts, out, epochAt := [], nodes, map[];
    WriteNothing(nodes);
    NothingCut(canon, lanes, nodes);
    for k := 0 to |lanes|
      invariant CutUpTo(canon, lanes, cuts, k, out, epochAt) && |cuts| == k
      invariant Rooted(canon, out) && out == nodes + EpochMaps(lanes, cuts)
    {
      LaneIs(canon, lanes, k);
      ghost var before, at := out, epochAt;
      var c: Cut;
      c, out, epochAt := CutStream(canon, lanes[k], out, epochAt);
      CutMore(canon, lanes, cuts, k, before, out, at, epochAt, c);
      WriteTogether(nodes, EpochMaps(lanes, cuts), EpochMap(c.ids, lanes[k].id));
      assert (cuts + [c])[..k] == cuts;
      cuts := cuts + [c];
    }
  }

  /** The epochs of the streams that are cut, each in its stream. */
  function EpochMaps(lanes: seq<Lane>, cuts: seq<Cut>): Tree
    requires |cuts| <= |lanes|
  {
    if cuts == [] then map[]
    else
      var k := |cuts| - 1;
      EpochMaps(lanes, cuts[..k]) + EpochMap(cuts[k].ids, lanes[k].id)
  }

  ghost predicate InCuts(cuts: seq<Cut>, id: NodeId) {
    exists k :: 0 <= k < |cuts| && id in cuts[k].ids
  }

  predicate IsEpochId(id: NodeId) {
    id.FirstEpoch? || id.ResetEpoch? || id.LocatedEpoch?
  }

  /** An epoch's id says its stream. */
  lemma EpochIdsSay(canon: seq<Record>, lane: Lane, c: Cut)
    requires CutOk(canon, lane, c)
    ensures forall id :: id in c.ids ==> IsEpochId(id) && id.stream == lane.id
  {
    hide Tiles;
    forall id | id in c.ids ensures IsEpochId(id) && id.stream == lane.id {
      var m :| 0 <= m < |c.ids| && c.ids[m] == id;
    }
  }

  /** What is written for epochs: those of the cuts, each in the stream its id says. */
  lemma {:induction false} EpochNodes(canon: seq<Record>, lanes: seq<Lane>, cuts: seq<Cut>)
    requires |cuts| <= |lanes| && forall k :: 0 <= k < |cuts| ==> CutOk(canon, lanes[k], cuts[k])
    ensures forall id :: id in EpochMaps(lanes, cuts) <==> InCuts(cuts, id)
    ensures forall id :: id in EpochMaps(lanes, cuts) ==>
              IsEpochId(id) && EpochMaps(lanes, cuts)[id] == Some(Stream(id.stream))
  {
    hide CutOk;
    if cuts != [] {
      var k := |cuts| - 1;
      EpochNodes(canon, lanes, cuts[..k]);
      EpochIdsSay(canon, lanes[k], cuts[k]);
      forall id ensures InCuts(cuts, id) <==> InCuts(cuts[..k], id) || id in cuts[k].ids { CutsMore(cuts, k, id); }
    }
  }

  lemma CutsMore(cuts: seq<Cut>, k: nat, id: NodeId)
    requires |cuts| == k + 1
    ensures InCuts(cuts, id) <==> InCuts(cuts[..k], id) || id in cuts[k].ids
  {
    if InCuts(cuts, id) {
      var j :| 0 <= j < |cuts| && id in cuts[j].ids;
      assert j < k ==> id in cuts[..k][j].ids;
    }
    if InCuts(cuts[..k], id) {
      var j :| 0 <= j < k && id in cuts[..k][j].ids;
      assert id in cuts[j].ids;
    }
  }

  lemma NothingCut(canon: seq<Record>, lanes: seq<Lane>, nodes: Tree)
    ensures CutUpTo(canon, lanes, [], 0, nodes, map[])
  {
  }

  lemma LaneIs(canon: seq<Record>, lanes: seq<Lane>, k: nat)
    requires Partitioned(canon, lanes, |canon|) && k < |lanes|
    ensures LaneOk(canon, lanes[k], |canon|) && HasLane(lanes, lanes[k].id)
  {
    HasAt(lanes, k);
  }

  /** No record is in two streams. */
  lemma LanesApart(canon: seq<Record>, lanes: seq<Lane>, j: nat, k: nat)
    requires Partitioned(canon, lanes, |canon|) && j < k < |lanes|
    ensures lanes[j].id != lanes[k].id && forall at :: at in lanes[j].ats ==> at !in lanes[k].ats
  {
    forall at | at in lanes[j].ats ensures at !in lanes[k].ats {
      LaneIs(canon, lanes, j);
      OneLane(canon, lanes, at);
    }
  }

  lemma CutMore(canon: seq<Record>, lanes: seq<Lane>, cuts: seq<Cut>, k: nat, nodes: Tree, out: Tree,
                before: map<nat, NodeId>, now: map<nat, NodeId>, c: Cut)
    requires Partitioned(canon, lanes, |canon|) && k < |lanes| && CutUpTo(canon, lanes, cuts, k, nodes, before)
    requires CutOk(canon, lanes[k], c) && Held(lanes[k], c, |c.eps|, now) && Marked(lanes[k].ats, before, now)
    requires out == nodes + EpochMap(c.ids, lanes[k].id)
    ensures CutUpTo(canon, lanes, cuts + [c], k + 1, out, now)
  {
    hide Partitioned, CutOk, Level, LaneOk, Held;
    HeldIn(canon, lanes[k], c, now);
    var more := cuts + [c];
    var m := k + 1;
    forall j | 0 <= j < m ensures CutOk(canon, lanes[j], more[j]) && Held(lanes[j], more[j], |more[j].eps|, now) {
      if j < k {
        LanesApart(canon, lanes, j, k);
        HeldStill(lanes[j], cuts[j], before, now, lanes[k].ats);
      }
    }
    forall at ensures at in now <==> InLanes(lanes, m, at) {
      assert InLanes(lanes, m, at) <==> InLanes(lanes, k, at) || at in lanes[k].ats;
    }
  }

  lemma HeldStill(lane: Lane, c: Cut, before: map<nat, NodeId>, now: map<nat, NodeId>, ats: seq<nat>)
    requires Held(lane, c, |c.eps|, before) && Marked(ats, before, now) && forall at :: at in lane.ats ==> at !in ats
    ensures Held(lane, c, |c.eps|, now)
  {
  }

  // ---------------------------------------------------------------- talks

  /** A stream as placing takes it. */
  function LineageOf(canon: seq<Record>, lane: Lane, main: nat, epochAt: map<nat, NodeId>): Lineage
    requires forall j :: 0 <= j < |lane.ats| ==> lane.ats[j] < |canon|
  {
    Lineage(lane.id, lane.id == main, EntriesOf(canon, lane), lane.ats,
            seq(|lane.ats|, i requires 0 <= i < |lane.ats| =>
                if lane.ats[i] in epochAt then epochAt[lane.ats[i]] else Session))
  }

  /** Every record of a stream is in the node its place in it says. */
  ghost predicate LanePlaced(canon: seq<Record>, lane: Lane, main: nat, epochAt: map<nat, NodeId>, container: map<nat,
                             NodeId>) {
    && (forall j :: 0 <= j < |lane.ats| ==> lane.ats[j] < |canon|)
    && forall i :: 0 <= i < |lane.ats| ==>
         lane.ats[i] in container && container[lane.ats[i]] == Where(LineageOf(canon, lane, main, epochAt), i)
  }

  /** The first k streams are placed, and nothing is known of the others. */
  ghost predicate PlacedUpTo(canon: seq<Record>, lanes: seq<Lane>, main: nat, epochAt: map<nat, NodeId>, k: nat,
                             a: TalkState)
    requires k <= |lanes|
  {
    && Housed(a, epochAt.Values)
    && (forall key :: key in a.talkOfRun ==> HasLane(lanes[..k], key.0))
    && (forall key :: key in a.runNode ==> HasLane(lanes[..k], key.0))
    && (forall t :: t in a.inEpoch ==> IsTalk(t) && HasLane(lanes[..k], t.stream))
    && (forall at :: at in a.container <==> InLanes(lanes, k, at))
    && (forall j :: 0 <= j < k ==> LanePlaced(canon, lanes[j], main, epochAt, a.container))
  }

  /** Builds the talks and runs of every stream, and places every record. */
  method PlaceAll(canon: seq<Record>, lanes: seq<Lane>, main: nat, cuts: seq<Cut>, epochAt: map<nat, NodeId>,
                  ghost nodes: Tree)
    returns (b: TalkBuilder)
    requires Partitioned(canon, lanes, |canon|) && CutUpTo(canon, lanes, cuts, |lanes|, nodes, epochAt)
    ensures fresh(b) && PlacedUpTo(canon, lanes, main, epochAt, |lanes|, b.State())
    ensures AllFit(canon, lanes, main, epochAt) && b.State() == AfterAll(canon, lanes, main, epochAt, |lanes|)
  {
    hide Partitioned, CutUpTo, PlacedUpTo, Fits, Tiles, HeldBy, Unknown, LineageOf, LaneOk, After, AllFit;
    CutsFit(canon, lanes, main, cuts, epochAt, nodes);
    b := new TalkBuilder();
    NothingPlaced(canon, lanes, main, epochAt);
    for k := 0 to |lanes|
      invariant fresh(b) && PlacedUpTo(canon, lanes, main, epochAt, k, b.State())
      invariant b.State() == AfterAll(canon, lanes, main, epochAt, k)
    {
      CutLane(canon, lanes, main, cuts, epochAt, k, nodes);
      var l := LineageOf(canon, lanes[k], main, epochAt);
      ghost var a := b.State();
      NextUnknown(canon, lanes, main, epochAt, k, a);
      b.PlaceStream(l, cuts[k].eps, cuts[k].ids);
      PlacedMoreLanes(canon, lanes, main, cuts, epochAt, k, nodes, a);
    }
  }

  /** What placing needs holds of every stream. */
  ghost predicate AllFit(canon: seq<Record>, lanes: seq<Lane>, main: nat, epochAt: map<nat, NodeId>) {
    forall k :: 0 <= k < |lanes| ==> LaneFits(canon, lanes[k], main, epochAt)
  }

  ghost predicate LaneFits(canon: seq<Record>, lane: Lane, main: nat, epochAt: map<nat, NodeId>) {
    (forall j :: 0 <= j < |lane.ats| ==> lane.ats[j] < |canon|) && Fits(LineageOf(canon, lane, main, epochAt))
  }

  /** The talks, runs and containers of the first k streams. */
  ghost function AfterAll(canon: seq<Record>, lanes: seq<Lane>, main: nat, epochAt: map<nat, NodeId>, k: nat): TalkState
    requires AllFit(canon, lanes, main, epochAt) && k <= |lanes|
  {
    if k == 0 then TalkState(map[], map[], map[], [], map[], map[])
    else
      assert LaneFits(canon, lanes[k-1], main, epochAt);
      var l := LineageOf(canon, lanes[k-1], main, epochAt);
      After(l, AfterAll(canon, lanes, main, epochAt, k - 1), |l.es|)
  }

  lemma CutsFit(canon: seq<Record>, lanes: seq<Lane>, main: nat, cuts: seq<Cut>, epochAt: map<nat, NodeId>, nodes: Tree)
    requires Partitioned(canon, lanes, |canon|) && CutUpTo(canon, lanes, cuts, |lanes|, nodes, epochAt)
    ensures AllFit(canon, lanes, main, epochAt)
  {
    hide Partitioned, CutUpTo, Fits, LineageOf, Tiles, HeldBy;
    forall k | 0 <= k < |lanes| ensures LaneFits(canon, lanes[k], main, epochAt) {
      CutLane(canon, lanes, main, cuts, epochAt, k, nodes);
    }
  }

  lemma NothingPlaced(canon: seq<Record>, lanes: seq<Lane>, main: nat, epochAt: map<nat, NodeId>)
    ensures PlacedUpTo(canon, lanes, main, epochAt, 0, TalkState(map[], map[], map[], [], map[], map[]))
  {
  }

  /** A stream that is cut fits what placing needs of it. */
  lemma CutLane(canon: seq<Record>, lanes: seq<Lane>, main: nat, cuts: seq<Cut>, epochAt: map<nat, NodeId>, k: nat,
                nodes: Tree)
    requires Partitioned(canon, lanes, |canon|) && CutUpTo(canon, lanes, cuts, |lanes|, nodes, epochAt) && k < |lanes|
    ensures |cuts| == |lanes| && |cuts[k].ids| == |cuts[k].eps|
    ensures forall j :: 0 <= j < |lanes[k].ats| ==> lanes[k].ats[j] < |canon|
    ensures var l := LineageOf(canon, lanes[k], main, epochAt);
      && Fits(l) && Tiles(l.es, cuts[k].eps, |l.es|) && HeldBy(l, cuts[k].eps, cuts[k].ids) && l.id == lanes[k].id
        && l.ats == lanes[k].ats
      && (forall i :: 0 <= i < |l.held| ==> l.held[i] in epochAt.Values)
  {
    hide Tiles, LaneOk;
    LaneIs(canon, lanes, k);
    LaneAts(canon, lanes[k]);
    HeldIn(canon, lanes[k], cuts[k], epochAt);
  }

  lemma NextUnknown(canon: seq<Record>, lanes: seq<Lane>, main: nat, epochAt: map<nat, NodeId>, k: nat, a: TalkState)
    requires Partitioned(canon, lanes, |canon|) && k < |lanes| && PlacedUpTo(canon, lanes, main, epochAt, k, a)
    requires forall j :: 0 <= j < |lanes[k].ats| ==> lanes[k].ats[j] < |canon|
    ensures Unknown(LineageOf(canon, lanes[k], main, epochAt), a)
  {
    hide Partitioned, LanePlaced, Housed;
    var l := LineageOf(canon, lanes[k], main, epochAt);
    assert !HasLane(lanes[..k], l.id) by {
      forall j | 0 <= j < k ensures lanes[..k][j].id != l.id { LanesApart(canon, lanes, j, k); }
    }
    forall i | 0 <= i < |l.ats| ensures l.ats[i] !in a.container {
      forall j | 0 <= j < k ensures l.ats[i] !in lanes[j].ats { LanesApart(canon, lanes, j, k); }
    }
  }

  lemma PlacedMoreLanes(canon: seq<Record>, lanes: seq<Lane>, main: nat, cuts: seq<Cut>, epochAt: map<nat, NodeId>,
                        k: nat, nodes: Tree, a: TalkState)
    requires Partitioned(canon, lanes, |canon|) && CutUpTo(canon, lanes, cuts, |lanes|, nodes, epochAt) && k < |lanes|
    requires PlacedUpTo(canon, lanes, main, epochAt, k, a)
    requires forall j :: 0 <= j < |lanes[k].ats| ==> lanes[k].ats[j] < |canon|
    requires var l := LineageOf(canon, lanes[k], main, epochAt); Fits(l)
    ensures var l := LineageOf(canon, lanes[k], main, epochAt);
            PlacedUpTo(canon, lanes, main, epochAt, k + 1, After(l, a, |l.es|))
  {
    hide Partitioned, LanePlaced, Housed, CutUpTo, HasLane, InLanes, Fits, Unknown, After, Tiles, HeldBy;
    var l := LineageOf(canon, lanes[k], main, epochAt);
    var c := After(l, a, |l.es|);
    var m := k + 1;
    CutLane(canon, lanes, main, cuts, epochAt, k, nodes);
    NextUnknown(canon, lanes, main, epochAt, k, a);
    AfterHoused(l, a, |l.es|, epochAt.Values);
    AfterOwn(l, a, |l.es|);
    EveryEntryPlaced(l, a, |l.es|);
    LaneAdded(lanes, k);
    assert l.ats[..|l.es|] == l.ats;
    forall at: nat ensures InLanes(lanes, m, at) <==> InLanes(lanes, k, at) || at in l.ats { LanesMore(lanes, k, at); }
    LanesPlaced(canon, lanes, main, epochAt, k, a.container, c.container);
    ContainerKeys(l, a, c, |l.es|);
    OwnersKnown(lanes[..k], lanes[..m], l.id, a, c);
  }

  lemma LanesPlaced(canon: seq<Record>, lanes: seq<Lane>, main: nat, epochAt: map<nat, NodeId>, k: nat, before: map<nat,
                    NodeId>, now: map<nat, NodeId>)
    requires Partitioned(canon, lanes, |canon|) && k < |lanes|
    requires forall j :: 0 <= j < k ==> LanePlaced(canon, lanes[j], main, epochAt, before)
    requires forall j :: 0 <= j < |lanes[k].ats| ==> lanes[k].ats[j] < |canon|
    requires var l := LineageOf(canon, lanes[k], main, epochAt);
      forall i :: 0 <= i < |l.ats| ==> l.ats[i] in now && now[l.ats[i]] == Where(l, i)
    requires forall at :: at in before && at !in lanes[k].ats ==> at in now && now[at] == before[at]
    ensures forall j :: 0 <= j <= k ==> LanePlaced(canon, lanes[j], main, epochAt, now)
  {
    hide Partitioned, LanePlaced, Where;
    ThisLanePlaced(canon, lanes[k], main, epochAt, now);
    forall j | 0 <= j < k ensures LanePlaced(canon, lanes[j], main, epochAt, now) {
      LanesApart(canon, lanes, j, k);
      LaneStillPlaced(canon, lanes[j], main, epochAt, before, now, lanes[k].ats);
    }
  }

  lemma OwnersKnown(less: seq<Lane>, more: seq<Lane>, id: nat, a: TalkState, c: TalkState)
    requires forall i :: HasLane(more, i) <==> HasLane(less, i) || i == id
    requires forall key :: key in c.talkOfRun ==> key in a.talkOfRun || key.0 == id
    requires forall key :: key in c.runNode ==> key in a.runNode || key.0 == id
    requires forall t :: t in c.inEpoch ==> t in a.inEpoch || (IsTalk(t) && t.stream == id)
    requires forall key :: key in a.talkOfRun ==> HasLane(less, key.0)
    requires forall key :: key in a.runNode ==> HasLane(less, key.0)
    requires forall t :: t in a.inEpoch ==> IsTalk(t) && HasLane(less, t.stream)
    ensures forall key :: key in c.talkOfRun ==> HasLane(more, key.0)
    ensures forall key :: key in c.runNode ==> HasLane(more, key.0)
    ensures forall t :: t in c.inEpoch ==> IsTalk(t) && HasLane(more, t.stream)
  {
    hide HasLane;
  }

  lemma ContainerKeys(l: Lineage, a: TalkState, c: TalkState, n: nat)
    requires forall k :: k in c.container ==> k in a.container || k in l.ats
    requires forall k :: k in a.container && k !in l.ats ==> k in c.container
    requires forall i :: 0 <= i < |l.ats| ==> l.ats[i] in c.container
    ensures forall at :: at in c.container <==> at in a.container || at in l.ats
  {
  }

  lemma LanesMore(lanes: seq<Lane>, k: nat, at: nat)
    requires k < |lanes|
    ensures InLanes(lanes, k + 1, at) <==> InLanes(lanes, k, at) || at in lanes[k].ats
  {
  }

  lemma ThisLanePlaced(canon: seq<Record>, lane: Lane, main: nat, epochAt: map<nat, NodeId>, container: map<nat,
                       NodeId>)
    requires forall j :: 0 <= j < |lane.ats| ==> lane.ats[j] < |canon|
    requires var l := LineageOf(canon, lane, main, epochAt);
      forall i :: 0 <= i < |l.ats| ==> l.ats[i] in container && container[l.ats[i]] == Where(l, i)
    ensures LanePlaced(canon, lane, main, epochAt, container)
  {
    hide Where;
    var l := LineageOf(canon, lane, main, epochAt);
    forall i | 0 <= i < |lane.ats| ensures lane.ats[i] in container && container[lane.ats[i]] == Where(l, i) {
      assert l.ats[i] == lane.ats[i];
    }
  }

  lemma LaneStillPlaced(canon: seq<Record>, lane: Lane, main: nat, epochAt: map<nat, NodeId>, before: map<nat, NodeId>,
                        now: map<nat, NodeId>, ats: seq<nat>)
    requires LanePlaced(canon, lane, main, epochAt, before) && forall at :: at in lane.ats ==> at !in ats
    requires forall k :: k in before && k !in ats ==> k in now && now[k] == before[k]
    ensures LanePlaced(canon, lane, main, epochAt, now)
  {
    hide Where;
  }

  /** The talks of a session are those of its streams. */
  lemma {:induction false} SessionTalks(canon: seq<Record>, lanes: seq<Lane>, main: nat, epochAt: map<nat, NodeId>,
                                        k: nat, t: NodeId)
    requires AllFit(canon, lanes, main, epochAt) && k <= |lanes|
    ensures t in AfterAll(canon, lanes, main, epochAt, k).talks <==>
            exists j :: 0 <= j < k && TalkIn(canon, lanes[j], main, epochAt, t)
    decreases k
  {
    hide LineageOf, Fits, After, TalkOfLane;
    if k > 0 {
      SessionTalks(canon, lanes, main, epochAt, k - 1, t);
      assert LaneFits(canon, lanes[k-1], main, epochAt);
      var l := LineageOf(canon, lanes[k-1], main, epochAt);
      LaneTalks(l, AfterAll(canon, lanes, main, epochAt, k - 1), t);
    }
  }

  ghost predicate TalkIn(canon: seq<Record>, lane: Lane, main: nat, epochAt: map<nat, NodeId>, t: NodeId) {
    LaneFits(canon, lane, main, epochAt) && TalkOfLane(LineageOf(canon, lane, main, epochAt), t)
  }
}
