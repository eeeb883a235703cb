/**
 The stages in their order, from a session's records to its containment tree.
 */
module SessionTree {

  import opened Epochs
  import opened Streams
  import opened Calls
  import opened Tools
  import opened Talks
  import opened Containers
  import opened Placement
  import opened StepTree
  import opened Windows
  import opened Assembly

  // ---------------------------------------------------------------- the upper levels

  /** Talks and runs attach to the epochs and to each other, and then every container was written. */
  lemma TalksAttach(canon: seq<Record>, nodes: Tree, a: TalkState, epochAt: map<nat, NodeId>)
    requires Rooted(canon, nodes) && Housed(a, epochAt.Values) && Listed(a, a.talks)
    requires forall at :: at in epochAt ==> epochAt[at] in nodes && Level(epochAt[at]) == 2
    ensures Rooted(canon, nodes + TalkMap(a, a.talks))
    ensures forall at :: at in a.container ==>
              a.container[at] in nodes + TalkMap(a, a.talks) && Level(a.container[at]) <= 4
  {
    hide Rooted, TalkMap, RunHoused;
    TalkNodes(a, epochAt.Values);
    var m := TalkMap(a, a.talks);
    forall id | id in m ensures id != Session && Attached(canon, nodes + m, id, m[id]) {
      if id in a.inEpoch {
        assert TalkHoused(a, epochAt.Values, id);
      } else {
        assert TalkHoused(a, epochAt.Values, id.talk);
      }
    }
    RootedMore(canon, nodes, m);
    forall at | at in a.container ensures a.container[at] in nodes + m && Level(a.container[at]) <= 4 {
      PlaceWritten(a, epochAt.Values, nodes, m, a.container[at]);
      assert Places(a, epochAt.Values, a.container[at]);
      if a.container[at] in a.inEpoch { assert TalkHoused(a, epochAt.Values, a.container[at]); }
    }
  }

  lemma PlaceWritten(a: TalkState, epochs: set<NodeId>, nodes: Tree, m: Tree, id: NodeId)
    requires forall e :: e in epochs ==> e in nodes
    requires forall k :: k in m <==> k in a.inEpoch || Places(a, {}, k)
    ensures Places(a, epochs, id) ==> id in nodes + m
  {
    assert Places(a, epochs, id) && id !in epochs ==> Places(a, {}, id);
  }

  /** The upper levels hold no leaf. */
  ghost predicate Upper(nodes: Tree) {
    forall id :: id in nodes ==> Level(id) <= 4
  }

  /** Every container was written. */
  ghost predicate UpperReady(canon: seq<Record>, nodes: Tree, epochAt: map<nat, NodeId>, container: map<nat, NodeId>) {
    && Rooted(canon, nodes)
    && (forall at :: at in container ==> container[at] in nodes && Level(container[at]) <= 4)
    && (forall at :: at in epochAt ==> epochAt[at] in nodes && Level(epochAt[at]) <= 4)
    && (forall i :: 0 <= i < |canon| && canon[i].entry.stream != 0 ==> Stream(canon[i].entry.stream) in nodes)
  }

  /** The nodes above the leaves: the session, its streams, their epochs, talks and runs, and the windows. */
  ghost predicate IsUpper(lanes: seq<Lane>, cuts: seq<Cut>, a: TalkState, windows: seq<nat>, id: NodeId) {
    || id == Session || (id.Stream? && HasLane(lanes, id.stream)) || InCuts(cuts, id)
    || Places(a, {}, id) || (id.Segment? && id.at in windows)
  }

  /**
   Where each of them is: streams and windows in the session, epochs in their stream, talks in an epoch,
   runs in their talk.
   */
  function UpperParent(a: TalkState, id: NodeId): Option<NodeId> {
    match id
    case Stream(_) => Some(Session)
    case Segment(_) => Some(Session)
    case FirstEpoch(s) => Some(Stream(s))
    case ResetEpoch(s, _) => Some(Stream(s))
    case LocatedEpoch(s, _) => Some(Stream(s))
    case Run(t, _) => Some(t)
    case _ => if id in a.inEpoch then Some(a.inEpoch[id]) else None
  }

  ghost predicate UpperOk(lanes: seq<Lane>, cuts: seq<Cut>, a: TalkState, windows: seq<nat>, nodes: Tree, id: NodeId) {
    && (id in nodes <==> IsUpper(lanes, cuts, a, windows, id))
    && (id in nodes ==> nodes[id] == UpperParent(a, id))
  }

  /** The upper levels are exactly those, each where it is. */
  ghost predicate UpperIs(lanes: seq<Lane>, cuts: seq<Cut>, a: TalkState, windows: seq<nat>, nodes: Tree) {
    forall id :: Level(id) <= 4 ==> UpperOk(lanes, cuts, a, windows, nodes, id)
  }

  /** The streams are cut where they are reset, and talks, runs and places are what going over them leaves. */
  ghost predicate Staged(canon: seq<Record>, lanes: seq<Lane>, main: nat, cuts: seq<Cut>, nodes: Tree,
                         epochAt: map<nat, NodeId>, a: TalkState) {
    && CutUpTo(canon, lanes, cuts, |lanes|, nodes, epochAt)
    && AllFit(canon, lanes, main, epochAt)
    && a == AfterAll(canon, lanes, main, epochAt, |lanes|)
  }

  /** Where the windows open: each is known by where its first talk began. */
  function WindowStarts(ws: seq<Window>): seq<nat> {
    seq(|ws|, k requires 0 <= k < |ws| => if ws[k].talks == [] then 0 else ws[k].talks[0].at)
  }

  function SegmentMap(windows: seq<nat>): Tree {
    map at | at in windows :: Segment(at) := Some(Session)
  }

  /** Writes the session, streams, epochs, talks, runs and windows. */
  method WriteUpper(canon: seq<Record>, lanes: seq<Lane>, main: nat, gap: int)
    returns (nodes: Tree, epochAt: map<nat, NodeId>, container: map<nat, NodeId>, cuts: seq<Cut>, ws: seq<Window>,
             ghost a: TalkState)
    requires Partitioned(canon, lanes, |canon|)
    ensures Upper(nodes) && UpperReady(canon, nodes, epochAt, container)
    ensures forall j :: 0 <= j < |lanes| ==> LanePlaced(canon, lanes[j], main, epochAt, container)
    ensures Staged(canon, lanes, main, cuts, nodes, epochAt, a) && container == a.container
    ensures Windowed(canon, lanes, main, epochAt, gap, ws) && UpperIs(lanes, cuts, a, WindowStarts(ws), nodes)
  {
    hide Windowed, WindowStarts, Rooted, Partitioned, CutUpTo, PlacedUpTo, TalkMap, LanePlaced, HasLane, Level, Upper,
      UpperReady, Housed, Listed,
      AllFit, AfterAll, UpperIs, EpochMaps, SegmentMap, Staged;
    nodes := EmitStreams(canon, lanes);
    ghost var streams := nodes;
    UpperStreams(lanes, nodes);
    cuts, nodes, epochAt := CutAll(canon, lanes, nodes);
    CutsOk(canon, lanes, cuts, nodes, epochAt);
    EpochNodes(canon, lanes, cuts);
    UpperEpochs(streams, nodes, EpochMaps(lanes, cuts));
    ghost var cut := nodes;
    var b := PlaceAll(canon, lanes, main, cuts, epochAt, nodes);
    a := b.State();
    container := b.container;
    PlacedIs(canon, lanes, main, epochAt, a);
    CutReady(canon, lanes, cuts, nodes, epochAt);
    AllListed(a, epochAt.Values);
    UpperTalks(canon, lanes, streams, nodes, a, epochAt);
    nodes := EmitTalks(b, nodes);
    ghost var talked := nodes;
    NoSegments(nodes);
    ws := FindWindows(canon, lanes, main, epochAt, container, gap);
    var windows := WindowStarts(ws);
    for k := 0 to |windows|
      invariant Upper(nodes) && UpperReady(canon, nodes, epochAt, container)
      invariant nodes == talked + SegmentMap(windows[..k])
    {
      SegmentAdds(canon, nodes, epochAt, container, windows[k]);
      NextSegment(talked, windows, k);
      nodes := nodes[Segment(windows[k]) := Some(Session)];
    }
    assert windows[..|windows|] == windows;
    UpperBuilt(canon, lanes, cuts, a, epochAt, windows, streams);
    StagedIs(canon, lanes, main, cuts, cut, nodes, epochAt, a);
  }

  lemma NoSegments(nodes: Tree)
    ensures nodes == nodes + SegmentMap([])
  {
  }

  lemma NextSegment(nodes: Tree, windows: seq<nat>, k: nat)
    requires k < |windows|
    ensures (nodes + SegmentMap(windows[..k]))[Segment(windows[k]) := Some(Session)] ==
              nodes + SegmentMap(windows[..k+1])
  {
    assert windows[..k+1] == windows[..k] + [windows[k]];
  }

  lemma CutsOk(canon: seq<Record>, lanes: seq<Lane>, cuts: seq<Cut>, nodes: Tree, epochAt: map<nat, NodeId>)
    requires CutUpTo(canon, lanes, cuts, |lanes|, nodes, epochAt)
    ensures |cuts| == |lanes| && forall k :: 0 <= k < |cuts| ==> CutOk(canon, lanes[k], cuts[k])
  {
  }

  lemma StagedIs(canon: seq<Record>, lanes: seq<Lane>, main: nat, cuts: seq<Cut>, cut: Tree, nodes: Tree,
                 epochAt: map<nat, NodeId>, a: TalkState)
    requires Staged(canon, lanes, main, cuts, cut, epochAt, a) || (CutUpTo(canon, lanes, cuts, |lanes|, cut, epochAt)
             && AllFit(canon, lanes, main, epochAt) && a == AfterAll(canon, lanes, main, epochAt, |lanes|))
    requires forall at :: at in epochAt ==> epochAt[at] in nodes
    ensures Staged(canon, lanes, main, cuts, nodes, epochAt, a)
  {
    hide CutOk, Held, InLanes, AllFit, AfterAll;
  }

  /** What the stages wrote, node by node. */
  lemma UpperBuilt(canon: seq<Record>, lanes: seq<Lane>, cuts: seq<Cut>, a: TalkState, epochAt: map<nat, NodeId>,
                   windows: seq<nat>, streams: Tree)
    requires |cuts| == |lanes| && (forall k :: 0 <= k < |cuts| ==> CutOk(canon, lanes[k], cuts[k]))
    requires Housed(a, epochAt.Values) && Listed(a, a.talks)
    requires forall id :: id in streams <==> id == Session || (id.Stream? && HasLane(lanes, id.stream))
    requires forall id :: id in streams ==> streams[id] == if id == Session then None else Some(Session)
    ensures UpperIs(lanes, cuts, a, windows, streams + EpochMaps(lanes, cuts) + TalkMap(a, a.talks)
                    + SegmentMap(windows))
  {
    hide CutOk, Housed, HasLane, EpochMaps, TalkMap, Listed, InCuts, Level, Places;
    EpochNodes(canon, lanes, cuts);
    TalkNodes(a, epochAt.Values);
    forall id ensures id in a.inEpoch ==> IsTalk(id) { if id in a.inEpoch { TalkLevel(a, epochAt.Values, id); } }
    forall id ensures Places(a, {}, id) ==> id in a.inEpoch || id.Run? { PlacesIs(a, id); }
    forall id ensures id in a.inEpoch ==> Places(a, {}, id) { PlacesIs(a, id); }
  }

  lemma PlacesIs(a: TalkState, id: NodeId)
    ensures Places(a, {}, id) ==> id in a.inEpoch || id.Run?
    ensures id in a.inEpoch ==> Places(a, {}, id)
  {
  }

  lemma UpperStreams(lanes: seq<Lane>, nodes: Tree)
    requires forall id :: id in nodes <==> id == Session || (id.Stream? && HasLane(lanes, id.stream))
    ensures Upper(nodes) && forall id :: HasLane(lanes, id) ==> Stream(id) in nodes
  {
  }

  lemma UpperEpochs(nodes: Tree, out: Tree, m: Tree)
    requires Upper(nodes) && out == nodes + m && forall id :: id in m ==> IsEpochId(id)
    ensures Upper(out)
  {
  }

  lemma PlacedIs(canon: seq<Record>, lanes: seq<Lane>, main: nat, epochAt: map<nat, NodeId>, a: TalkState)
    requires PlacedUpTo(canon, lanes, main, epochAt, |lanes|, a)
    ensures Housed(a, epochAt.Values) && forall j :: 0 <= j < |lanes| ==>
              LanePlaced(canon, lanes[j], main, epochAt, a.container)
  {
  }

  lemma CutReady(canon: seq<Record>, lanes: seq<Lane>, cuts: seq<Cut>, nodes: Tree, epochAt: map<nat, NodeId>)
    requires CutUpTo(canon, lanes, cuts, |lanes|, nodes, epochAt)
    ensures forall at :: at in epochAt ==> epochAt[at] in nodes && Level(epochAt[at]) == 2
  {
  }

  lemma UpperTalks(canon: seq<Record>, lanes: seq<Lane>, streams: Tree, nodes: Tree, a: TalkState, epochAt: map<nat,
                   NodeId>)
    requires Partitioned(canon, lanes, |canon|) && Rooted(canon, nodes) && Upper(nodes) && Housed(a, epochAt.Values)
    requires Listed(a, a.talks)
    requires (forall id :: HasLane(lanes, id) ==> Stream(id) in streams) && forall id :: id in streams ==> id in nodes
    requires forall at :: at in epochAt ==> epochAt[at] in nodes && Level(epochAt[at]) == 2
    ensures Upper(nodes + TalkMap(a, a.talks)) && UpperReady(canon, nodes + TalkMap(a, a.talks), epochAt, a.container)
  {
    hide Rooted, TalkMap, HasLane, LaneOk, Housed, Places;
    TalksAttach(canon, nodes, a, epochAt);
    TalkNodes(a, epochAt.Values);
    forall id | id in TalkMap(a, a.talks) ensures Level(id) <= 4 {
      if id in a.inEpoch { TalkLevel(a, epochAt.Values, id); }
    }
  }

  lemma TalkLevel(a: TalkState, epochs: set<NodeId>, t: NodeId)
    requires Housed(a, epochs) && t in a.inEpoch
    ensures IsTalk(t) && Level(t) == 3
  {
    assert TalkHoused(a, epochs, t);
  }

  /** A window is in the session, and nothing is in a window. */
  lemma SegmentAdds(canon: seq<Record>, nodes: Tree, epochAt: map<nat, NodeId>, container: map<nat, NodeId>, at: nat)
    requires Upper(nodes) && UpperReady(canon, nodes, epochAt, container)
    ensures Upper(nodes[Segment(at) := Some(Session)])
    ensures UpperReady(canon, nodes[Segment(at) := Some(Session)], epochAt, container)
  {
    RootIs(canon, nodes);
    RootedOne(canon, nodes, Segment(at), Session);
    hide Rooted;
  }

  // ---------------------------------------------------------------- the leaves

  /** One of the nodes below the containers that the records and their joins call for. */
  ghost predicate IsLeaf(v: View, id: NodeId)
    requires Sound(v)
  {
    || InCalls(v, v.calls, id) || InSilent(v, |v.canon|, id) || InTools(v, v.tools, id) || InOutputs(v, |v.lanes|, id)
    || exists pass :: InPass(v, pass, |v.canon|, id)
  }

  /** A leaf is under the node its record or its join says. */
  ghost predicate LeafPlaced(v: View, id: NodeId, parent: Option<NodeId>)
    requires Sound(v)
  {
    && (InCalls(v, v.calls, id) ==> parent == Some(CallParent(v, id)))
    && (InSilent(v, |v.canon|, id) ==> parent == Some(Holder(v, id.at)))
    && (InTools(v, v.tools, id) ==> parent == Some(ToolHolder(v, v.byTool[id.tool].use.value.at)))
    && (forall pass :: InPass(v, pass, |v.canon|, id) ==> parent == PassHolder(v, pass, id.at))
  }

  /** The nodes of a session: a rooted tree whose leaves are exactly those there should be, each where it should be. */
  ghost predicate Assembled(v: View, nodes: Tree) {
    && Sound(v) && Rooted(v.canon, nodes)
    && (forall id :: Level(id) >= 5 ==> (id in nodes <==> IsLeaf(v, id)))
    && (forall id :: id in nodes && Level(id) >= 5 ==> LeafPlaced(v, id, nodes[id]))
    && (forall j :: 0 <= j < |v.lanes| ==> OutputIs(v, nodes, j))
  }

  ghost function Leaves(v: View, base: Tree): Tree
    requires Sound(v) && ToolsKnown(v, v.tools)
  {
    base + CallMap(v, v.calls) + SilentMap(v, |v.canon|) + ToolMap(v, v.tools)
      + PassMap(v, EpochPass, |v.canon|) + PassMap(v, DelegationPass, |v.canon|) + OutputMap(v, |v.lanes|)
      + PassMap(v, InputPass, |v.canon|) + PassMap(v, ControlPass, |v.canon|)
  }

  /** The leaves attach to the containers, and to the calls among them. */
  lemma LeavesAttach(v: View, base: Tree)
    requires Sound(v) && ToolsKnown(v, v.tools) && Grouped(v.canon, v.byCall, v.calls) && Apart(v.lanes)
    requires Ready(v, base)
    ensures Rooted(v.canon, Leaves(v, base))
  {
    hide Ready, CallMap, SilentMap, ToolMap, PassMap, OutputMap, Grouped, Sound, ToolsKnown, Apart;
    var n := |v.canon|;
    CallsListed(v);
    CallsReady(v, base);
    var a := base + CallMap(v, v.calls);
    SilentReady(v, a);
    a := a + SilentMap(v, n);
    ToolsReady(v, a);
    a := a + ToolMap(v, v.tools);
    PassReady(v, a, EpochPass);
    a := a + PassMap(v, EpochPass, n);
    PassReady(v, a, DelegationPass);
    a := a + PassMap(v, DelegationPass, n);
    OutputsReady(v, a);
    a := a + OutputMap(v, |v.lanes|);
    PassReady(v, a, InputPass);
    a := a + PassMap(v, InputPass, n);
    PassReady(v, a, ControlPass);
    ReadyIs(v, Leaves(v, base));
  }

  lemma ReadyIs(v: View, nodes: Tree)
    requires Ready(v, nodes)
    ensures Rooted(v.canon, nodes)
  {
  }

  /** No node is written by two passes. */
  lemma OnePass(v: View, id: NodeId, p: Pass, q: Pass)
    requires InPass(v, p, |v.canon|, id)
    ensures InPass(v, q, |v.canon|, id) ==> p == q
    ensures !id.name.Message? && !id.name.Thought?
  {
  }

  lemma Exclusive(v: View, id: NodeId)
    requires Sound(v)
    ensures InCalls(v, v.calls, id) ==>
              !InSilent(v, |v.canon|, id) && !InTools(v, v.tools, id) && !InOutputs(v, |v.lanes|, id)
    ensures InSilent(v, |v.canon|, id) ==> !InTools(v, v.tools, id) && !InOutputs(v, |v.lanes|, id)
    ensures InTools(v, v.tools, id) ==> !InOutputs(v, |v.lanes|, id)
    ensures forall pass :: InPass(v, pass, |v.canon|, id) ==>
              !InCalls(v, v.calls, id) && !InSilent(v, |v.canon|, id) && !InTools(v, v.tools, id)
                && !InOutputs(v, |v.lanes|, id)
  {
    hide Sound;
    forall pass | InPass(v, pass, |v.canon|, id) ensures !InCalls(v, v.calls, id) && !InSilent(v, |v.canon|, id) {
      OnePass(v, id, pass, pass);
      SaidAt(id.at, v.canon[id.at].blocks);
    }
  }

  /** A key of one map alone keeps that map's value when they are laid over each other. */
  lemma Layered(b: Tree, m: seq<Tree>, id: NodeId)
    requires |m| == 8 && id !in b && forall i, j :: 0 <= i < j < 8 ==> id !in m[i] || id !in m[j]
    ensures id in b + m[0] + m[1] + m[2] + m[3] + m[4] + m[5] + m[6] + m[7] <==> exists i :: 0 <= i < 8 && id in m[i]
    ensures forall i :: 0 <= i < 8 && id in m[i] ==>
              (b + m[0] + m[1] + m[2] + m[3] + m[4] + m[5] + m[6] + m[7])[id] == m[i][id]
  {
  }

  ghost function Layers(v: View): (m: seq<Tree>)
    requires Sound(v) && ToolsKnown(v, v.tools)
    ensures |m| == 8
  {
    [CallMap(v, v.calls), SilentMap(v, |v.canon|), ToolMap(v, v.tools),
     PassMap(v, EpochPass, |v.canon|), PassMap(v, DelegationPass, |v.canon|), OutputMap(v, |v.lanes|),
     PassMap(v, InputPass, |v.canon|), PassMap(v, ControlPass, |v.canon|)]
  }

  /** What belongs to layer i. */
  ghost predicate InLayer(v: View, i: nat, id: NodeId)
    requires Sound(v) && i < 8
  {
    match i
    case 0 => InCalls(v, v.calls, id)
    case 1 => InSilent(v, |v.canon|, id)
    case 2 => InTools(v, v.tools, id)
    case 3 => InPass(v, EpochPass, |v.canon|, id)
    case 4 => InPass(v, DelegationPass, |v.canon|, id)
    case 5 => InOutputs(v, |v.lanes|, id)
    case 6 => InPass(v, InputPass, |v.canon|, id)
    case _ => InPass(v, ControlPass, |v.canon|, id)
  }

  lemma LayerIs(v: View, i: nat, id: NodeId)
    requires Sound(v) && ToolsKnown(v, v.tools) && Grouped(v.canon, v.byCall, v.calls) && Apart(v.lanes) && i < 8
    ensures id in Layers(v)[i] <==> InLayer(v, i, id)
    ensures id in Layers(v)[i] && i != 5 ==> LayerPlaced(v, i, id, Layers(v)[i][id])
  {
    hide Sound, ToolsKnown, Grouped, Apart, InCalls, InSilent, InTools, InPass, InOutputs, CallMap, SilentMap, ToolMap,
      PassMap, OutputMap,
      CallParent, Holder, ToolHolder, PassHolder, OutputRecord, OutputIs;
    match i {
      case 0 => CallsListed(v); CallsAre(v, v.calls);
      case 1 => SilentIs(v, |v.canon|);
      case 2 => ToolsAre(v, v.tools);
      case 3 => PassIs(v, EpochPass, |v.canon|);
      case 4 => PassIs(v, DelegationPass, |v.canon|);
      case 5 => OutputsAre(v, |v.lanes|);
      case 6 => PassIs(v, InputPass, |v.canon|);
      case _ => PassIs(v, ControlPass, |v.canon|);
    }
  }

  ghost predicate LayerPlaced(v: View, i: nat, id: NodeId, parent: Option<NodeId>)
    requires Sound(v) && i < 8
  {
    match i
    case 0 => InCalls(v, v.calls, id) && parent == Some(CallParent(v, id))
    case 1 => InSilent(v, |v.canon|, id) && parent == Some(Holder(v, id.at))
    case 2 => InTools(v, v.tools, id) && parent == Some(ToolHolder(v, v.byTool[id.tool].use.value.at))
    case 3 => InPass(v, EpochPass, |v.canon|, id) && parent == PassHolder(v, EpochPass, id.at)
    case 4 => InPass(v, DelegationPass, |v.canon|, id) && parent == PassHolder(v, DelegationPass, id.at)
    case 5 => true
    case 6 => InPass(v, InputPass, |v.canon|, id) && parent == PassHolder(v, InputPass, id.at)
    case _ => InPass(v, ControlPass, |v.canon|, id) && parent == PassHolder(v, ControlPass, id.at)
  }

  /** No node is in two layers. */
  lemma LayersApart(v: View, i: nat, j: nat, id: NodeId)
    requires Sound(v) && i < j < 8
    ensures !InLayer(v, i, id) || !InLayer(v, j, id)
  {
    hide Sound, InCalls, InSilent, InTools, InPass, InOutputs;
    Exclusive(v, id);
    forall p, q | InPass(v, p, |v.canon|, id) && InPass(v, q, |v.canon|, id) ensures p == q { OnePass(v, id, p, q); }
  }

  /** A leaf is in some layer. */
  lemma SomeLayer(v: View, id: NodeId)
    requires Sound(v)
    ensures IsLeaf(v, id) <==> exists i: nat :: i < 8 && InLayer(v, i, id)
  {
    hide Sound, InCalls, InSilent, InTools, InPass, InOutputs;
    assert InLayer(v, 0, id) <==> InCalls(v, v.calls, id);
    assert InLayer(v, 1, id) <==> InSilent(v, |v.canon|, id);
    assert InLayer(v, 2, id) <==> InTools(v, v.tools, id);
    assert InLayer(v, 5, id) <==> InOutputs(v, |v.lanes|, id);
    forall pass | InPass(v, pass, |v.canon|, id) ensures exists i: nat :: i < 8 && InLayer(v, i, id) {
      match pass {
        case EpochPass => assert InLayer(v, 3, id);
        case DelegationPass => assert InLayer(v, 4, id);
        case InputPass => assert InLayer(v, 6, id);
        case ControlPass => assert InLayer(v, 7, id);
      }
    }
  }

  /** In the one layer that holds a node, it is where its record or its join says. */
  lemma LayerLeaf(v: View, i: nat, id: NodeId, parent: Option<NodeId>)
    requires Sound(v) && i < 8 && InLayer(v, i, id) && LayerPlaced(v, i, id, parent)
    ensures LeafPlaced(v, id, parent)
  {
    hide Sound, InCalls, InSilent, InTools, InPass, InOutputs, CallParent, Holder, ToolHolder, PassHolder;
    Exclusive(v, id);
    forall p, q | InPass(v, p, |v.canon|, id) && InPass(v, q, |v.canon|, id) ensures p == q { OnePass(v, id, p, q); }
  }

  /** Which nodes the leaves are, and where each is. */
  lemma LeafAt(v: View, base: Tree, id: NodeId)
    requires Sound(v) && ToolsKnown(v, v.tools) && Grouped(v.canon, v.byCall, v.calls) && Apart(v.lanes)
    requires Upper(base) && Level(id) >= 5
    ensures id in Leaves(v, base) <==> IsLeaf(v, id)
    ensures id in Leaves(v, base) ==> LeafPlaced(v, id, Leaves(v, base)[id])
    ensures InOutputs(v, |v.lanes|, id) ==>
              id in Leaves(v, base) && id in OutputMap(v, |v.lanes|)
                && Leaves(v, base)[id] == OutputMap(v, |v.lanes|)[id]
  {
    hide Sound, ToolsKnown, Grouped, Apart, Level, InLayer, LayerPlaced, LeafPlaced, IsLeaf, InOutputs, Layers, Leaves;
    assert id !in base;
    var m := Layers(v);
    forall i: nat | i < 8
      ensures (id in m[i] <==> InLayer(v, i, id)) && (id in m[i] && i != 5 ==> LayerPlaced(v, i, id, m[i][id]))
    {
      LayerIs(v, i, id);
    }
    forall i: nat, j: nat | i < j < 8 ensures id !in m[i] || id !in m[j] { LayersApart(v, i, j, id); }
    Layered(base, m, id);
    LeavesLayered(v, base);
    SomeLayer(v, id);
    forall i: nat | i < 8 && InLayer(v, i, id) ensures LeafPlaced(v, id, Leaves(v, base)[id]) {
      if i == 5 { OutputLayer(v, id, Leaves(v, base)[id]); } else { LayerLeaf(v, i, id, m[i][id]); }
    }
    OutputLayer(v, id, None);
  }

  lemma LeavesLayered(v: View, base: Tree)
    requires Sound(v) && ToolsKnown(v, v.tools)
    ensures var m := Layers(v); Leaves(v, base) == base + m[0] + m[1] + m[2] + m[3] + m[4] + m[5] + m[6] + m[7]
    ensures Layers(v)[5] == OutputMap(v, |v.lanes|)
  {
    hide Sound, ToolsKnown, CallMap, SilentMap, ToolMap, PassMap, OutputMap;
  }

  lemma OutputLayer(v: View, id: NodeId, parent: Option<NodeId>)
    requires Sound(v)
    ensures InLayer(v, 5, id) <==> InOutputs(v, |v.lanes|, id)
    ensures InLayer(v, 5, id) ==> LeafPlaced(v, id, parent)
  {
    hide Sound, InCalls, InSilent, InTools, InPass, InOutputs, CallParent, Holder, ToolHolder, PassHolder;
    Exclusive(v, id);
  }

  lemma CallsListed(v: View)
    requires Sound(v)
    ensures forall k :: 0 <= k < |v.calls| ==> v.calls[k] in v.byCall
  {
  }

  /** The leaves over the upper levels are the session's tree. */
  lemma LeavesAre(v: View, base: Tree)
    requires Sound(v) && ToolsKnown(v, v.tools) && Grouped(v.canon, v.byCall, v.calls) && Apart(v.lanes)
    requires Ready(v, base) && Upper(base)
    ensures Assembled(v, Leaves(v, base))
  {
    hide Sound, ToolsKnown, Grouped, Apart, Ready, Upper, Leaves, IsLeaf, LeafPlaced, Level, Rooted, OutputIs;
    LeavesAttach(v, base);
    var nodes := Leaves(v, base);
    forall id | Level(id) >= 5
      ensures (id in nodes <==> IsLeaf(v, id)) && (id in nodes ==> LeafPlaced(v, id, nodes[id]))
    {
      LeafAt(v, base, id);
    }
    forall j | 0 <= j < |v.lanes| ensures OutputIs(v, nodes, j) { OutputAt(v, base, j); }
  }

  lemma OutputAt(v: View, base: Tree, j: nat)
    requires Sound(v) && ToolsKnown(v, v.tools) && Grouped(v.canon, v.byCall, v.calls) && Apart(v.lanes)
    requires Upper(base) && j < |v.lanes|
    ensures OutputIs(v, Leaves(v, base), j)
  {
    hide Sound, ToolsKnown, Grouped, Apart, Upper, Leaves, IsLeaf, OutputRecord, OutputMap, Holder, LeafPlaced;
    RecordWithin(v, j);
    OutputsAre(v, |v.lanes|);
    assert OutputIs(v, OutputMap(v, |v.lanes|), j);
    LeafAt(v, base, Output(v.lanes[j].id));
    assert OutputRecord(v, v.lanes[j]).Some? ==> InOutputs(v, |v.lanes|, Output(v.lanes[j].id));
  }

  /** The leaves change nothing above them. */
  lemma UpperStays(v: View, base: Tree, main: nat, cuts: seq<Cut>, a: TalkState, windows: seq<nat>)
    requires Sound(v) && ToolsKnown(v, v.tools) && Grouped(v.canon, v.byCall, v.calls) && Apart(v.lanes)
    requires Staged(v.canon, v.lanes, main, cuts, base, v.epochAt, a) && UpperIs(v.lanes, cuts, a, windows, base)
    ensures Staged(v.canon, v.lanes, main, cuts, Leaves(v, base), v.epochAt, a)
    ensures UpperIs(v.lanes, cuts, a, windows, Leaves(v, base))
  {
    hide Sound, ToolsKnown, Grouped, Apart, Level, UpperOk, Leaves, CutUpTo, AllFit, AfterAll;
    var nodes := Leaves(v, base);
    forall id
      ensures Level(id) <= 4 ==> (id in nodes <==> id in base) && (id in base ==> id in nodes && nodes[id] == base[id])
    {
      if Level(id) <= 4 { NotWritten(v, base, id); }
    }
    forall id | Level(id) <= 4 ensures UpperOk(v.lanes, cuts, a, windows, nodes, id) {
      assert UpperOk(v.lanes, cuts, a, windows, base, id);
      SameNode(v.lanes, cuts, a, windows, base, nodes, id);
    }
    EpochsStay(v.canon, v.lanes, cuts, base, nodes, v.epochAt);
  }

  lemma SameNode(lanes: seq<Lane>, cuts: seq<Cut>, a: TalkState, windows: seq<nat>, base: Tree, nodes: Tree, id: NodeId)
    requires UpperOk(lanes, cuts, a, windows, base, id) && (id in nodes <==> id in base)
    requires (id in base ==> nodes[id] == base[id])
    ensures UpperOk(lanes, cuts, a, windows, nodes, id)
  {
    hide IsUpper, UpperParent;
  }

  lemma EpochsStay(canon: seq<Record>, lanes: seq<Lane>, cuts: seq<Cut>, base: Tree, nodes: Tree, epochAt: map<nat,
                   NodeId>)
    requires CutUpTo(canon, lanes, cuts, |lanes|, base, epochAt)
    requires forall id :: Level(id) <= 4 && id in base ==> id in nodes
    ensures CutUpTo(canon, lanes, cuts, |lanes|, nodes, epochAt)
  {
    hide CutOk, Held, InLanes;
  }

  /** What is above the leaves is in no layer of theirs. */
  lemma NotWritten(v: View, base: Tree, id: NodeId)
    requires Sound(v) && ToolsKnown(v, v.tools) && Grouped(v.canon, v.byCall, v.calls) && Apart(v.lanes)
    requires Level(id) <= 4
    ensures id in Leaves(v, base) <==> id in base
    ensures id in base ==> id in Leaves(v, base) && Leaves(v, base)[id] == base[id]
  {
    hide Sound, ToolsKnown, Grouped, Apart, Layers, Leaves, LayerPlaced, InLayer;
    var m := Layers(v);
    forall i: nat | i < 8 ensures id !in m[i] {
      LayerIs(v, i, id);
      LayerDeep(v, i, id);
    }
    LeavesLayered(v, base);
  }

  lemma LayerDeep(v: View, i: nat, id: NodeId)
    requires Sound(v) && i < 8
    ensures InLayer(v, i, id) ==> Level(id) >= 5
  {
    hide Sound;
  }

  lemma LeavesIs(v: View, base: Tree)
    requires Sound(v) && ToolsKnown(v, v.tools)
    ensures Leaves(v, base) == base + CallMap(v, v.calls) + SilentMap(v, |v.canon|) + ToolMap(v, v.tools)
              + PassMap(v, EpochPass, |v.canon|) + PassMap(v, DelegationPass, |v.canon|) + OutputMap(v, |v.lanes|)
              + PassMap(v, InputPass, |v.canon|) + PassMap(v, ControlPass, |v.canon|)
  {
  }

  /** What the stages found is sound, and the containers were written. */
  lemma ViewReady(v: View, base: Tree)
    requires Partitioned(v.canon, v.lanes, |v.canon|) && Grouped(v.canon, v.byCall, v.calls)
    requires Within(v.canon, Walk(v.lanes)) && Joined(v.byTool, v.tools, Items(v.canon, Walk(v.lanes)))
    requires UpperReady(v.canon, base, v.epochAt, v.container)
    ensures Sound(v) && ToolsKnown(v, v.tools) && Apart(v.lanes) && Ready(v, base)
  {
    hide Walk, Items, LaneOk, AllFragments, JoinIs, Carries, Rooted, Level;
    forall c | c in v.byCall
      ensures v.byCall[c] != [] && Within(v.canon, v.byCall[c])
    {
      FragmentsWithin(v.canon, c, v.byCall[c]);
    }
    forall k | 0 <= k < |v.lanes| ensures Within(v.canon, v.lanes[k].ats) { LaneAts(v.canon, v.lanes[k]); }
    forall t | t in v.byTool && v.byTool[t].use.Some? ensures v.byTool[t].use.value.at < |v.canon| {
      UseWithin(v.canon, Walk(v.lanes), v.byTool[t], t);
    }
  }

  lemma FragmentsWithin(canon: seq<Record>, c: nat, f: seq<nat>)
    requires AllFragments(canon, c, f)
    ensures f != [] && Within(canon, f)
  {
    forall k | 0 <= k < |f| ensures f[k] < |canon| { assert f[k] in f; }
  }

  lemma UseWithin(canon: seq<Record>, ats: seq<nat>, t: ToolCall, tool: nat)
    requires Within(canon, ats) && JoinIs(t, Items(canon, ats), tool) && t.use.Some?
    ensures t.use.value.at < |canon|
  {
    hide Items, Spots;
    ItemsWithin(canon, ats);
    SpotsWithin(Items(canon, ats), ToolUse, tool, |canon|);
  }

  lemma {:induction false} ItemsWithin(canon: seq<Record>, ats: seq<nat>)
    requires Within(canon, ats)
    ensures forall k :: 0 <= k < |Items(canon, ats)| ==> Items(canon, ats)[k].at < |canon|
  {
    if ats != [] { ItemsWithin(canon, ats[..|ats|-1]); }
  }

  lemma {:induction false} SpotsWithin(items: seq<Item>, kind: BlockKind, tool: nat, n: nat)
    requires forall k :: 0 <= k < |items| ==> items[k].at < n
    ensures forall k :: 0 <= k < |Spots(items, kind, tool)| ==> Spots(items, kind, tool)[k].at < n
  {
    if items != [] { SpotsWithin(items[..|items|-1], kind, tool, n); }
  }

  /** Calls are written for the calls there are, and by nothing else. */
  lemma NoOtherCalls(v: View, base: Tree)
    requires Sound(v) && Grouped(v.canon, v.byCall, v.calls) && Upper(base)
    ensures forall c :: Call(c) in base + CallMap(v, v.calls) + SilentMap(v, |v.canon|) <==> c in v.byCall
  {
    hide Grouped, CallMap, SilentMap, Sound;
    CallsListed(v);
    CallsAre(v, v.calls);
    SilentIs(v, |v.canon|);
    forall c ensures c in v.calls <==> c in v.byCall { CallIsListed(v, c); }
    forall c ensures Call(c) !in base { assert Level(Call(c)) == 5; }
  }

  lemma CallIsListed(v: View, c: nat)
    requires Sound(v)
    ensures c in v.calls <==> c in v.byCall
  {
  }

  lemma StepsOnly(v: View, id: NodeId)
    requires Sound(v) && id.Step?
    ensures !InTools(v, v.tools, id) && !InOutputs(v, |v.lanes|, id)
  {
  }

  lemma CallOf(v: View, i: nat)
    requires Grouped(v.canon, v.byCall, v.calls) && i < |v.canon|
    ensures IsFragment(v.canon[i]) ==> v.canon[i].call in v.calls
  {
  }
}
