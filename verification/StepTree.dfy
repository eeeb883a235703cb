/**
 The leaves of the tree: calls, what was said in them, tools, and the steps that
 single records make, each under the innermost node that holds its record.
 */
module StepTree {

  import opened Epochs
  import opened Streams
  import opened Calls
  import opened Tools
  import opened Talks
  import opened Containers
  import opened Placement

  /** What the leaves are written from. */
  datatype View = View(canon: seq<Record>, lanes: seq<Lane>, main: nat, container: map<nat, NodeId>,
                       epochAt: map<nat, NodeId>,
                       byCall: map<nat, seq<nat>>, calls: seq<nat>, byTool: map<nat, ToolCall>, tools: seq<nat>,
                       cards: set<nat>)

  /** The node that contains a record. */
  function Holder(v: View, at: nat): NodeId
    requires at < |v.canon|
  {
    if at in v.container then v.container[at]
    else if v.canon[at].entry.stream != 0 then Stream(v.canon[at].entry.stream)
    else Session
  }

  /** The epoch a record falls in, or its stream; a record of no stream has neither. */
  function EpochHolder(v: View, at: nat): Option<NodeId>
    requires at < |v.canon|
  {
    if at in v.epochAt then Some(v.epochAt[at])
    else if v.canon[at].entry.stream != 0 then Some(Stream(v.canon[at].entry.stream))
    else None
  }

  /** The indexes in the view are records, and every call has fragments. */
  ghost predicate Sound(v: View) {
    && (forall c :: c in v.byCall ==> v.byCall[c] != [] && Within(v.canon, v.byCall[c]))
    && (forall t :: t in v.byTool && v.byTool[t].use.Some? ==> v.byTool[t].use.value.at < |v.canon|)
    && (forall c :: c in v.calls <==> c in v.byCall)
    && (forall t :: t in v.tools <==> t in v.byTool)
    && (forall k :: 0 <= k < |v.lanes| ==> Within(v.canon, v.lanes[k].ats))
  }

  // ---------------------------------------------------------------- what was said

  function SaidStep(at: nat, b: Block): Option<NodeId> {
    match b.kind
    case Text => Some(Step(Message, at, b.ord))
    case Thinking => Some(Step(Thought, at, b.ord))
    case _ => None
  }

  function SaidMap(at: nat, blocks: seq<Block>, parent: NodeId): Tree {
    if blocks == [] then map[]
    else
      var n := |blocks| - 1;
      var before := SaidMap(at, blocks[..n], parent);
      match SaidStep(at, blocks[n]) { case Some(id) => before + map[id := Some(parent)] case None => before }
  }

  /** Whether a node is a text or a thought of this record. */
  ghost predicate Said(at: nat, blocks: seq<Block>, id: NodeId) {
    exists b :: b in blocks && SaidStep(at, b) == Some(id)
  }

  lemma {:induction false} SaidIs(at: nat, blocks: seq<Block>, parent: NodeId)
    ensures forall id :: id in SaidMap(at, blocks, parent) <==> Said(at, blocks, id)
    ensures forall id :: id in SaidMap(at, blocks, parent) ==> SaidMap(at, blocks, parent)[id] == Some(parent)
  {
    if blocks != [] {
      var n := |blocks| - 1;
      SaidIs(at, blocks[..n], parent);
      assert blocks == blocks[..n] + [blocks[n]];
      forall id ensures Said(at, blocks, id) <==> Said(at, blocks[..n], id) || SaidStep(at, blocks[n]) == Some(id) {
        assert blocks[n] in blocks && forall b :: b in blocks[..n] ==> b in blocks;
        assert forall b :: b in blocks ==> b in blocks[..n] || b == blocks[n];
      }
    }
  }

  // ---------------------------------------------------------------- the writer

  class Writer {
    var nodes: Tree

    constructor (base: Tree)
      ensures nodes == base
    {
      nodes := base;
    }

    method WriteSaid(at: nat, blocks: seq<Block>, parent: NodeId)
      modifies this
      ensures nodes == old(nodes) + SaidMap(at, blocks, parent)
    {
      WriteNothing(nodes);
      ghost var base := nodes;
      for k := 0 to |blocks|
        invariant nodes == base + SaidMap(at, blocks[..k], parent)
      {
        assert blocks[..k+1][..k] == blocks[..k];
        match SaidStep(at, blocks[k]) {
          case Some(id) =>
            WriteOne(base, SaidMap(at, blocks[..k], parent), id, Some(parent));
            nodes := nodes[id := Some(parent)];
          case None =>
        }
      }
      assert blocks[..|blocks|] == blocks;
    }

    /** Writes one call, its card if it has one, and what its fragments say. */
    method WriteCall(v: View, c: nat)
      requires Sound(v) && c in v.byCall
      modifies this
      ensures nodes == old(nodes) + CallNodes(v, c)
    {
      hide FragmentMap, SaidMap;
      ghost var base := nodes;
      var parent := Holder(v, v.byCall[c][0]);
      nodes := nodes[Call(c) := Some(parent)];
      if c in v.cards { nodes := nodes[HistoryCard(c) := Some(parent)]; }
      assert nodes == base + CallHead(v, c);
      WriteTogether(base, CallHead(v, c), FragmentMap(v, c, v.byCall[c]));
      WriteFragments(v, c);
    }

    method WriteFragments(v: View, c: nat)
      requires Sound(v) && c in v.byCall
      modifies this
      ensures nodes == old(nodes) + FragmentMap(v, c, v.byCall[c])
    {
      hide SaidMap;
      ghost var base := nodes;
      var fs := v.byCall[c];
      WriteNothing(base);
      for k := 0 to |fs|
        invariant nodes == base + FragmentMap(v, c, fs[..k])
      {
        assert fs[..k+1][..k] == fs[..k];
        WriteTogether(base, FragmentMap(v, c, fs[..k]), SaidMap(fs[k], v.canon[fs[k]].blocks, Call(c)));
        WriteSaid(fs[k], v.canon[fs[k]].blocks, Call(c));
      }
      assert fs[..|fs|] == fs;
    }

    method WriteCalls(v: View)
      requires Sound(v)
      modifies this
      ensures nodes == old(nodes) + CallMap(v, v.calls)
    {
      hide CallNodes;
      ghost var base := nodes;
      WriteNothing(base);
      for k := 0 to |v.calls|
        invariant nodes == base + CallMap(v, v.calls[..k])
      {
        assert v.calls[..k+1][..k] == v.calls[..k];
        CallKnown(v, k);
        WriteTogether(base, CallMap(v, v.calls[..k]), CallNodes(v, v.calls[k]));
        WriteCall(v, v.calls[k]);
      }
      assert v.calls[..|v.calls|] == v.calls;
    }

    /** Writes what agent records that name no call say. */
    method WriteSilent(v: View)
      modifies this
      ensures nodes == old(nodes) + SilentMap(v, |v.canon|)
    {
      hide SaidMap, Holder;
      ghost var base := nodes;
      WriteNothing(base);
      for i := 0 to |v.canon|
        invariant nodes == base + SilentMap(v, i)
      {
        var r := v.canon[i];
        if !r.kind.Assistant? || r.call != 0 { continue; }
        WriteTogether(base, SilentMap(v, i), SaidMap(i, r.blocks, Holder(v, i)));
        WriteSaid(i, r.blocks, Holder(v, i));
      }
    }

    /** Writes the tool uses, each in its call where the call was written, else where its record is. */
    method WriteTools(v: View)
      requires Sound(v) && forall c :: Call(c) in nodes <==> c in v.byCall
      modifies this
      ensures ToolsKnown(v, v.tools) && nodes == old(nodes) + ToolMap(v, v.tools)
    {
      hide Holder, Sound, ToolMap, ToolsKnown;
      ghost var base := nodes;
      WriteNothing(base);
      NoTools(v);
      for k := 0 to |v.tools|
        invariant ToolsKnown(v, v.tools[..k]) && nodes == base + ToolMap(v, v.tools[..k])
        invariant forall c :: Call(c) in nodes <==> c in v.byCall
      {
        var t := v.tools[k];
        NextTool(v, k);
        var use := v.byTool[t].use;
        if use.None? { continue; }
        var parent := Call(v.canon[use.value.at].call);
        if parent !in nodes { parent := Holder(v, use.value.at); }
        WriteOne(base, ToolMap(v, v.tools[..k]), Tool(t), Some(parent));
        nodes := nodes[Tool(t) := Some(parent)];
      }
      assert v.tools[..|v.tools|] == v.tools;
    }

    /** Writes the one step a record makes in each of these passes. */
    method WritePass(v: View, pass: Pass)
      modifies this
      ensures nodes == old(nodes) + PassMap(v, pass, |v.canon|)
    {
      hide Holder, EpochHolder, PassMap, PassHolder;
      ghost var base := nodes;
      WriteNothing(base);
      NoPass(v, pass);
      for i := 0 to |v.canon|
        invariant nodes == base + PassMap(v, pass, i)
      {
        NextPass(v, pass, i);
        match StepIn(pass, v.canon[i]) {
          case Some(name) =>
            WriteOne(base, PassMap(v, pass, i), Step(name, i, 0), PassHolder(v, pass, i));
            nodes := nodes[Step(name, i, 0) := PassHolder(v, pass, i)];
          case None =>
        }
      }
    }

    /** Writes the output of every child stream that has one. */
    method WriteOutputs(v: View)
      requires Sound(v)
      modifies this
      ensures nodes == old(nodes) + OutputMap(v, |v.lanes|)
    {
      hide Holder, OutputMap, OutputRecord, IsAuxiliary, Within;
      ghost var base := nodes;
      WriteNothing(base);
      NoOutputs(v);
      for k := 0 to |v.lanes|
        invariant nodes == base + OutputMap(v, k)
      {
        NextOutput(v, k);
        var lane := v.lanes[k];
        if lane.id == v.main || IsAuxiliary(v.canon, lane.id) { continue; }
        var last := LastAssistant(v.canon, lane.ats);
        var returned := FirstReturned(v.canon, lane.id, 0);
        var primary := if last.Some? then last else returned;
        if primary.None? { continue; }
        WriteOne(base, OutputMap(v, k), Output(lane.id), Some(Holder(v, primary.value)));
        nodes := nodes[Output(lane.id) := Some(Holder(v, primary.value))];
      }
    }
  }

  // ---------------------------------------------------------------- what is written

  function CallHead(v: View, c: nat): Tree
    requires Sound(v) && c in v.byCall
  {
    var parent := Holder(v, v.byCall[c][0]);
    map[Call(c) := Some(parent)] + if c in v.cards then map[HistoryCard(c) := Some(parent)] else map[]
  }

  function FragmentMap(v: View, c: nat, fs: seq<nat>): Tree
    requires Within(v.canon, fs)
  {
    if fs == [] then map[]
    else
      var n := |fs| - 1;
      FragmentMap(v, c, fs[..n]) + SaidMap(fs[n], v.canon[fs[n]].blocks, Call(c))
  }

  function CallNodes(v: View, c: nat): Tree
    requires Sound(v) && c in v.byCall
  {
    CallHead(v, c) + FragmentMap(v, c, v.byCall[c])
  }

  function CallMap(v: View, calls: seq<nat>): Tree
    requires Sound(v) && forall k :: 0 <= k < |calls| ==> calls[k] in v.byCall
  {
    if calls == [] then map[]
    else CallMap(v, calls[..|calls|-1]) + CallNodes(v, calls[|calls|-1])
  }

  lemma CallKnown(v: View, k: nat)
    requires Sound(v) && k < |v.calls|
    ensures v.calls[k] in v.byCall
  {
  }

  function SilentMap(v: View, n: nat): Tree
    requires n <= |v.canon|
  {
    if n == 0 then map[]
    else
      var r := v.canon[n-1];
      SilentMap(v, n - 1) + if r.kind.Assistant? && r.call == 0 then SaidMap(n - 1, r.blocks, Holder(v, n - 1))
        else map[]
  }

  /** A tool use is in the call its record names, when that is a call, else in the record's own container. */
  function ToolHolder(v: View, at: nat): NodeId
    requires at < |v.canon|
  {
    if v.canon[at].call in v.byCall then Call(v.canon[at].call) else Holder(v, at)
  }

  ghost predicate ToolsKnown(v: View, tools: seq<nat>) {
    forall k :: 0 <= k < |tools| ==> tools[k] in v.byTool
  }

  ghost function ToolMap(v: View, tools: seq<nat>): Tree
    requires Sound(v) && ToolsKnown(v, tools)
  {
    if tools == [] then map[]
    else
      var t := tools[|tools|-1];
      ToolMap(v, tools[..|tools|-1]) +
      match v.byTool[t].use { case Some(spot) => map[Tool(t) := Some(ToolHolder(v, spot.at))] case None => map[] }
  }

  lemma NoTools(v: View)
    requires Sound(v)
    ensures ToolsKnown(v, v.tools[..0]) && ToolMap(v, v.tools[..0]) == map[]
    ensures ToolsKnown(v, v.tools)
  {
  }

  lemma NextTool(v: View, k: nat)
    requires Sound(v) && k < |v.tools| && ToolsKnown(v, v.tools[..k])
    ensures var t := v.tools[k];
      && t in v.byTool && ToolsKnown(v, v.tools[..k+1])
      && match v.byTool[t].use {
           case Some(spot) => spot.at < |v.canon| && ToolMap(v, v.tools[..k+1]) == ToolMap(v, v.tools[..k])
             + map[Tool(t) := Some(ToolHolder(v, spot.at))]
           case None => ToolMap(v, v.tools[..k+1]) == ToolMap(v, v.tools[..k])
         }
  {
    hide Holder, ToolHolder;
    assert v.tools[..k+1][..k] == v.tools[..k];
  }

  /** The passes over all records, each of which makes of a record at most one step. */
  datatype Pass = EpochPass | DelegationPass | InputPass | ControlPass

  function StepIn(pass: Pass, r: Record): Option<StepName> {
    match pass
    case EpochPass => if r.entry.reset then Some(Boundary) else if r.entry.summary then Some(Summary) else None
    case DelegationPass =>
      if r.launchAck then Some(LaunchAck) else if r.entry.trigger.Notification? then Some(Notified) else None
    case InputPass => if r.input then Some(Input) else if r.injection then Some(Injected) else None
    case ControlPass =>
      if r.error then Some(ErrorStep)
      else if r.turnDuration then Some(Turn)
      else if r.command then Some(Command)
      else if r.notice then Some(Notice)
      else None
  }

  function PassHolder(v: View, pass: Pass, at: nat): Option<NodeId>
    requires at < |v.canon|
  {
    if pass.EpochPass? then EpochHolder(v, at) else Some(Holder(v, at))
  }

  function PassMap(v: View, pass: Pass, n: nat): Tree
    requires n <= |v.canon|
  {
    if n == 0 then map[]
    else
      PassMap(v, pass, n - 1) +
      match StepIn(pass, v.canon[n-1]) {
        case Some(name) => map[Step(name, n - 1, 0) := PassHolder(v, pass, n - 1)]
        case None => map[]
      }
  }

  lemma NoPass(v: View, pass: Pass)
    ensures PassMap(v, pass, 0) == map[]
  {
  }

  lemma NextPass(v: View, pass: Pass, i: nat)
    requires i < |v.canon|
    ensures PassMap(v, pass, i + 1) ==
      match StepIn(pass, v.canon[i]) {
        case Some(name) => PassMap(v, pass, i) + map[Step(name, i, 0) := PassHolder(v, pass, i)]
        case None => PassMap(v, pass, i)
      }
  {
    hide PassHolder;
  }

  /** A stream is a tool's own model call when a record opening it says so and none says otherwise. */
  predicate IsAuxiliary(canon: seq<Record>, id: nat) {
    (exists r :: r in canon && r.child == id && r.auxiliary) && !exists r :: r in canon && r.child == id && !r.auxiliary
  }

  /** The last of these records that is the agent's own. */
  function LastAssistant(canon: seq<Record>, ats: seq<nat>): (at: Option<nat>)
    requires Within(canon, ats)
    ensures at.Some? ==>
              at.value in ats && at.value < |canon| && canon[at.value].kind.Assistant? && !canon[at.value].synthetic
    ensures at.None? ==> forall i: nat :: i in ats && i < |canon| && canon[i].kind.Assistant? ==> canon[i].synthetic
  {
    if ats == [] then None
    else
      var n := |ats| - 1;
      assert ats == ats[..n] + [ats[n]];
      if canon[ats[n]].kind.Assistant? && !canon[ats[n]].synthetic then Some(ats[n])
      else LastAssistant(canon, ats[..n])
  }

  predicate Returns(r: Record, id: nat) {
    r.kind.Journal? && r.childResult && r.child == id
  }

  /** The first journal record, from here on, of what this child returned. */
  function FirstReturned(canon: seq<Record>, id: nat, from: nat): (at: Option<nat>)
    requires from <= |canon|
    ensures at.Some? ==>
              from <= at.value < |canon| && Returns(canon[at.value], id) && forall i :: from <= i < at.value ==>
                !Returns(canon[i], id)
    ensures at.None? ==> forall i :: from <= i < |canon| ==> !Returns(canon[i], id)
    decreases |canon| - from
  {
    if from == |canon| then None
    else if Returns(canon[from], id) then Some(from)
    else FirstReturned(canon, id, from + 1)
  }

  /** The record a child's output is: its last own response, or what it returned where it has none. */
  function OutputRecord(v: View, lane: Lane): (at: Option<nat>)
    requires Within(v.canon, lane.ats)
    ensures at.Some? ==> at.value < |v.canon|
  {
    if lane.id == v.main || IsAuxiliary(v.canon, lane.id) then None
    else
      var last := LastAssistant(v.canon, lane.ats);
      if last.Some? then last else FirstReturned(v.canon, lane.id, 0)
  }

  function OutputMap(v: View, k: nat): Tree
    requires Sound(v) && k <= |v.lanes|
  {
    if k == 0 then map[]
    else
      var lane := v.lanes[k-1];
      OutputMap(v, k - 1) +
      match OutputRecord(v, lane) {
        case Some(at) => map[Output(lane.id) := Some(Holder(v, at))]
        case None => map[]
      }
  }

  lemma NoOutputs(v: View)
    requires Sound(v)
    ensures OutputMap(v, 0) == map[]
  {
  }

  lemma NextOutput(v: View, k: nat)
    requires Sound(v) && k < |v.lanes|
    ensures var lane := v.lanes[k];
      && Within(v.canon, lane.ats)
      && OutputRecord(v, lane) == (if lane.id == v.main || IsAuxiliary(v.canon, lane.id) then None
                                   else if LastAssistant(v.canon, lane.ats).Some? then LastAssistant(v.canon, lane.ats)
                                   else FirstReturned(v.canon, lane.id, 0))
      && match OutputRecord(v, lane) {
           case Some(at) => OutputMap(v, k + 1) == OutputMap(v, k) + map[Output(lane.id) := Some(Holder(v, at))]
           case None => OutputMap(v, k + 1) == OutputMap(v, k)
         }
  {
    hide Holder;
  }
}
