/**
 The whole containment tree: every node has a parent that was written, all of it
 hangs under the session, and every leaf is where its record is.
 */
module Assembly {

  import opened Epochs
  import opened Streams
  import opened Calls
  import opened Tools
  import opened Talks
  import opened Containers
  import opened Placement
  import opened StepTree

  // ---------------------------------------------------------------- what each pass writes

  /** A call, its card, or what one of its fragments says. */
  ghost predicate InCalls(v: View, calls: seq<nat>, id: NodeId) {
    match id
    case Call(c) => c in calls
    case HistoryCard(c) => c in calls && c in v.cards
    case Step(_, at, _) => at < |v.canon| && IsFragment(v.canon[at]) && v.canon[at].call in calls
      && Said(at, v.canon[at].blocks, id)
    case _ => false
  }

  /** Where what is written for calls is: a call with its first record, all it says in the call. */
  ghost function CallParent(v: View, id: NodeId): NodeId
    requires Sound(v) && InCalls(v, v.calls, id)
  {
    match id
    case Call(c) => Holder(v, v.byCall[c][0])
    case HistoryCard(c) => Holder(v, v.byCall[c][0])
    case Step(_, at, _) => Call(v.canon[at].call)
  }

  lemma {:induction false} FragmentsAre(v: View, c: nat, fs: seq<nat>)
    requires Within(v.canon, fs)
    ensures forall id :: id in FragmentMap(v, c, fs) <==>
              id.Step? && id.at in fs && id.at < |v.canon| && Said(id.at, v.canon[id.at].blocks, id)
    ensures forall id :: id in FragmentMap(v, c, fs) ==> FragmentMap(v, c, fs)[id] == Some(Call(c))
  {
    hide Said, SaidMap;
    if fs != [] {
      var n := |fs| - 1;
      FragmentsAre(v, c, fs[..n]);
      assert fs == fs[..n] + [fs[n]];
      SaidIs(fs[n], v.canon[fs[n]].blocks, Call(c));
      SaidAt(fs[n], v.canon[fs[n]].blocks);
    }
  }

  /** What a record says names it. */
  lemma SaidAt(at: nat, blocks: seq<Block>)
    ensures forall id :: Said(at, blocks, id) ==> id.Step? && id.at == at && (id.name.Message? || id.name.Thought?)
  {
  }

  lemma OneCallIs(v: View, c: nat)
    requires Sound(v) && Grouped(v.canon, v.byCall, v.calls) && c in v.byCall
    ensures forall id :: id in CallNodes(v, c) <==> InCalls(v, [c], id)
    ensures forall id :: id in CallNodes(v, c) ==>
              InCalls(v, v.calls, id) && CallNodes(v, c)[id] == Some(CallParent(v, id))
  {
    hide Said, SaidMap, FragmentMap, Holder, Sound, Grouped, Distinct, Within, InCalls, CallParent, CallHead;
    FragmentsOf(v, c);
    HeadIs(v, c);
    FragmentsAre(v, c, v.byCall[c]);
    forall id ensures id in CallNodes(v, c) <==> InCalls(v, [c], id) { WhichIs(v, c, id); }
    forall id | id in CallNodes(v, c)
      ensures InCalls(v, v.calls, id) && CallNodes(v, c)[id] == Some(CallParent(v, id))
    {
      WhichIs(v, c, id);
    }
  }

  lemma HeadIs(v: View, c: nat)
    requires Sound(v) && c in v.byCall
    ensures forall id :: id in CallHead(v, c) <==> id == Call(c) || (c in v.cards && id == HistoryCard(c))
    ensures forall id :: id in CallHead(v, c) ==> CallHead(v, c)[id] == Some(Holder(v, v.byCall[c][0]))
  {
    hide Holder;
  }

  /** A node of one call: its own, its card, or what a fragment of it says. */
  lemma WhichIs(v: View, c: nat, id: NodeId)
    requires Sound(v) && c in v.byCall && c in v.calls
    requires forall f: nat :: f in v.byCall[c] <==> f < |v.canon| && IsFragment(v.canon[f]) && v.canon[f].call == c
    ensures InCalls(v, [c], id) <==>
              id == Call(c) || (c in v.cards && id == HistoryCard(c))
                || (id.Step? && id.at in v.byCall[c] && id.at < |v.canon| && Said(id.at, v.canon[id.at].blocks, id))
    ensures InCalls(v, [c], id) ==>
              InCalls(v, v.calls, id) && CallParent(v, id) == if id.Step? then Call(c) else Holder(v, v.byCall[c][0])
  {
    hide Said, Holder;
  }

  lemma FragmentsOf(v: View, c: nat)
    requires Sound(v) && Grouped(v.canon, v.byCall, v.calls) && c in v.byCall
    ensures c in v.calls && Within(v.canon, v.byCall[c])
    ensures forall f: nat :: f in v.byCall[c] <==> f < |v.canon| && IsFragment(v.canon[f]) && v.canon[f].call == c
  {
    assert AllFragments(v.canon, c, v.byCall[c]);
  }

  lemma {:induction false} CallsAre(v: View, calls: seq<nat>)
    requires Sound(v) && Grouped(v.canon, v.byCall, v.calls) && forall k :: 0 <= k < |calls| ==> calls[k] in v.byCall
    ensures forall id :: id in CallMap(v, calls) <==> InCalls(v, calls, id)
    ensures forall id :: id in CallMap(v, calls) ==>
              InCalls(v, v.calls, id) && CallMap(v, calls)[id] == Some(CallParent(v, id))
  {
    hide CallNodes, Said, Grouped, CallParent;
    if calls != [] {
      var n := |calls| - 1;
      assert calls == calls[..n] + [calls[n]];
      CallsAre(v, calls[..n]);
      OneCallIs(v, calls[n]);
    }
  }

  /** Something said by an agent record that names no call. */
  ghost predicate InSilent(v: View, n: nat, id: NodeId)
    requires n <= |v.canon|
  {
    && id.Step? && id.at < n && v.canon[id.at].kind.Assistant? && v.canon[id.at].call == 0
    && Said(id.at, v.canon[id.at].blocks, id)
  }

  lemma {:induction false} SilentIs(v: View, n: nat)
    requires n <= |v.canon|
    ensures forall id :: id in SilentMap(v, n) <==> InSilent(v, n, id)
    ensures forall id :: id in SilentMap(v, n) ==> InSilent(v, n, id) && SilentMap(v, n)[id] == Some(Holder(v, id.at))
  {
    hide Said, SaidMap, Holder;
    if n > 0 {
      var m := n - 1;
      SilentIs(v, m);
      SaidIs(m, v.canon[m].blocks, Holder(v, m));
      SaidAt(m, v.canon[m].blocks);
    }
  }

  ghost predicate InTools(v: View, tools: seq<nat>, id: NodeId) {
    id.Tool? && id.tool in tools && id.tool in v.byTool && v.byTool[id.tool].use.Some?
  }

  lemma {:induction false} ToolsAre(v: View, tools: seq<nat>)
    requires Sound(v) && ToolsKnown(v, tools)
    ensures forall id :: id in ToolMap(v, tools) <==> InTools(v, tools, id)
    ensures forall id :: id in ToolMap(v, tools) ==>
              InTools(v, tools, id) && ToolMap(v, tools)[id] == Some(ToolHolder(v, v.byTool[id.tool].use.value.at))
  {
    hide ToolHolder;
    if tools != [] {
      var n := |tools| - 1;
      assert tools == tools[..n] + [tools[n]];
      ToolsAre(v, tools[..n]);
    }
  }

  /** The step of this pass that a record makes. */
  ghost predicate InPass(v: View, pass: Pass, n: nat, id: NodeId)
    requires n <= |v.canon|
  {
    id.Step? && id.at < n && id.block == 0 && StepIn(pass, v.canon[id.at]) == Some(id.name)
  }

  lemma {:induction false} PassIs(v: View, pass: Pass, n: nat)
    requires n <= |v.canon|
    ensures forall id :: id in PassMap(v, pass, n) <==> InPass(v, pass, n, id)
    ensures forall id :: id in PassMap(v, pass, n) ==>
              InPass(v, pass, n, id) && PassMap(v, pass, n)[id] == PassHolder(v, pass, id.at)
  {
    hide PassHolder, StepIn;
    if n > 0 { PassIs(v, pass, n - 1); }
  }

  /** The output of one of the first k streams. */
  ghost predicate InOutputs(v: View, k: nat, id: NodeId)
    requires Sound(v) && k <= |v.lanes|
  {
    id.Output? && exists j :: 0 <= j < k && v.lanes[j].id == id.stream && OutputRecord(v, v.lanes[j]).Some?
  }

  lemma {:induction false} OutputsAre(v: View, k: nat)
    requires Sound(v) && k <= |v.lanes| && Apart(v.lanes)
    ensures forall id :: id in OutputMap(v, k) <==> InOutputs(v, k, id)
    ensures forall j :: 0 <= j < k ==> OutputIs(v, OutputMap(v, k), j)
  {
    hide Holder, OutputRecord, OutputMap, Within, LastAssistant, IsAuxiliary, Sound;
    if k == 0 {
      NoOutputs(v);
    } else {
      var m := k - 1;
      OutputsAre(v, m);
      NextOutput(v, m);
      RecordWithin(v, m);
      forall id
        ensures InOutputs(v, k, id) <==>
                  InOutputs(v, m, id) || (id == Output(v.lanes[m].id) && OutputRecord(v, v.lanes[m]).Some?)
      {
        OutputsNext(v, m, id);
      }
      forall j | 0 <= j < k ensures OutputIs(v, OutputMap(v, k), j) {
        assert j < m ==> OutputIs(v, OutputMap(v, m), j);
      }
    }
  }

  ghost predicate Apart(lanes: seq<Lane>) {
    forall i, j :: 0 <= i < j < |lanes| ==> lanes[i].id != lanes[j].id
  }

  /** The output of stream j, if it has one, is where its record is. */
  ghost predicate OutputIs(v: View, m: Tree, j: nat)
    requires Sound(v) && j < |v.lanes|
  {
    var at := OutputRecord(v, v.lanes[j]);
    at.Some? ==> Output(v.lanes[j].id) in m && m[Output(v.lanes[j].id)] == Some(Holder(v, at.value))
  }

  lemma OutputsNext(v: View, m: nat, id: NodeId)
    requires Sound(v) && m < |v.lanes|
    ensures InOutputs(v, m + 1, id) <==>
              InOutputs(v, m, id) || (id == Output(v.lanes[m].id) && OutputRecord(v, v.lanes[m]).Some?)
  {
    hide OutputRecord;
  }

  lemma RecordWithin(v: View, k: nat)
    requires Sound(v) && k < |v.lanes|
    ensures Within(v.canon, v.lanes[k].ats)
    ensures OutputRecord(v, v.lanes[k]).Some? ==> OutputRecord(v, v.lanes[k]).value < |v.canon|
  {
  }

  // ---------------------------------------------------------------- the tree stays rooted

  /** Every container was written. */
  ghost predicate Ready(v: View, nodes: Tree) {
    && Rooted(v.canon, nodes)
    && (forall at :: at in v.container ==> v.container[at] in nodes && Level(v.container[at]) <= 4)
    && (forall at :: at in v.epochAt ==> v.epochAt[at] in nodes && Level(v.epochAt[at]) <= 4)
    && (forall i :: 0 <= i < |v.canon| && v.canon[i].entry.stream != 0 ==> Stream(v.canon[i].entry.stream) in nodes)
  }

  lemma HolderReady(v: View, nodes: Tree, at: nat)
    requires Ready(v, nodes) && at < |v.canon|
    ensures Holder(v, at) in nodes && Level(Holder(v, at)) <= 4
    ensures EpochHolder(v, at).Some? ==> EpochHolder(v, at).value in nodes && Level(EpochHolder(v, at).value) <= 4
    ensures EpochHolder(v, at).None? ==> v.canon[at].entry.stream == 0
  {
    assert Session in nodes;
  }

  /** A leaf under a container, or under a call. */
  ghost predicate Fits(v: View, nodes: Tree, id: NodeId, parent: Option<NodeId>) {
    match parent
    case None => Loose(v.canon, id)
    case Some(p) => p in nodes && ((Level(p) <= 4 && Level(id) >= 5) || (p.Call? && Level(id) == 6))
  }

  lemma ReadyMore(v: View, nodes: Tree, m: Tree)
    requires Ready(v, nodes) && forall id :: id in m ==> Fits(v, nodes + m, id, m[id])
    ensures Ready(v, nodes + m)
  {
    hide Rooted, Level;
    forall id | id in m ensures id != Session && Attached(v.canon, nodes + m, id, m[id]) {
      FitsAttached(v, nodes + m, id, m[id]);
    }
    RootedMore(v.canon, nodes, m);
  }

  lemma FitsAttached(v: View, nodes: Tree, id: NodeId, parent: Option<NodeId>)
    requires Fits(v, nodes, id, parent)
    ensures id != Session && Attached(v.canon, nodes, id, parent)
  {
  }

  lemma CallsReady(v: View, nodes: Tree)
    requires Ready(v, nodes) && Sound(v) && Grouped(v.canon, v.byCall, v.calls)
    ensures Ready(v, nodes + CallMap(v, v.calls)) && forall c :: c in v.byCall ==> Call(c) in CallMap(v, v.calls)
  {
    hide Ready, Holder, CallMap, Grouped, Said;
    CallsAre(v, v.calls);
    var m := CallMap(v, v.calls);
    forall id | id in m ensures Fits(v, nodes + m, id, m[id]) {
      match id {
        case Call(c) => CallFirst(v, c); HolderReady(v, nodes, v.byCall[c][0]);
        case HistoryCard(c) => CallFirst(v, c); HolderReady(v, nodes, v.byCall[c][0]);
        case Step(_, at, _) => assert InCalls(v, v.calls, Call(v.canon[at].call));
      }
    }
    forall c | c in v.byCall ensures Call(c) in m { assert InCalls(v, v.calls, Call(c)); }
    ReadyMore(v, nodes, m);
  }

  lemma CallFirst(v: View, c: nat)
    requires Sound(v) && c in v.calls
    ensures c in v.byCall && v.byCall[c] != [] && v.byCall[c][0] < |v.canon|
  {
  }

  lemma SilentReady(v: View, nodes: Tree)
    requires Ready(v, nodes)
    ensures Ready(v, nodes + SilentMap(v, |v.canon|))
  {
    hide Ready, Holder, SilentMap, Said;
    SilentIs(v, |v.canon|);
    var m := SilentMap(v, |v.canon|);
    forall id | id in m ensures Fits(v, nodes + m, id, m[id]) { HolderReady(v, nodes, id.at); }
    ReadyMore(v, nodes, m);
  }

  lemma ToolsReady(v: View, nodes: Tree)
    requires Ready(v, nodes) && Sound(v) && ToolsKnown(v, v.tools) && forall c :: c in v.byCall ==> Call(c) in nodes
    ensures Ready(v, nodes + ToolMap(v, v.tools))
  {
    hide Ready, Holder, ToolMap;
    ToolsAre(v, v.tools);
    var m := ToolMap(v, v.tools);
    forall id | id in m ensures Fits(v, nodes + m, id, m[id]) { HolderReady(v, nodes, v.byTool[id.tool].use.value.at); }
    ReadyMore(v, nodes, m);
  }

  lemma PassReady(v: View, nodes: Tree, pass: Pass)
    requires Ready(v, nodes)
    ensures Ready(v, nodes + PassMap(v, pass, |v.canon|))
  {
    hide Ready, Holder, EpochHolder, PassMap;
    PassIs(v, pass, |v.canon|);
    var m := PassMap(v, pass, |v.canon|);
    forall id | id in m ensures Fits(v, nodes + m, id, m[id]) { HolderReady(v, nodes, id.at); }
    ReadyMore(v, nodes, m);
  }

  lemma OutputsReady(v: View, nodes: Tree)
    requires Ready(v, nodes) && Sound(v) && Apart(v.lanes)
    ensures Ready(v, nodes + OutputMap(v, |v.lanes|))
  {
    hide Ready, Holder, OutputMap, OutputRecord;
    OutputsAre(v, |v.lanes|);
    var m := OutputMap(v, |v.lanes|);
    forall id | id in m ensures Fits(v, nodes + m, id, m[id]) {
      var j :| 0 <= j < |v.lanes| && v.lanes[j].id == id.stream && OutputRecord(v, v.lanes[j]).Some?;
      RecordWithin(v, j);
      HolderReady(v, nodes, OutputRecord(v, v.lanes[j]).value);
      assert OutputIs(v, m, j);
    }
    ReadyMore(v, nodes, m);
  }
}
