/**
 What the tree of a session says, record by record: every node below the runs, when
 it is there and where, in terms of the records alone.
 */
module SessionSays {

  import opened Epochs
  import opened Streams
  import opened Calls
  import opened Tools
  import opened Talks
  import opened Containers
  import opened Placement
  import opened StepTree
  import opened Assembly
  import opened SessionTree
  import opened Windows

  // ---------------------------------------------------------------- what each record makes

  /** The record is an agent's, and names no call, or names one and is in a stream. */
  predicate Kept(r: Record) {
    r.kind == Assistant && (r.call == 0 || r.entry.stream != 0)
  }

  /** The record has a block of this kind at this place. */
  ghost predicate HasBlock(r: Record, kind: BlockKind, ord: nat) {
    exists b :: b in r.blocks && b.kind == kind && b.ord == ord
  }

  /**
   Texts and thoughts: of every record of an agent that is kept, each in a node of its own; of no other
   record, and of no other block.
   */
  ghost predicate WordsSay(r: Record, nodes: Tree, i: nat) {
    && (forall o :: Step(Message, i, o) in nodes <==> Kept(r) && HasBlock(r, Text, o))
    && (forall o :: Step(Thought, i, o) in nodes <==> Kept(r) && HasBlock(r, Thinking, o))
  }

  /** When a record makes a step of this name: of what was reset, launched, put in and reported, at most one of each. */
  predicate Makes(r: Record, name: StepName) {
    match name
    case Message => false
    case Thought => false
    case Boundary => r.entry.reset
    case Summary => r.entry.summary && !r.entry.reset
    case LaunchAck => r.launchAck
    case Notified => r.entry.trigger == Notification && !r.launchAck
    case Input => r.input
    case Injected => r.injection && !r.input
    case ErrorStep => r.error
    case Turn => r.turnDuration && !r.error
    case Command => r.command && !r.turnDuration && !r.error
    case Notice => r.notice && !r.command && !r.turnDuration && !r.error
  }

  ghost predicate StepsSay(r: Record, nodes: Tree, i: nat) {
    forall name :: name !in {Message, Thought} ==> (Step(name, i, 0) in nodes <==> Makes(r, name))
  }

  /** No other step is there: none of a place that is no record's, and none but words beside a record's own. */
  ghost predicate NoOtherStep(canon: seq<Record>, nodes: Tree) {
    forall name, i: nat, o: nat :: Step(name, i, o) in nodes ==> i < |canon| && (name in {Message, Thought} || o == 0)
  }

  /** A record of a stream is in its container, and one of none is in the session. */
  predicate InContainer(r: Record, container: map<nat, NodeId>, i: nat, parent: Option<NodeId>) {
    if r.entry.stream != 0 then i in container && parent == Some(container[i]) else parent == Some(Session)
  }

  /** A reset or a summary is in its epoch, and in nothing when it is of no stream. */
  predicate InEpoch(r: Record, epochAt: map<nat, NodeId>, i: nat, parent: Option<NodeId>) {
    if r.entry.stream != 0 then i in epochAt && parent == Some(epochAt[i]) else parent == None
  }

  /** Where a record's steps are: words of a call in the call, everything else in the record's container or epoch. */
  ghost predicate StepsPlaced(r: Record, nodes: Tree, epochAt: map<nat, NodeId>, container: map<nat, NodeId>, i: nat) {
    && (forall o :: Step(Message, i, o) in nodes ==> WordPlaced(r, container, i, nodes[Step(Message, i, o)]))
    && (forall o :: Step(Thought, i, o) in nodes ==> WordPlaced(r, container, i, nodes[Step(Thought, i, o)]))
    && (forall name :: name in {Boundary, Summary} && Step(name, i, 0) in nodes ==>
          InEpoch(r, epochAt, i, nodes[Step(name, i, 0)]))
    && (forall name :: name in {LaunchAck, Notified, Input, Injected, ErrorStep, Turn, Command, Notice}
                       && Step(name, i, 0) in nodes ==>
          InContainer(r, container, i, nodes[Step(name, i, 0)]))
  }

  predicate WordPlaced(r: Record, container: map<nat, NodeId>, i: nat, parent: Option<NodeId>) {
    if r.call != 0 then parent == Some(Call(r.call)) else InContainer(r, container, i, parent)
  }

  // ---------------------------------------------------------------- calls, tools and outputs

  /** Record i is a fragment of call c: an agent's, of a stream, that names it. */
  predicate IsOf(canon: seq<Record>, c: nat, i: nat) {
    i < |canon| && canon[i].kind == Assistant && canon[i].entry.stream != 0 && canon[i].call == c && c != 0
  }

  /**
   A call is there when a record is of it, where its first record is; its card is beside it when its
   history changed.
   */
  ghost predicate CallSays(canon: seq<Record>, cards: set<nat>, nodes: Tree, container: map<nat, NodeId>, c: nat) {
    && (Call(c) in nodes <==> exists i: nat :: IsOf(canon, c, i))
    && (HistoryCard(c) in nodes <==> c in cards && Call(c) in nodes)
    && (HistoryCard(c) in nodes && Call(c) in nodes ==> nodes[HistoryCard(c)] == nodes[Call(c)])
    && (forall i: nat :: IsOf(canon, c, i) && (forall j: nat :: j < i ==> !IsOf(canon, c, j)) && Call(c) in nodes ==>
          InContainer(canon[i], container, i, nodes[Call(c)]))
  }

  /** Record i, of a stream, asks for the tool. */
  ghost predicate Asks(canon: seq<Record>, t: nat, i: nat) {
    i < |canon| && canon[i].entry.stream != 0 && t != 0 && exists b ::
      b in canon[i].blocks && b.kind == ToolUse && b.tool == t
  }

  /** A tool use is there when a record asks for it, in that record's call when it has one, else in its container. */
  ghost predicate ToolSays(canon: seq<Record>, nodes: Tree, container: map<nat, NodeId>, t: nat) {
    && (Tool(t) in nodes <==> exists i: nat :: Asks(canon, t, i))
    && (Tool(t) in nodes ==>
          exists i: nat :: Asks(canon, t, i) && ToolPlaced(canon, nodes, container, i, nodes[Tool(t)]))
  }

  ghost predicate ToolPlaced(canon: seq<Record>, nodes: Tree, container: map<nat, NodeId>, i: nat,
                             parent: Option<NodeId>)
    requires i < |canon|
  {
    if Call(canon[i].call) in nodes then parent == Some(Call(canon[i].call))
      else InContainer(canon[i], container, i, parent)
  }

  /** Record i is a response of the stream's own agent. */
  predicate Responds(canon: seq<Record>, s: nat, i: nat) {
    i < |canon| && canon[i].entry.stream == s && canon[i].kind == Assistant && !canon[i].synthetic
  }

  /** Record i is a journal's of what the child returned. */
  predicate ReturnOf(canon: seq<Record>, s: nat, i: nat) {
    i < |canon| && canon[i].kind == Journal && canon[i].childResult && canon[i].child == s
  }

  ghost predicate HasStream(canon: seq<Record>, s: nat) {
    s != 0 && exists i: nat :: i < |canon| && canon[i].entry.stream == s
  }

  /** The stream is a tool's own model call: a record opening it says so, and none says otherwise. */
  ghost predicate ToolsOwn(canon: seq<Record>, s: nat) {
    (exists r :: r in canon && r.child == s && r.auxiliary) && forall r :: r in canon && r.child == s ==> r.auxiliary
  }

  /**
   Record i is what a child stream's output shows: its last own response, and the first journal of what
   it returned where it has none.
   */
  ghost predicate Shows(canon: seq<Record>, s: nat, i: nat) {
    || (Responds(canon, s, i) && forall j: nat :: j > i ==> !Responds(canon, s, j))
    || ((forall j: nat :: !Responds(canon, s, j)) && ReturnOf(canon, s, i)
        && forall j: nat :: j < i ==> !ReturnOf(canon, s, j))
  }

  /**
   An output is there for every child stream, but a tool's own, with a record to show, and is where that
   record is.
   */
  ghost predicate OutputSays(canon: seq<Record>, main: nat, nodes: Tree, container: map<nat, NodeId>, s: nat) {
    && (Output(s) in nodes <==>
          HasStream(canon, s) && s != main && !ToolsOwn(canon, s) && exists i: nat :: Shows(canon, s, i))
    && (Output(s) in nodes ==> forall i: nat :: Shows(canon, s, i) && i < |canon| ==>
        InContainer(canon[i], container, i, nodes[Output(s)]))
  }

  /** All of it. */
  ghost predicate Says(canon: seq<Record>, main: nat, cards: set<nat>, nodes: Tree, epochAt: map<nat, NodeId>,
                       container: map<nat, NodeId>) {
    && (forall i :: 0 <= i < |canon| ==> WordsSay(canon[i], nodes, i) && StepsSay(canon[i], nodes, i))
    && (forall i :: 0 <= i < |canon| ==> StepsPlaced(canon[i], nodes, epochAt, container, i))
    && NoOtherStep(canon, nodes)
    && (forall c :: CallSays(canon, cards, nodes, container, c))
    && (forall t :: ToolSays(canon, nodes, container, t))
    && (forall s :: OutputSays(canon, main, nodes, container, s))
  }

  // ---------------------------------------------------------------- why it does

  /** Every record of a stream, and no other, has a container and an epoch. */
  ghost predicate Streamed(canon: seq<Record>, m: map<nat, NodeId>) {
    forall i: nat :: i in m <==> i < |canon| && canon[i].entry.stream != 0
  }

  lemma WordsAre(v: View, nodes: Tree, i: nat)
    requires Assembled(v, nodes) && Grouped(v.canon, v.byCall, v.calls) && i < |v.canon|
    ensures WordsSay(v.canon[i], nodes, i)
  {
    hide Sound, Rooted, OutputIs, Grouped, Holder, InOutputs, InTools, InPass, Said;
    CallOf(v, i);
    forall o
      ensures Step(Message, i, o) in nodes <==> Kept(v.canon[i]) && HasBlock(v.canon[i], Text, o)
    {
      WordIs(v, nodes, Message, i, o);
    }
    forall o
      ensures Step(Thought, i, o) in nodes <==> Kept(v.canon[i]) && HasBlock(v.canon[i], Thinking, o)
    {
      WordIs(v, nodes, Thought, i, o);
    }
  }

  lemma WordIs(v: View, nodes: Tree, name: StepName, i: nat, o: nat)
    requires Assembled(v, nodes) && Grouped(v.canon, v.byCall, v.calls) && i < |v.canon| && name in {Message, Thought}
    ensures Step(name, i, o) in nodes <==>
              Kept(v.canon[i]) && HasBlock(v.canon[i], if name == Message then Text else Thinking, o)
  {
    hide Sound, Rooted, OutputIs, Grouped, Holder, InOutputs, InTools;
    var id := Step(name, i, o);
    CallOf(v, i);
    StepsOnly(v, id) by { AssembledIs(v, nodes); }
    SaidWhen(i, v.canon[i].blocks, name, o);
    forall pass ensures !InPass(v, pass, |v.canon|, id) { }
    assert IsLeaf(v, id) <==> InCalls(v, v.calls, id) || InSilent(v, |v.canon|, id);
  }

  lemma AssembledIs(v: View, nodes: Tree)
    requires Assembled(v, nodes)
    ensures Sound(v)
  {
  }

  lemma SaidWhen(at: nat, blocks: seq<Block>, name: StepName, o: nat)
    requires name in {Message, Thought}
    ensures Said(at, blocks, Step(name, at, o)) <==>
              exists b :: b in blocks && b.kind == (if name == Message then Text else Thinking) && b.ord == o
  {
  }

  /** The steps a record makes in the passes. */
  lemma StepIs(v: View, nodes: Tree, name: StepName, i: nat, o: nat)
    requires Assembled(v, nodes) && name !in {Message, Thought}
    ensures Step(name, i, o) in nodes <==> exists pass :: InPass(v, pass, |v.canon|, Step(name, i, o))
  {
    hide Sound, Rooted, OutputIs, InOutputs, InTools, InPass, Said;
    var id := Step(name, i, o);
    StepsOnly(v, id) by { AssembledIs(v, nodes); }
    if i < |v.canon| { SaidAt(i, v.canon[i].blocks); }
    assert IsLeaf(v, id) <==> exists pass :: InPass(v, pass, |v.canon|, id);
  }

  /** Which pass makes a step of this name of a record. */
  lemma PassOf(r: Record, name: StepName)
    ensures (exists pass :: StepIn(pass, r) == Some(name)) <==> Makes(r, name)
  {
    assert Some(name) in [StepIn(EpochPass, r), StepIn(DelegationPass, r), StepIn(InputPass, r), StepIn(ControlPass, r)]
      <==> Makes(r, name);
  }

  lemma StepsAre(v: View, nodes: Tree, i: nat)
    requires Assembled(v, nodes) && i < |v.canon|
    ensures StepsSay(v.canon[i], nodes, i)
  {
    hide Assembled, StepIn, Makes;
    forall name | name !in {Message, Thought} ensures Step(name, i, 0) in nodes <==> Makes(v.canon[i], name) {
      PassOf(v.canon[i], name);
      StepIs(v, nodes, name, i, 0);
      assert forall pass :: InPass(v, pass, |v.canon|, Step(name, i, 0)) <==> StepIn(pass, v.canon[i]) == Some(name);
    }
  }

  lemma OthersNot(v: View, nodes: Tree)
    requires Assembled(v, nodes) && Grouped(v.canon, v.byCall, v.calls)
    ensures NoOtherStep(v.canon, nodes)
  {
    hide Sound, Rooted, OutputIs, InOutputs, InTools, Said, Grouped;
    forall name, i: nat, o: nat | Step(name, i, o) in nodes
      ensures i < |v.canon| && (name in {Message, Thought} || o == 0)
    {
      if name !in {Message, Thought} {
        StepIs(v, nodes, name, i, o);
      } else {
        var id := Step(name, i, o);
        StepsOnly(v, id) by { AssembledIs(v, nodes); }
        assert IsLeaf(v, id);
      }
    }
  }

  /** A record's own container, and its epoch. */
  lemma HolderIs(v: View, i: nat)
    requires i < |v.canon| && Streamed(v.canon, v.container) && Streamed(v.canon, v.epochAt)
    ensures InContainer(v.canon[i], v.container, i, Some(Holder(v, i)))
    ensures InEpoch(v.canon[i], v.epochAt, i, EpochHolder(v, i))
  {
  }

  lemma StepsWhere(v: View, nodes: Tree, i: nat)
    requires Assembled(v, nodes) && Grouped(v.canon, v.byCall, v.calls) && i < |v.canon|
    requires Streamed(v.canon, v.container) && Streamed(v.canon, v.epochAt)
    ensures StepsPlaced(v.canon[i], nodes, v.epochAt, v.container, i)
  {
    hide Assembled, Holder, EpochHolder, Grouped, InContainer, InEpoch, Streamed;
    HolderIs(v, i);
    forall name, o: nat | name in {Message, Thought} && Step(name, i, o) in nodes
      ensures WordPlaced(v.canon[i], v.container, i, nodes[Step(name, i, o)])
    {
      WordWhere(v, nodes, name, i, o);
    }
    forall name | name !in {Message, Thought} && Step(name, i, 0) in nodes
      ensures nodes[Step(name, i, 0)] == if name in {Boundary, Summary} then EpochHolder(v, i) else Some(Holder(v, i))
    {
      StepWhere(v, nodes, name, i);
    }
  }

  lemma WordWhere(v: View, nodes: Tree, name: StepName, i: nat, o: nat)
    requires Assembled(v, nodes) && Grouped(v.canon, v.byCall, v.calls) && i < |v.canon|
    requires name in {Message, Thought} && Step(name, i, o) in nodes
    ensures nodes[Step(name, i, o)] == Some(if v.canon[i].call != 0 then Call(v.canon[i].call) else Holder(v, i))
  {
    hide Sound, Rooted, OutputIs, InOutputs, InTools, Said, Holder, Grouped;
    var id := Step(name, i, o);
    CallOf(v, i);
    StepsOnly(v, id) by { AssembledIs(v, nodes); }
    assert IsLeaf(v, id) && LeafPlaced(v, id, nodes[id]);
    forall pass ensures !InPass(v, pass, |v.canon|, id) { }
  }

  lemma StepWhere(v: View, nodes: Tree, name: StepName, i: nat)
    requires Assembled(v, nodes) && i < |v.canon| && name !in {Message, Thought} && Step(name, i, 0) in nodes
    ensures nodes[Step(name, i, 0)] == if name in {Boundary, Summary} then EpochHolder(v, i) else Some(Holder(v, i))
  {
    hide Sound, Rooted, OutputIs, InOutputs, InTools, Said, Holder, EpochHolder, IsLeaf;
    var id := Step(name, i, 0);
    StepIs(v, nodes, name, i, 0);
    var pass :| InPass(v, pass, |v.canon|, id);
    assert LeafPlaced(v, id, nodes[id]);
    assert pass == EpochPass <==> name in {Boundary, Summary};
  }

  // ---------------------------------------------------------------- calls

  lemma CallsSay(v: View, nodes: Tree, c: nat)
    requires Assembled(v, nodes) && Grouped(v.canon, v.byCall, v.calls)
    requires Streamed(v.canon, v.container) && Streamed(v.canon, v.epochAt)
    ensures CallSays(v.canon, v.cards, nodes, v.container, c)
  {
    hide Sound, Rooted, OutputIs, InOutputs, InTools, Said, Holder, EpochHolder, InContainer, Streamed;
    CallNode(v, nodes, c);
    if Call(c) in nodes {
      var fs := v.byCall[c];
      assert fs[0] in fs && IsOf(v.canon, c, fs[0]);
      HolderIs(v, fs[0]);
      forall i: nat | IsOf(v.canon, c, i) && forall j: nat :: j < i ==> !IsOf(v.canon, c, j) ensures i == fs[0] {
        LeastFirst(fs, i);
      }
    }
    CallMade(v, c);
  }

  lemma LeastFirst(fs: seq<nat>, i: nat)
    requires i in fs && (forall j, k :: 0 <= j < k < |fs| ==> fs[j] < fs[k])
    ensures fs[0] <= i
  {
  }

  lemma CallMade(v: View, c: nat)
    requires Grouped(v.canon, v.byCall, v.calls)
    ensures (exists i: nat :: IsOf(v.canon, c, i)) ==> c in v.byCall
  {
    if i: nat :| IsOf(v.canon, c, i) {
      assert IsFragment(v.canon[i]);
    }
  }

  lemma CallNode(v: View, nodes: Tree, c: nat)
    requires Assembled(v, nodes) && Grouped(v.canon, v.byCall, v.calls)
    ensures Call(c) in nodes <==> c in v.byCall
    ensures HistoryCard(c) in nodes <==> c in v.byCall && c in v.cards
    ensures Call(c) in nodes ==>
              v.byCall[c] != [] && v.byCall[c][0] < |v.canon| && nodes[Call(c)] == Some(Holder(v, v.byCall[c][0]))
    ensures HistoryCard(c) in nodes ==>
              v.byCall[c] != [] && v.byCall[c][0] < |v.canon|
                && nodes[HistoryCard(c)] == Some(Holder(v, v.byCall[c][0]))
  {
    hide Rooted, OutputIs, Said, Holder, EpochHolder, Grouped;
    assert c in v.calls <==> c in v.byCall;
    assert IsLeaf(v, Call(c)) <==> c in v.byCall;
    assert IsLeaf(v, HistoryCard(c)) <==> c in v.byCall && c in v.cards;
    if Call(c) in nodes { assert LeafPlaced(v, Call(c), nodes[Call(c)]); }
    if HistoryCard(c) in nodes { assert LeafPlaced(v, HistoryCard(c), nodes[HistoryCard(c)]); }
  }

  // ---------------------------------------------------------------- tools

  lemma {:induction false} ItemsFrom(canon: seq<Record>, ats: seq<nat>, item: Item)
    requires Within(canon, ats)
    ensures item in Items(canon, ats) <==> item.at in ats && item.at < |canon| && item.block in canon[item.at].blocks
  {
    if ats != [] {
      var n := |ats| - 1;
      ItemsFrom(canon, ats[..n], item);
      assert ats == ats[..n] + [ats[n]];
      var here := ItemsOf(ats[n], canon[ats[n]].blocks);
      if item.at == ats[n] && item.block in canon[ats[n]].blocks {
        var k :| 0 <= k < |canon[ats[n]].blocks| && canon[ats[n]].blocks[k] == item.block;
        assert here[k] == item;
      }
    }
  }

  lemma {:induction false} SpotsFrom(items: seq<Item>, kind: BlockKind, tool: nat, s: Spot)
    ensures s in Spots(items, kind, tool) <==>
              exists item :: item in items && item.block.kind == kind && item.block.tool == tool
                             && s == Spot(item.at, item.block.ord)
  {
    if items != [] {
      var n := |items| - 1;
      SpotsFrom(items[..n], kind, tool, s);
      assert items == items[..n] + [items[n]];
    }
  }

  lemma StreamedWalk(canon: seq<Record>, lanes: seq<Lane>, i: nat)
    requires Partitioned(canon, lanes, |canon|)
    ensures i in Walk(lanes) <==> i < |canon| && canon[i].entry.stream != 0
  {
    hide Walk;
    if i < |canon| && canon[i].entry.stream != 0 {
      OneLane(canon, lanes, i);
    }
  }

  lemma ToolsSay(v: View, nodes: Tree, t: nat)
    requires Assembled(v, nodes) && Partitioned(v.canon, v.lanes, |v.canon|) && Grouped(v.canon, v.byCall, v.calls)
    requires Within(v.canon, Walk(v.lanes)) && Joined(v.byTool, v.tools, Items(v.canon, Walk(v.lanes)))
    requires Streamed(v.canon, v.container) && Streamed(v.canon, v.epochAt)
    ensures ToolSays(v.canon, nodes, v.container, t)
  {
    hide Assembled, Partitioned, Grouped, Walk, Within, Items, Spots, Holder, InContainer, Streamed, ToolHolder;
    var items := Items(v.canon, Walk(v.lanes));
    var spots := Spots(items, ToolUse, t);
    ToolNode(v, nodes, t);
    forall s ensures s in spots && t != 0 ==> Asks(v.canon, t, s.at) {
      SpotsFrom(items, ToolUse, t, s);
      if item :| item in items && item.block.kind == ToolUse && item.block.tool == t && s == Spot(item.at, item.block.ord) {
        ItemsFrom(v.canon, Walk(v.lanes), item);
        StreamedWalk(v.canon, v.lanes, item.at);
      }
    }
    if i: nat :| Asks(v.canon, t, i) {
      var b :| b in v.canon[i].blocks && b.kind == ToolUse && b.tool == t;
      ItemsFrom(v.canon, Walk(v.lanes), Item(i, b));
      StreamedWalk(v.canon, v.lanes, i);
      SpotsFrom(items, ToolUse, t, Spot(i, b.ord));
      assert Carries(items, t);
      assert spots != [];
    }
    if Tool(t) in nodes {
      var at := v.byTool[t].use.value.at;
      assert spots[0] in spots;
      HolderIs(v, at);
      ToolPlaces(v, nodes, at);
      assert ToolPlaced(v.canon, nodes, v.container, at, nodes[Tool(t)]);
    }
  }

  lemma ToolPlaces(v: View, nodes: Tree, at: nat)
    requires Assembled(v, nodes) && Grouped(v.canon, v.byCall, v.calls) && at < |v.canon|
    requires InContainer(v.canon[at], v.container, at, Some(Holder(v, at)))
    ensures ToolPlaced(v.canon, nodes, v.container, at, Some(ToolHolder(v, at)))
  {
    hide Assembled, Grouped, Holder, InContainer;
    CallNode(v, nodes, v.canon[at].call);
  }

  lemma ToolNode(v: View, nodes: Tree, t: nat)
    requires Assembled(v, nodes)
    ensures Tool(t) in nodes <==> t in v.byTool && v.byTool[t].use.Some?
    ensures Tool(t) in nodes ==>
              v.byTool[t].use.value.at < |v.canon| && nodes[Tool(t)] == Some(ToolHolder(v, v.byTool[t].use.value.at))
  {
    hide Rooted, OutputIs, Said, ToolHolder;
    assert t in v.tools <==> t in v.byTool;
    assert IsLeaf(v, Tool(t)) <==> t in v.byTool && v.byTool[t].use.Some?;
    if Tool(t) in nodes { assert LeafPlaced(v, Tool(t), nodes[Tool(t)]); }
  }

  // ---------------------------------------------------------------- outputs

  lemma LastNext(canon: seq<Record>, ats: seq<nat>, x: nat)
    requires Within(canon, ats) && x < |canon|
    ensures Within(canon, ats + [x])
    ensures LastAssistant(canon, ats + [x]) ==
            if canon[x].kind == Assistant && !canon[x].synthetic then Some(x) else LastAssistant(canon, ats)
  {
    assert (ats + [x])[..|ats|] == ats;
  }

  lemma {:induction false} LastIs(canon: seq<Record>, s: nat, n: nat)
    requires n <= |canon|
    ensures Within(canon, PositionsOf(canon, s, n))
    ensures var last := LastAssistant(canon, PositionsOf(canon, s, n));
            && (last.Some? ==>
                  last.value < n && Responds(canon, s, last.value)
                  && forall j: nat :: last.value < j < n ==> !Responds(canon, s, j))
            && (last.None? ==> forall j: nat :: j < n ==> !Responds(canon, s, j))
  {
    hide LastAssistant;
    if n == 0 {
      NoneLast(canon, s);
    } else {
      LastIs(canon, s, n - 1);
      var before := PositionsOf(canon, s, n - 1);
      if canon[n-1].entry.stream == s {
        assert PositionsOf(canon, s, n) == before + [n - 1];
        LastNext(canon, before, n - 1);
      } else {
        assert PositionsOf(canon, s, n) == before + [] == before;
      }
    }
  }

  lemma NoneLast(canon: seq<Record>, s: nat)
    ensures PositionsOf(canon, s, 0) == [] && LastAssistant(canon, []).None?
  {
  }

  lemma ShownIs(canon: seq<Record>, s: nat, i: nat)
    requires Within(canon, PositionsOf(canon, s, |canon|))
    ensures var last, returned := LastAssistant(canon, PositionsOf(canon, s, |canon|)), FirstReturned(canon, s, 0);
            Shows(canon, s, i) <==> Some(i) == if last.Some? then last else returned
  {
    hide PositionsOf, LastAssistant, FirstReturned;
    LastIs(canon, s, |canon|);
    var last, returned := LastAssistant(canon, PositionsOf(canon, s, |canon|)), FirstReturned(canon, s, 0);
    assert forall j: nat :: j < |canon| ==> (ReturnOf(canon, s, j) <==> Returns(canon[j], s));
  }

  lemma OutputNode(v: View, nodes: Tree, j: nat)
    requires Assembled(v, nodes) && Partitioned(v.canon, v.lanes, |v.canon|) && j < |v.lanes|
    ensures Within(v.canon, v.lanes[j].ats)
    ensures Output(v.lanes[j].id) in nodes <==> OutputRecord(v, v.lanes[j]).Some?
    ensures var at := OutputRecord(v, v.lanes[j]);
            at.Some? ==> Output(v.lanes[j].id) in nodes && nodes[Output(v.lanes[j].id)] == Some(Holder(v, at.value))
  {
    hide Rooted, Said, Holder, OutputRecord, LaneOk;
    var id := Output(v.lanes[j].id);
    assert OutputIs(v, nodes, j);
    assert IsLeaf(v, id) <==> InOutputs(v, |v.lanes|, id);
    if InOutputs(v, |v.lanes|, id) {
      var k :| 0 <= k < |v.lanes| && v.lanes[k].id == id.stream && OutputRecord(v, v.lanes[k]).Some?;
      assert k == j;
    }
  }

  lemma NoOutput(v: View, nodes: Tree, s: nat)
    requires Assembled(v, nodes) && !HasLane(v.lanes, s)
    ensures Output(s) !in nodes
  {
    hide Rooted, Said, Holder, OutputRecord, OutputIs;
    assert IsLeaf(v, Output(s)) <==> InOutputs(v, |v.lanes|, Output(s));
  }

  lemma LanesAre(canon: seq<Record>, lanes: seq<Lane>, s: nat)
    requires Partitioned(canon, lanes, |canon|)
    ensures HasLane(lanes, s) <==> HasStream(canon, s)
  {
    if k :| 0 <= k < |lanes| && lanes[k].id == s {
      assert lanes[k].ats[0] in lanes[k].ats;
    }
  }

  lemma OwnIs(canon: seq<Record>, s: nat)
    ensures IsAuxiliary(canon, s) <==> ToolsOwn(canon, s)
  {
  }

  lemma OutputsSay(v: View, nodes: Tree, s: nat)
    requires Assembled(v, nodes) && Partitioned(v.canon, v.lanes, |v.canon|)
    requires Streamed(v.canon, v.container) && Streamed(v.canon, v.epochAt)
    ensures OutputSays(v.canon, v.main, nodes, v.container, s)
  {
    hide Assembled, Partitioned, HasStream, ToolsOwn, IsAuxiliary, Holder, InContainer, LastAssistant, FirstReturned,
      Shows, PositionsOf, Streamed;
    LanesAre(v.canon, v.lanes, s);
    OwnIs(v.canon, s);
    if HasLane(v.lanes, s) {
      var j: nat :| j < |v.lanes| && v.lanes[j].id == s;
      LaneIs(v, j);
      OutputNode(v, nodes, j);
      forall i: nat { ShownIs(v.canon, s, i); }
      forall i: nat | i < |v.canon| { HolderIs(v, i); }
    } else {
      NoOutput(v, nodes, s);
    }
  }

  lemma LaneIs(v: View, j: nat)
    requires Partitioned(v.canon, v.lanes, |v.canon|) && j < |v.lanes|
    ensures v.lanes[j].ats == PositionsOf(v.canon, v.lanes[j].id, |v.canon|)
  {
  }

  // ---------------------------------------------------------------- all of it

  lemma TreeSays(v: View, nodes: Tree)
    requires Assembled(v, nodes) && Partitioned(v.canon, v.lanes, |v.canon|) && Grouped(v.canon, v.byCall, v.calls)
    requires Within(v.canon, Walk(v.lanes)) && Joined(v.byTool, v.tools, Items(v.canon, Walk(v.lanes)))
    requires Streamed(v.canon, v.container) && Streamed(v.canon, v.epochAt)
    ensures Says(v.canon, v.main, v.cards, nodes, v.epochAt, v.container)
  {
    hide Assembled, Partitioned, Grouped, Walk, Within, Joined, Items, Streamed, WordsSay, StepsSay, StepsPlaced,
      NoOtherStep, CallSays, ToolSays, OutputSays;
    forall i | 0 <= i < |v.canon| ensures WordsSay(v.canon[i], nodes, i) && StepsSay(v.canon[i], nodes, i) {
      WordsAre(v, nodes, i);
      StepsAre(v, nodes, i);
    }
    forall i | 0 <= i < |v.canon|
      ensures StepsPlaced(v.canon[i], nodes, v.epochAt, v.container, i)
    {
      StepsWhere(v, nodes, i);
    }
    OthersNot(v, nodes);
    forall c ensures CallSays(v.canon, v.cards, nodes, v.container, c) { CallsSay(v, nodes, c); }
    forall t ensures ToolSays(v.canon, nodes, v.container, t) { ToolsSay(v, nodes, t); }
    forall s ensures OutputSays(v.canon, v.main, nodes, v.container, s) { OutputsSay(v, nodes, s); }
  }

  /** Only streamed records are placed. */
  lemma {:induction false} PlacedStreamed(canon: seq<Record>, lanes: seq<Lane>, main: nat, epochAt: map<nat, NodeId>,
                                          k: nat)
    requires AllFit(canon, lanes, main, epochAt) && k <= |lanes|
    ensures forall at :: at in AfterAll(canon, lanes, main, epochAt, k).container ==> InLanes(lanes, k, at)
  {
    hide After, LineageOf;
    if k > 0 {
      PlacedStreamed(canon, lanes, main, epochAt, k - 1);
      assert LaneFits(canon, lanes[k-1], main, epochAt);
      var l := LineageOf(canon, lanes[k-1], main, epochAt);
      LaneAts(canon, lanes[k-1], main, epochAt);
      EveryEntryPlaced(l, AfterAll(canon, lanes, main, epochAt, k - 1), |l.es|);
    }
  }

  lemma LaneAts(canon: seq<Record>, lane: Lane, main: nat, epochAt: map<nat, NodeId>)
    requires LaneFits(canon, lane, main, epochAt)
    ensures LineageOf(canon, lane, main, epochAt).ats == lane.ats
  {
  }

  lemma AllStreamed(canon: seq<Record>, lanes: seq<Lane>, main: nat, cuts: seq<Cut>, nodes: Tree, epochAt: map<nat,
                    NodeId>, a: TalkState)
    requires Partitioned(canon, lanes, |canon|) && Staged(canon, lanes, main, cuts, nodes, epochAt, a)
    requires forall j :: 0 <= j < |lanes| ==> LanePlaced(canon, lanes[j], main, epochAt, a.container)
    ensures Streamed(canon, a.container) && Streamed(canon, epochAt)
  {
    hide AfterAll, Partitioned, AllFit, CutOk, Held, LanePlaced;
    PlacedStreamed(canon, lanes, main, epochAt, |lanes|);
    forall i: nat ensures InLanes(lanes, |lanes|, i) <==> i < |canon| && canon[i].entry.stream != 0 {
      StreamedWalk(canon, lanes, i);
    }
    forall i: nat | i < |canon| && canon[i].entry.stream != 0 ensures i in a.container {
      assert InLanes(lanes, |lanes|, i);
      var j :| 0 <= j < |lanes| && i in lanes[j].ats;
      PlacedIn(canon, lanes[j], main, epochAt, a.container, i);
    }
  }

  lemma PlacedIn(canon: seq<Record>, lane: Lane, main: nat, epochAt: map<nat, NodeId>, container: map<nat, NodeId>,
                 i: nat)
    requires LanePlaced(canon, lane, main, epochAt, container) && i in lane.ats
    ensures i in container
  {
  }

  /**
   What an agent said is kept exactly when its record names no call, or names one and
   is in a stream; it is then in the call, or where its record is.
   */
  lemma WordsKept(canon: seq<Record>, main: nat, cards: set<nat>, nodes: Tree, epochAt: map<nat, NodeId>,
                  container: map<nat, NodeId>, i: nat, b: Block)
    requires Says(canon, main, cards, nodes, epochAt, container) && i < |canon| && b in canon[i].blocks
    requires b.kind == Text || b.kind == Thinking
    ensures var r, id := canon[i], Step(if b.kind == Text then Message else Thought, i, b.ord);
            && (id in nodes <==> r.kind == Assistant && (r.call == 0 || r.entry.stream != 0))
            && (id in nodes && r.call != 0 ==> nodes[id] == Some(Call(r.call)) && Call(r.call) in nodes)
            && (id in nodes && r.call == 0 && r.entry.stream != 0 ==> i in container && nodes[id] == Some(container[i]))
  {
    hide NoOtherStep, ToolSays, OutputSays, StepsSay;
    var r := canon[i];
    assert HasBlock(r, b.kind, b.ord);
    assert WordsSay(r, nodes, i) && StepsPlaced(r, nodes, epochAt, container, i);
    if Kept(r) && r.call != 0 {
      assert IsOf(canon, r.call, i);
      assert CallSays(canon, cards, nodes, container, r.call);
    }
  }

  // ---------------------------------------------------------------- the whole assembly

  /**
   Assembles a session. The stream that is the main one and the calls whose history
   changed are given.
   */
  method Assemble(canon: seq<Record>, main: nat, cards: set<nat>, gap: int)
    returns (v: View, nodes: Tree, cuts: seq<Cut>, ws: seq<Window>, ghost a: TalkState)
    ensures v.canon == canon && v.main == main && v.cards == cards
    ensures Partitioned(canon, v.lanes, |canon|) && Grouped(canon, v.byCall, v.calls)
    ensures Within(canon, Walk(v.lanes)) && Joined(v.byTool, v.tools, Items(canon, Walk(v.lanes)))
    ensures Staged(canon, v.lanes, main, cuts, nodes, v.epochAt, a) && v.container == a.container
    ensures forall j :: 0 <= j < |v.lanes| ==> LanePlaced(canon, v.lanes[j], main, v.epochAt, v.container)
    ensures Windowed(canon, v.lanes, main, v.epochAt, gap, ws) && UpperIs(v.lanes, cuts, a, WindowStarts(ws), nodes)
    ensures Assembled(v, nodes) && Says(canon, main, cards, nodes, v.epochAt, v.container)
  {
    hide Windowed, Says, LeafPlaced, OutputIs, LanePlaced, WindowStarts, Partitioned, Grouped, Assembled, Joined,
      Rooted, Upper, UpperReady, Ready,
      Sound, ToolsKnown, Apart, Leaves,
      CallMap, SilentMap, ToolMap, PassMap, OutputMap, Level, Within, Items, Walk, Staged, UpperIs;
    var lanes := PartitionStreams(canon);
    var byCall, calls := GroupCalls(canon, lanes);
    var byTool, tools := JoinTools(canon, lanes);
    var base, epochAt, container;
    base, epochAt, container, cuts, ws, a := WriteUpper(canon, lanes, main, gap);
    v := View(canon, lanes, main, container, epochAt, byCall, calls, byTool, tools, cards);
    ViewReady(v, base);
    var w := new Writer(base);
    w.WriteCalls(v);
    w.WriteSilent(v);
    NoOtherCalls(v, base);
    w.WriteTools(v);
    w.WritePass(v, EpochPass);
    w.WritePass(v, DelegationPass);
    w.WriteOutputs(v);
    w.WritePass(v, InputPass);
    w.WritePass(v, ControlPass);
    nodes := w.nodes;
    LeavesAre(v, base);
    assert nodes == Leaves(v, base) by { LeavesIs(v, base); }
    UpperStays(v, base, main, cuts, a, WindowStarts(ws));
    AllStreamed(canon, lanes, main, cuts, nodes, epochAt, a);
    TreeSays(v, nodes);
  }
}
