/**
 The tool uses of a session, each joined to its result by the id alone. A result
 is joined for certain only when it is the one result that carries the id.
 */
module Tools {

  import opened Epochs
  import opened Streams
  import opened Calls

  /** Where a block is: its record, and its place in it. */
  datatype Spot = Spot(at: nat, ord: nat)

  datatype ToolCall = ToolCall(use: Option<Spot>, result: Option<Spot>, ambiguous: bool)

  datatype Item = Item(at: nat, block: Block)

  /** The blocks of one record, from its first. */
  function ItemsOf(at: nat, blocks: seq<Block>): (items: seq<Item>)
    ensures |items| == |blocks| && forall k :: 0 <= k < |items| ==> items[k] == Item(at, blocks[k])
  {
    seq(|blocks|, k requires 0 <= k < |blocks| => Item(at, blocks[k]))
  }

  /** The blocks of the records read, in order. */
  function Items(canon: seq<Record>, ats: seq<nat>): seq<Item>
    requires Within(canon, ats)
  {
    if ats == [] then []
    else Items(canon, ats[..|ats|-1]) + ItemsOf(ats[|ats|-1], canon[ats[|ats|-1]].blocks)
  }

  /** The places, in order, of the blocks of this kind that carry the id. */
  function Spots(items: seq<Item>, kind: BlockKind, tool: nat): seq<Spot> {
    if items == [] then []
    else
      var n := |items| - 1;
      var b := items[n].block;
      Spots(items[..n], kind, tool) + if b.kind == kind && b.tool == tool then [Spot(items[n].at, b.ord)] else []
  }

  function First(spots: seq<Spot>): Option<Spot> {
    if spots == [] then None else Some(spots[0])
  }

  /** The first request and the first result that carry the id, and whether more than one result does. */
  predicate JoinIs(t: ToolCall, items: seq<Item>, tool: nat) {
    && t.use == First(Spots(items, ToolUse, tool))
    && t.result == First(Spots(items, ToolResult, tool))
    && (t.ambiguous <==> |Spots(items, ToolResult, tool)| > 1)
  }

  predicate Carries(items: seq<Item>, tool: nat) {
    exists item :: item in items && item.block.tool == tool
  }

  /** Each tool id a block carries, once, with its join. */
  ghost predicate Joined(byTool: map<nat, ToolCall>, order: seq<nat>, items: seq<Item>) {
    && (forall t :: t in byTool <==> t != 0 && Carries(items, t))
    && (forall t :: t in byTool ==> JoinIs(byTool[t], items, t))
    && (forall t :: t in order <==> t in byTool) && Distinct(order)
  }

  /** Reads every block of every stream. */
  method JoinTools(canon: seq<Record>, lanes: seq<Lane>) returns (byTool: map<nat, ToolCall>, order: seq<nat>)
    requires Partitioned(canon, lanes, |canon|)
    ensures Within(canon, Walk(lanes)) && Joined(byTool, order, Items(canon, Walk(lanes)))
  {
    hide Partitioned, Joined, Walk, Within;
    byTool, order := map[], [];
    ghost var done: seq<nat> := [];
    NothingJoined(canon, lanes);
    for k := 0 to |lanes|
      invariant done == Walk(lanes[..k]) && Within(canon, done)
      invariant Joined(byTool, order, Items(canon, done))
    {
      LaneWalked(canon, lanes, k);
      ghost var before := done;
      for p := 0 to |lanes[k].ats|
        invariant done == before + lanes[k].ats[..p] && Within(canon, done)
        invariant Joined(byTool, order, Items(canon, done))
      {
        var at := lanes[k].ats[p];
        AtWithin(canon, lanes[k].ats, p, done);
        byTool, order := JoinRecord(byTool, order, at, canon[at].blocks, Items(canon, done));
        assert (done + [at])[..|done|] == done;
        done := done + [at];
        assert before + lanes[k].ats[..p] + [at] == before + lanes[k].ats[..p+1];
      }
      assert lanes[k].ats[..|lanes[k].ats|] == lanes[k].ats;
    }
    assert lanes[..|lanes|] == lanes;
  }

  lemma NothingJoined(canon: seq<Record>, lanes: seq<Lane>)
    ensures Walk(lanes[..0]) == [] && Within(canon, []) && Joined(map[], [], [])
  {
  }

  /** Reads the blocks of one record. */
  method JoinRecord(byTool: map<nat, ToolCall>, order: seq<nat>, at: nat, blocks: seq<Block>, ghost items: seq<Item>)
    returns (now: map<nat, ToolCall>, listed: seq<nat>)
    requires Joined(byTool, order, items)
    ensures Joined(now, listed, items + ItemsOf(at, blocks))
  {
    hide Joined;
    now, listed := byTool, order;
    ghost var done := items;
    for k := 0 to |blocks|
      invariant done == items + ItemsOf(at, blocks)[..k] && Joined(now, listed, done)
    {
      var b := blocks[k];
      JoinedNext(now, listed, done, at, b);
      if b.tool != 0 {
        ghost var was := now;
        if b.tool !in now {
          now, listed := now[b.tool := ToolCall(None, None, false)], listed + [b.tool];
        }
        now := now[b.tool := TakeBlock(now[b.tool], at, b)];
        assert b.tool !in was ==> now == was[b.tool := TakeBlock(ToolCall(None, None, false), at, b)];
      }
      done := done + [Item(at, b)];
      assert items + ItemsOf(at, blocks)[..k] + [Item(at, b)] == items + ItemsOf(at, blocks)[..k+1];
    }
    assert ItemsOf(at, blocks)[..|blocks|] == ItemsOf(at, blocks);
  }

  /** What one more block that carries its id tells of a tool use. */
  function TakeBlock(t: ToolCall, at: nat, b: Block): ToolCall {
    match b.kind
    case ToolUse => if t.use.None? then t.(use := Some(Spot(at, b.ord))) else t
    case ToolResult => if t.result.Some? then t.(ambiguous := true) else t.(result := Some(Spot(at, b.ord)))
    case _ => t
  }

  lemma JoinedNext(byTool: map<nat, ToolCall>, order: seq<nat>, items: seq<Item>, at: nat, b: Block)
    requires Joined(byTool, order, items)
    ensures b.tool == 0 ==> Joined(byTool, order, items + [Item(at, b)])
    ensures b.tool != 0 && b.tool in byTool ==>
              Joined(byTool[b.tool := TakeBlock(byTool[b.tool], at, b)], order, items + [Item(at, b)])
    ensures b.tool != 0 && b.tool !in byTool ==>
              Joined(byTool[b.tool := TakeBlock(ToolCall(None, None, false), at, b)], order + [b.tool], items
                     + [Item(at, b)])
  {
    hide JoinIs, Carries, TakeBlock;
    forall t: nat
      ensures Carries(items + [Item(at, b)], t) <==> Carries(items, t) || b.tool == t
    {
      CarriesNext(items, at, b, t);
    }
    forall t: nat | t != b.tool && t in byTool
      ensures JoinIs(byTool[t], items + [Item(at, b)], t)
    {
      OthersStayJoined(byTool[t], items, at, b, t);
    }
    if b.tool != 0 {
      if b.tool in byTool {
        TakenIs(byTool[b.tool], items, at, b);
      } else {
        NotCarried(items, b.tool);
        TakenIs(ToolCall(None, None, false), items, at, b);
      }
    }
  }

  lemma CarriesNext(items: seq<Item>, at: nat, b: Block, t: nat)
    ensures Carries(items + [Item(at, b)], t) <==> Carries(items, t) || b.tool == t
  {
    var more := items + [Item(at, b)];
    assert Item(at, b) in more;
    assert forall item :: item in items ==> item in more;
  }

  lemma OthersStayJoined(c: ToolCall, items: seq<Item>, at: nat, b: Block, t: nat)
    requires t != b.tool && JoinIs(c, items, t)
    ensures JoinIs(c, items + [Item(at, b)], t)
  {
    assert (items + [Item(at, b)])[..|items|] == items;
  }

  lemma TakenIs(c: ToolCall, items: seq<Item>, at: nat, b: Block)
    requires JoinIs(c, items, b.tool)
    ensures JoinIs(TakeBlock(c, at, b), items + [Item(at, b)], b.tool)
  {
    assert (items + [Item(at, b)])[..|items|] == items;
  }

  /** An id no block carries has neither request nor result. */
  lemma {:induction false} NotCarried(items: seq<Item>, tool: nat)
    requires !Carries(items, tool)
    ensures JoinIs(ToolCall(None, None, false), items, tool)
  {
    if items != [] {
      var n := |items| - 1;
      assert items[n] in items && forall item :: item in items[..n] ==> item in items;
      NotCarried(items[..n], tool);
    }
  }

  /** A result is joined for certain exactly when it is the only block that answers the id. */
  lemma ExactIsUnique(t: ToolCall, items: seq<Item>, tool: nat, spot: Spot)
    requires JoinIs(t, items, tool)
    ensures t.result == Some(spot) && !t.ambiguous <==> Spots(items, ToolResult, tool) == [spot]
    ensures t.ambiguous ==> t.result.Some?
  {
  }
}
