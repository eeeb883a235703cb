/**
 Measuring and building histories: walks that keep what they measure, over
 threads that may come back to themselves.
 */
module HistoryWalk {
  import opened Messages
  import opened BodyLists
  import opened Threads

  /** The parts of a history gathered from its end, put back in order. */
  ghost function Unstacked(parts: seq<seq<Message>>): seq<Message> {
    if parts == [] then [] else parts[|parts| - 1] + Unstacked(parts[..|parts| - 1])
  }

  /** Taking a call's own list and the reply before it moves them from what is ahead to what is gathered. */
  lemma TakenOn(whole: seq<Message>, ahead: seq<Message>, parts: seq<seq<Message>>, mine: seq<Message>, reply: Message)
    requires whole == ahead + [reply] + mine
    ensures whole + Unstacked(parts) == ahead + Unstacked(parts + [mine] + [[reply]])
  {
    UnstackTwo(parts, mine, [reply]);
    Reassociate(ahead, [reply], mine, Unstacked(parts));
  }

  lemma TakenFirst(parts: seq<seq<Message>>, mine: seq<Message>)
    ensures mine + Unstacked(parts) == [] + Unstacked(parts + [mine])
  {
    assert (parts + [mine])[..|parts|] == parts;
  }

  lemma Reassociate<T>(a: seq<T>, b: seq<T>, c: seq<T>, d: seq<T>)
    ensures a + b + c + d == a + (b + c + d)
    ensures |a| <= |a + b + c|
  {
  }

  lemma UnstackTwo(parts: seq<seq<Message>>, a: seq<Message>, b: seq<Message>)
    ensures Unstacked(parts + [a] + [b]) == b + a + Unstacked(parts)
  {
    assert (parts + [a])[..|parts|] == parts;
    assert (parts + [a] + [b])[..|parts| + 1] == parts + [a];
  }

  function Below(n: nat): (all: set<nat>)
    ensures forall i :: i in all <==> 0 <= i < n
  {
    if n == 0 then {} else Below(n - 1) + {n - 1}
  }

  class Historian {
    const s: Session
    const own: OwnLists
    var measured: map<nat, Measure>
    var systems: map<nat, System>

    ghost predicate Valid()
      reads this, own
    {
      && s.Valid()
      && own.Valid() && own.t == s.t && own.maxEntries == s.maxEntries
      && (forall c :: c in measured ==> c < |s.calls| && s.Right(c, measured[c]))
      && (forall c :: c in systems ==> c < |s.calls| && s.SystemIs(c, systems[c]))
    }

    constructor (s: Session)
      requires s.Valid()
      ensures Valid() && this.s == s && fresh(own) && measured == map[] && systems == map[]
    {
      this.s := s;
      own := new OwnLists(s.t, s.maxEntries);
      measured := map[];
      systems := map[];
    }

    // -------------------------------------------------------------------
    // Measures.
    // -------------------------------------------------------------------

    /** A chain of calls, each going on to the next, and the last of them to x. */
    ghost predicate Linked(chain: seq<nat>, x: nat)
      requires s.Valid()
    {
      && (forall k :: 0 <= k < |chain| ==> chain[k] < |s.calls|)
      && (forall k :: 0 <= k < |chain| - 1 ==> GoesTo(chain[k], chain[k + 1]))
      && (chain != [] ==> GoesTo(chain[|chain| - 1], x))
    }

    ghost predicate GoesTo(c: nat, x: nat)
      requires s.Valid()
    {
      c < |s.calls| && s.GoesOn(c) && s.Continued(c).call == x
    }

    lemma LinkedGrows(chain: seq<nat>, x: nat, y: nat)
      requires s.Valid() && Linked(chain, x) && GoesTo(x, y)
      ensures Linked(chain + [x], y)
    {
      var next := chain + [x];
      forall k | 0 <= k < |next| - 1 ensures GoesTo(next[k], next[k + 1]) {
        assert k < |chain| - 1 ==> GoesTo(chain[k], chain[k + 1]);
      }
    }

    /** The calls a walk back visited; the last of them goes on to none, or to one measured, or to one visited. */
    ghost predicate Walked(chain: seq<nat>, c: nat, loops: bool)
      requires s.Valid()
      reads this
    {
      && (forall k :: 0 <= k < |chain| ==> chain[k] < |s.calls| && chain[k] !in measured)
      && (forall k :: 0 <= k < |chain| - 1 ==> GoesTo(chain[k], chain[k + 1]))
      && (if chain == [] then c in measured else chain[0] == c)
      && (chain != [] ==>
        var last := chain[|chain| - 1];
        if loops then s.GoesOn(last) && s.Continued(last).call in chain
        else s.GoesOn(last) ==> s.Continued(last).call in measured)
      && (loops ==> chain != [])
    }

    method WalkBack(c: nat) returns (chain: seq<nat>, loops: bool)
      requires s.Valid() && c < |s.calls|
      ensures Walked(chain, c, loops)
    {
      chain, loops := [], false;
      var onChain: set<nat> := {};
      var x: nat := c;
      ghost var all := Below(|s.calls|);
      while x !in measured
        invariant x < |s.calls| && Linked(chain, x)
        invariant forall k :: 0 <= k < |chain| ==> chain[k] !in measured
        invariant forall v :: v in onChain <==> v in chain
        invariant if chain == [] then x == c else chain[0] == c
        decreases all - onChain
      {
        if x in onChain { return chain, true; }
        assert x in all;
        if s.GoesOn(x) {
          LinkedGrows(chain, x, s.Continued(x).call);
        }
        onChain := onChain + {x};
        chain := chain + [x];
        if s.calls[x].req < 0 { return; }
        var step := s.Continued(x);
        if !step.From? { return; }
        x := step.call;
      }
    }

    /** One call's measure, from the measure of the call it continues, which is known; x is negative for none. */
    method MeasureOne(c: nat, x: int) returns (m: Measure)
      requires Valid() && c < |s.calls|
      requires if s.GoesOn(c) then x == s.Continued(c).call && x in measured else x < 0
      modifies own`lists
      ensures Valid() && s.Right(c, m)
    {
      if s.calls[c].req < 0 {
        s.RightFirst(c);
        return NoMeasure(NO_REQUEST);
      }
      var l := own.OwnOf(s.calls[c].req);
      s.t.MeasureOnce(s.calls[c].req, l, s.t.OwnMeasure(s.calls[c].req));
      if x < 0 {
        s.RightFirst(c);
      } else {
        s.RightJoins(c, measured[x]);
      }
      if l.why != "" { return NoMeasure(l.why); }
      if l.length > s.maxEntries { return NoMeasure(LIST_TOO_LARGE); }
      if x < 0 {
        var step := s.Continued(c);
        if step.Broken? { return NoMeasure(step.why); }
        return Measure(l.length, 0, "");
      }
      var before := measured[x];
      if before.why == LIST_TOO_LARGE { return NoMeasure(LIST_TOO_LARGE); }
      if before.why != "" { return NoMeasure(UNRESOLVED); }
      if before.links + 1 > s.maxLinks || before.length + 1 + l.length > s.maxEntries {
        return NoMeasure(LIST_TOO_LARGE);
      }
      return Measure(before.length + 1 + l.length, before.links + 1, "");
    }

    /** A call's measure: one walk back to where it is known, then forward. It is right whatever was asked before. */
    method Length(c: nat) returns (m: Measure)
      requires Valid() && c < |s.calls|
      modifies this`measured, own`lists
      ensures Valid() && c in measured && m == measured[c] && s.Right(c, m)
      ensures forall x :: x in old(measured) ==> x in measured && measured[x] == old(measured[x])
    {
      if c in measured { return measured[c]; }
      var chain, loops := WalkBack(c);
      if loops {
        CutLoop(chain, c);
      } else {
        Forward(chain, c);
      }
      m := measured[c];
    }

    /** A thread that comes back to itself has no start: no call of the walk has a measure. */
    method CutLoop(chain: seq<nat>, c: nat)
      requires Valid() && Walked(chain, c, true)
      modifies this`measured
      ensures Valid() && c in measured
      ensures forall x :: x in old(measured) ==> x in measured && measured[x] == old(measured[x])
    {
      NoEnd(chain, c);
      var was := measured;
      for i := 0 to |chain|
        invariant Valid()
        invariant forall x :: x in measured <==> x in was || x in chain[..i]
        invariant forall x :: x in was ==> measured[x] == was[x]
      {
        measured := measured[chain[i] := NoMeasure(UNRESOLVED)];
      }
      assert chain[..|chain|] == chain;
    }

    lemma NoEnd(chain: seq<nat>, c: nat)
      requires s.Valid() && Walked(chain, c, true)
      ensures forall k :: 0 <= k < |chain| ==> s.Right(chain[k], NoMeasure(UNRESOLVED))
    {
      var loop := set k | 0 <= k < |chain| :: chain[k];
      forall x {:trigger s.StaysIn(loop, x)} | x in loop ensures s.StaysIn(loop, x) {
        var k :| 0 <= k < |chain| && chain[k] == x;
        if k < |chain| - 1 {
          assert GoesTo(chain[k], chain[k + 1]);
          assert chain[k + 1] in loop;
        }
      }
      forall k | 0 <= k < |chain| ensures s.Right(chain[k], NoMeasure(UNRESOLVED)) {
        assert chain[k] in loop;
        forall n: nat ensures !s.Ends(chain[k], n) {
          s.LoopNeverEnds(loop, chain[k], n);
        }
      }
    }

    method Forward(chain: seq<nat>, c: nat)
      requires Valid() && Walked(chain, c, false)
      modifies this`measured, own`lists
      ensures Valid() && c in measured
      ensures forall x :: x in old(measured) ==> x in measured && measured[x] == old(measured[x])
    {
      hide Session.Right, Session.SystemIs, Table.Measures;
      var i := |chain|;
      while i > 0
        invariant 0 <= i <= |chain|
        invariant Valid()
        invariant forall x :: x in old(measured) ==> x in measured && measured[x] == old(measured[x])
        invariant i > 0 && s.GoesOn(chain[i - 1]) ==> s.Continued(chain[i - 1]).call in measured
        invariant i < |chain| ==> chain[i] in measured
      {
        i := i - 1;
        assert i > 0 ==> GoesTo(chain[i - 1], chain[i]);
        Keep(chain[i]);
      }
    }

    /** Takes one call's measure, that of the call it continues being known, and keeps it. */
    method Keep(c: nat)
      requires Valid() && c < |s.calls|
      requires s.GoesOn(c) ==> s.Continued(c).call in measured
      modifies this`measured, own`lists
      ensures Valid() && c in measured && measured == old(measured)[c := measured[c]]
    {
      var x: int := -1;
      if s.GoesOn(c) { x := s.Continued(c).call; }
      var m := MeasureOne(c, x);
      measured := measured[c := m];
    }

    // -------------------------------------------------------------------
    // Lists.
    // -------------------------------------------------------------------

    /** What is left of a history to gather: all of x's, or nothing past the start. */
    ghost function Ahead(x: int, n: nat): seq<Message>
      requires s.Valid() && (x >= 0 ==> x < |s.calls| && s.WellFounded(x, n))
    {
      if x < 0 then [] else s.History(x, n)
    }

    /** A request's own list, within the bounds of a history that ends with it. */
    method OwnPart(x: nat, ghost n: nat) returns (out: seq<Message>)
      requires Valid() && x < |s.calls| && s.WellFounded(x, n) && |s.History(x, n)| <= s.maxEntries
      modifies own`lists
      ensures Valid() && s.calls[x].req >= 0 && s.OwnHolds(x) && out == s.OwnList(x)
    {
      var why;
      ghost var depth;
      var row := s.calls[x].req;
      ghost var l := s.t.OwnMeasure(row);
      assert own.Comparable(row, l.depth);
      out, why, depth := own.Own(row);
      s.t.RootedOnce(row, depth, l.depth);
    }

    /** A call's whole history, or why there is none: exactly the recursive history, at the length measured. */
    method List(c: nat) returns (out: seq<Message>, why: string)
      requires Valid() && c < |s.calls|
      modifies this`measured, own`lists
      ensures Valid()
      ensures forall x :: x in old(measured) ==> x in measured && measured[x] == old(measured[x])
      ensures c in measured && s.Right(c, measured[c]) && why == measured[c].why
      ensures why == "" ==> s.Measurable(c, measured[c].links) && out == s.History(c, measured[c].links)
      ensures why != "" ==> out == []
    {
      var m := Length(c);
      s.RightDecides(c, m);
      if m.why != "" { return [], m.why; }
      var parts := Gather(c, m.links);
      out := Restack(parts);
      why := "";
    }

    /** The parts of a history from its end back to its thread's start, each call's own list and the reply before it. */
    method Gather(c: nat, ghost links: nat) returns (parts: seq<seq<Message>>)
      requires Valid() && c < |s.calls| && s.Measurable(c, links)
      modifies own`lists
      ensures Valid()
      ensures Unstacked(parts) == s.History(c, links)
    {
      hide Unstacked, Session.History, Session.WellFounded, Session.Right, Session.SystemIs, Table.Measures,
        Session.Continued, Session.OwnHolds;
      parts := [];
      var x: int := c;
      ghost var n: nat := links;
      Started(c, links);
      while x >= 0
        invariant Valid()
        invariant x >= 0 ==> x < |s.calls| && s.WellFounded(x, n) && |s.History(x, n)| <= s.maxEntries
        invariant s.History(c, links) == Ahead(x, n) + Unstacked(parts)
        decreases if x >= 0 then n + 1 else 0
      {
        parts, x, n := GatherOne(parts, x, n);
      }
    }

    /** Takes one call's own list, and the reply it goes on from, into the parts; next is negative past the start. */
    method GatherOne(parts: seq<seq<Message>>, x: nat, ghost n: nat)
      returns (more: seq<seq<Message>>, next: int, ghost left: nat)
      requires Valid() && x < |s.calls| && s.WellFounded(x, n) && |s.History(x, n)| <= s.maxEntries
      modifies own`lists
      ensures Valid() && next < |s.calls|
      ensures next >= 0 ==> left < n && s.WellFounded(next, left) && |s.History(next, left)| <= s.maxEntries
      ensures Ahead(x, n) + Unstacked(parts) == Ahead(next, left) + Unstacked(more)
    {
      hide Unstacked, Session.WellFounded, Session.Right, Session.SystemIs, Table.Measures;
      var mine := OwnPart(x, n);
      var step := s.Continued(x);
      s.FoundedStep(x, n);
      if step.From? {
        more := parts + [mine] + [[s.ReplyOf(step.call)]];
        next, left := step.call, n - 1;
        TakenOn(s.History(x, n), s.History(next, left), parts, mine, s.ReplyOf(step.call));
      } else {
        more, next, left := parts + [mine], -1, 0;
        TakenFirst(parts, mine);
      }
    }

    lemma Started(c: nat, links: nat)
      requires s.Valid() && c < |s.calls| && s.WellFounded(c, links)
      ensures s.History(c, links) == Ahead(c, links) + Unstacked([])
    {
    }

    /** The parts in order again. */
    method Restack(parts: seq<seq<Message>>) returns (out: seq<Message>)
      ensures out == Unstacked(parts)
    {
      out := [];
      var i := |parts|;
      assert parts[..i] == parts;
      while i > 0
        invariant 0 <= i <= |parts|
        invariant out + Unstacked(parts[..i]) == Unstacked(parts)
      {
        i := i - 1;
        assert parts[..i + 1][..i] == parts[..i];
        out := out + parts[i];
      }
    }

    // -------------------------------------------------------------------
    // System prompts.
    // -------------------------------------------------------------------

    /** A chain of calls that each leave their prompt to the next, and the last of them to x. */
    ghost predicate Asked(chain: seq<nat>, x: nat)
      requires s.Valid()
    {
      && (forall k :: 0 <= k < |chain| ==> chain[k] < |s.calls|)
      && (forall k :: 0 <= k < |chain| - 1 ==> Asks(chain[k], chain[k + 1]))
      && (chain != [] ==> Asks(chain[|chain| - 1], x))
    }

    ghost predicate Asks(c: nat, x: nat)
      requires s.Valid()
    {
      c < |s.calls| && s.SystemAbove(c) && s.Continued(c).call == x
    }

    lemma AskedGrows(chain: seq<nat>, x: nat, y: nat)
      requires s.Valid() && Asked(chain, x) && Asks(x, y)
      ensures Asked(chain + [x], y)
    {
      var next := chain + [x];
      forall k | 0 <= k < |next| - 1 ensures Asks(next[k], next[k + 1]) {
        assert k < |chain| - 1 ==> Asks(chain[k], chain[k + 1]);
      }
    }

    /** Every call asked shares the answer of the one they come to. */
    lemma {:induction false} AskedShare(chain: seq<nat>, x: nat, got: System, k: nat)
      requires s.Valid() && Asked(chain, x) && x < |s.calls| && s.SystemIs(x, got) && k < |chain|
      ensures s.SystemIs(chain[k], got)
      decreases |chain| - k
    {
      if k < |chain| - 1 {
        assert Asks(chain[k], chain[k + 1]);
        AskedShare(chain, x, got, k + 1);
      }
      s.SystemPasses(chain[k], got);
    }

    /** A thread that comes back to a call asked tells none of them a prompt. */
    lemma AskedInLoop(chain: seq<nat>, x: nat)
      requires s.Valid() && Asked(chain, x) && x in chain
      ensures forall k :: 0 <= k < |chain| ==> s.SystemIs(chain[k], UNKNOWN_SYSTEM)
    {
      var loop := set k | 0 <= k < |chain| :: chain[k];
      forall y {:trigger s.AsksIn(loop, y)} | y in loop ensures s.AsksIn(loop, y) {
        var k :| 0 <= k < |chain| && chain[k] == y;
        if k < |chain| - 1 {
          assert Asks(chain[k], chain[k + 1]);
          assert chain[k + 1] in loop;
        }
      }
      forall k | 0 <= k < |chain| ensures s.SystemIs(chain[k], UNKNOWN_SYSTEM) {
        assert chain[k] in loop;
        forall n: nat ensures !s.SaidAt(chain[k], n) {
          s.SystemLoop(loop, chain[k], n);
        }
      }
    }

    /** Walks back to the call that says c's prompt, or to one it is known for. */
    method AskBack(c: nat) returns (chain: seq<nat>, got: System)
      requires Valid() && c < |s.calls|
      ensures forall k :: 0 <= k < |chain| ==> chain[k] < |s.calls| && s.SystemIs(chain[k], got)
      ensures s.SystemIs(c, got)
    {
      chain := [];
      var onChain: set<nat> := {};
      var x: nat := c;
      ghost var all := Below(|s.calls|);
      while true
        invariant x < |s.calls| && Asked(chain, x)
        invariant forall v :: v in onChain <==> v in chain
        invariant if chain == [] then x == c else chain[0] == c
        decreases all - onChain
      {
        if x in systems {
          got := systems[x];
          forall k | 0 <= k < |chain| ensures s.SystemIs(chain[k], got) { AskedShare(chain, x, got, k); }
          return;
        }
        if x in onChain {
          AskedInLoop(chain, x);
          return chain, UNKNOWN_SYSTEM;
        }
        assert x in all;
        if !s.SystemAbove(x) {
          got := Says(x);
          forall k | 0 <= k < |chain| ensures s.SystemIs(chain[k], got) { AskedShare(chain, x, got, k); }
          chain := chain + [x];
          return;
        }
        AskedGrows(chain, x, s.Continued(x).call);
        onChain, chain := onChain + {x}, chain + [x];
        x := s.Continued(x).call;
      }
    }

    /** What a call that does not leave its prompt to another says of it. */
    method Says(x: nat) returns (got: System)
      requires Valid() && x < |s.calls| && !s.SystemAbove(x)
      ensures s.SystemIs(x, got)
    {
      s.SystemHereIs(x);
      if s.calls[x].req < 0 { return UNKNOWN_SYSTEM; }
      var y := s.t.bodies[s.calls[x].req];
      if y.systemUnknown { return UNKNOWN_SYSTEM; }
      if y.thread != ThreadContinue { return System(y.system, true); }
      return UNKNOWN_SYSTEM;
    }

    /** A call's system prompt: the one it has, whatever was asked before, over threads with no start too. */
    method SystemOf(c: nat) returns (got: System)
      requires Valid() && c < |s.calls|
      modifies this`systems
      ensures Valid() && s.SystemIs(c, got)
    {
      var chain;
      chain, got := AskBack(c);
      for i := 0 to |chain|
        invariant Valid()
      {
        systems := systems[chain[i] := got];
      }
    }
  }
}
