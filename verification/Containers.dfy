/**
 The nodes of talks and runs, and what every container is: an epoch, a talk
 inside an epoch, or a run inside a talk.
 */
module Containers {

  import opened Epochs
  import opened Talks

  /** The nodes written: each with the node that contains it, if one does. */
  type Tree = map<NodeId, Option<NodeId>>

  predicate IsTalk(id: NodeId) {
    id.StreamTalk? || id.RunTalk?
  }

  /** Every talk is in an epoch, every run in the talk that lists it, and every record in one of the three. */
  ghost predicate Housed(a: TalkState, epochs: set<NodeId>) {
    && (forall t :: t in a.talks <==> t in a.inEpoch)
    && (forall t :: t in a.inEpoch ==> TalkHoused(a, epochs, t))
    && (forall key :: key in a.runNode ==> RunHoused(a, key))
    && (forall at :: at in a.container ==> Places(a, epochs, a.container[at]))
  }

  ghost predicate TalkHoused(a: TalkState, epochs: set<NodeId>, t: NodeId)
    requires t in a.inEpoch
  {
    && IsTalk(t) && a.inEpoch[t] in epochs && t in a.emitted
    && forall r :: r in a.emitted[t] ==> (t.stream, r) in a.runNode && a.runNode[(t.stream, r)] == Run(t, r)
  }

  ghost predicate RunHoused(a: TalkState, key: (nat, nat))
    requires key in a.runNode
  {
    var id := a.runNode[key];
    && id.Run? && id.run == key.1 && IsTalk(id.talk) && id.talk.stream == key.0
    && id.talk in a.inEpoch && id.talk in a.emitted && id.run in a.emitted[id.talk]
  }

  ghost predicate Places(a: TalkState, epochs: set<NodeId>, id: NodeId) {
    id in epochs || id in a.inEpoch || (id.Run? && IsTalk(id.talk) && (id.talk.stream, id.run) in a.runNode
                                        && a.runNode[(id.talk.stream, id.run)] == id)
  }

  lemma HousedWithTalk(a: TalkState, epochs: set<NodeId>, t: NodeId, epoch: NodeId)
    requires Housed(a, epochs) && IsTalk(t) && t !in a.inEpoch && epoch in epochs
    ensures Housed(WithTalk(a, t, epoch), epochs)
  {
    var c := WithTalk(a, t, epoch);
    forall k | k in c.runNode ensures RunHoused(c, k) { assert RunHoused(a, k); }
    forall u | u in c.inEpoch ensures TalkHoused(c, epochs, u) { assert u in a.inEpoch ==> TalkHoused(a, epochs, u); }
    forall at | at in c.container
      ensures Places(c, epochs, c.container[at])
    {
      assert Places(a, epochs, a.container[at]);
    }
  }

  lemma HousedWithRun(a: TalkState, epochs: set<NodeId>, t: NodeId, stream: nat, run: nat)
    requires Housed(a, epochs) && IsTalk(t) && t in a.inEpoch && t.stream == stream && (stream, run) !in a.runNode
    ensures Housed(WithRun(a, t, stream, run), epochs)
  {
    var c := WithRun(a, t, stream, run);
    assert TalkHoused(a, epochs, t);
    forall u | u in c.inEpoch ensures TalkHoused(c, epochs, u) { RunListed(a, epochs, t, run, u); }
    forall k | k in c.runNode ensures RunHoused(c, k) { assert k in a.runNode ==> RunHoused(a, k); }
    forall at | at in c.container
      ensures Places(c, epochs, c.container[at])
    {
      assert Places(a, epochs, a.container[at]);
    }
  }

  lemma RunListed(a: TalkState, epochs: set<NodeId>, t: NodeId, run: nat, u: NodeId)
    requires IsTalk(t) && t in a.inEpoch && u in a.inEpoch && TalkHoused(a, epochs, u) && TalkHoused(a, epochs, t)
    requires (t.stream, run) !in a.runNode
    ensures TalkHoused(WithRun(a, t, t.stream, run), epochs, u)
  {
    var c := WithRun(a, t, t.stream, run);
    forall r | r in c.emitted[u] ensures (u.stream, r) in c.runNode && c.runNode[(u.stream, r)] == Run(u, r) {
      if u == t {
        assert r in a.emitted[t] || r == run;
      }
    }
  }

  lemma HousedWhere(a: TalkState, epochs: set<NodeId>, at: nat, id: NodeId)
    requires Housed(a, epochs) && Places(a, epochs, id)
    ensures Housed(a.(container := a.container[at := id]), epochs)
  {
    var c := a.(container := a.container[at := id]);
    forall t | t in c.inEpoch ensures TalkHoused(c, epochs, t) { assert TalkHoused(a, epochs, t); }
    forall k | k in c.runNode ensures RunHoused(c, k) { assert RunHoused(a, k); }
    forall k | k in c.container ensures Places(c, epochs, c.container[k]) {
      assert k != at ==> Places(a, epochs, a.container[k]);
    }
  }

  /** Taking a stream's entries keeps every node housed. */
  lemma {:induction false} AfterHoused(l: Lineage, b: TalkState, n: nat, epochs: set<NodeId>)
    requires Fits(l) && Unknown(l, b) && n <= |l.es| && Housed(b, epochs) && forall i :: 0 <= i < |l.held| ==>
               l.held[i] in epochs
    ensures Housed(After(l, b, n), epochs)
    decreases n
  {
    hide Housed, Known, Unknown, Taken;
    if n == 0 {
      if !l.main {
        NoTalkYet(l, b);
        HousedWithTalk(b, epochs, StreamTalk(l.id), l.held[0]);
      }
    } else {
      AfterHoused(l, b, n - 1, epochs);
      AfterKnown(l, b, n - 1);
      TakenHoused(l, After(l, b, n - 1), n - 1, epochs);
    }
  }

  lemma TakenHoused(l: Lineage, a: TalkState, i: nat, epochs: set<NodeId>)
    requires Fits(l) && i < |l.es| && Known(l, a, i) && Housed(a, epochs) && l.held[i] in epochs
    ensures Housed(Taken(l, a, i), epochs)
  {
    hide Housed, Known, Met, Where, Runs, Opens;
    var m := if FirstOfRun(l, i) then Met(l, a, i) else a;
    if FirstOfRun(l, i) { MetHoused(l, a, i, epochs); }
    WherePlaces(l, a, i, epochs);
    HousedWhere(m, epochs, l.ats[i], Where(l, i));
  }

  lemma MetHoused(l: Lineage, a: TalkState, i: nat, epochs: set<NodeId>)
    requires Fits(l) && i < |l.es| && FirstOfRun(l, i) && Known(l, a, i) && Housed(a, epochs) && l.held[i] in epochs
    ensures Housed(Met(l, a, i), epochs)
  {
    hide Housed, Opens, TalkOfRun, Runs, RunKnown, WithRun;
    var run := l.es[i].run;
    TalkGoes(l, a, i);
    FirstIsOwn(l, i);
    var b := a;
    if BeginsTalk(l, i) {
      HousedWithTalk(a, epochs, RunTalk(l.id, run), l.held[i]);
      b := WithTalk(a, RunTalk(l.id, run), l.held[i]);
    }
    assert TalkOfRun(l, i) in b.inEpoch;
    HousedWithRun(b, epochs, TalkOfRun(l, i), l.id, run);
  }

  /** Where an entry is placed is a node there is: its epoch, a talk or a run. */
  lemma WherePlaces(l: Lineage, a: TalkState, i: nat, epochs: set<NodeId>)
    requires Fits(l) && i < |l.es| && Known(l, a, i) && l.held[i] in epochs
    ensures Places(if FirstOfRun(l, i) then Met(l, a, i) else a, epochs, Where(l, i))
  {
    hide TalkOfRun, Opens, Runs, Met, TalkAt, Fits, KeysKnown;
    if l.es[i].run != 0 {
      MetKnows(l, a, i);
    }
  }

  /** A stream's entries add to its own talks and runs alone. */
  lemma {:induction false} AfterOwn(l: Lineage, b: TalkState, n: nat)
    requires Fits(l) && n <= |l.es|
    ensures forall key :: key in After(l, b, n).talkOfRun ==> key in b.talkOfRun || key.0 == l.id
    ensures forall key :: key in After(l, b, n).runNode ==> key in b.runNode || key.0 == l.id
    ensures forall t :: t in After(l, b, n).inEpoch ==> t in b.inEpoch || (IsTalk(t) && t.stream == l.id)
    decreases n
  {
    hide Taken;
    if n > 0 {
      AfterOwn(l, b, n - 1);
      TakenOwn(l, After(l, b, n - 1), n - 1);
    }
  }

  lemma TakenOwn(l: Lineage, a: TalkState, i: nat)
    requires Fits(l) && i < |l.es|
    ensures forall key :: key in Taken(l, a, i).talkOfRun ==> key in a.talkOfRun || key.0 == l.id
    ensures forall key :: key in Taken(l, a, i).runNode ==> key in a.runNode || key.0 == l.id
    ensures forall t :: t in Taken(l, a, i).inEpoch ==> t in a.inEpoch || (IsTalk(t) && t.stream == l.id)
  {
    hide Runs, Fits, TalkOfRun, Opens, TalkAt, Where, Taken;
    TakenMaps(l, a, i);
  }

  // ---------------------------------------------------------------- writing the nodes

  function RunMap(a: TalkState, t: NodeId, runs: seq<nat>): Tree
    requires IsTalk(t)
  {
    if runs == [] then map[]
    else
      var key := (t.stream, runs[|runs|-1]);
      RunMap(a, t, runs[..|runs|-1]) + if key in a.runNode then map[a.runNode[key] := Some(t)] else map[]
  }

  /** A talk in its epoch, and its runs in it. */
  function OneTalk(a: TalkState, t: NodeId): Tree
    requires IsTalk(t) && t in a.inEpoch && t in a.emitted
  {
    map[t := Some(a.inEpoch[t])] + RunMap(a, t, a.emitted[t])
  }

  predicate Listed(a: TalkState, talks: seq<NodeId>) {
    forall k :: 0 <= k < |talks| ==> IsTalk(talks[k]) && talks[k] in a.inEpoch && talks[k] in a.emitted
  }

  function TalkMap(a: TalkState, talks: seq<NodeId>): Tree
    requires Listed(a, talks)
  {
    if talks == [] then map[]
    else TalkMap(a, talks[..|talks|-1]) + OneTalk(a, talks[|talks|-1])
  }

  lemma AllListed(a: TalkState, epochs: set<NodeId>)
    requires Housed(a, epochs)
    ensures Listed(a, a.talks)
  {
    forall k | 0 <= k < |a.talks| ensures IsTalk(a.talks[k]) && a.talks[k] in a.inEpoch && a.talks[k] in a.emitted {
      assert a.talks[k] in a.talks && TalkHoused(a, epochs, a.talks[k]);
    }
  }

  /** Writes the talks, each in its epoch, and the runs of each in it. */
  method EmitTalks(b: TalkBuilder, nodes: Tree) returns (out: Tree)
    requires Listed(b.State(), b.talks)
    ensures out == nodes + TalkMap(b.State(), b.talks)
  {
    ghost var a := b.State();
    var talks := b.talks;
    out := nodes;
    WriteNothing(nodes);
    for k := 0 to |talks|
      invariant out == nodes + TalkMap(a, talks[..k])
    {
      hide OneTalk;
      assert talks[..k+1][..k] == talks[..k];
      out := EmitTalk(b, talks[k], out);
      WriteTogether(nodes, TalkMap(a, talks[..k]), OneTalk(a, talks[k]));
    }
    assert talks[..|talks|] == talks;
  }

  method EmitTalk(b: TalkBuilder, t: NodeId, nodes: Tree) returns (out: Tree)
    requires IsTalk(t) && t in b.inEpoch && t in b.emitted
    ensures out == nodes + OneTalk(b.State(), t)
  {
    hide RunMap, IsTalk;
    WriteTogether(nodes, map[t := Some(b.inEpoch[t])], RunMap(b.State(), t, b.emitted[t]));
    out := EmitRuns(b, t, b.emitted[t], nodes[t := Some(b.inEpoch[t])]);
  }

  method EmitRuns(b: TalkBuilder, t: NodeId, runs: seq<nat>, nodes: Tree) returns (out: Tree)
    requires IsTalk(t)
    ensures out == nodes + RunMap(b.State(), t, runs)
  {
    hide RunMap;
    ghost var a := b.State();
    out := nodes;
    WriteNothing(nodes);
    NoRuns(a, t);
    for j := 0 to |runs|
      invariant out == nodes + RunMap(a, t, runs[..j])
    {
      NextRun(a, t, runs, j);
      var key := (t.stream, runs[j]);
      if key in b.runNode {
        WriteOne(nodes, RunMap(a, t, runs[..j]), b.runNode[key], Some(t));
        out := out[b.runNode[key] := Some(t)];
      }
    }
    assert runs[..|runs|] == runs;
  }

  lemma NoRuns(a: TalkState, t: NodeId)
    requires IsTalk(t)
    ensures RunMap(a, t, []) == map[]
  {
  }

  lemma NextRun(a: TalkState, t: NodeId, runs: seq<nat>, j: nat)
    requires IsTalk(t) && j < |runs|
    ensures RunMap(a, t, runs[..j+1]) ==
            RunMap(a, t, runs[..j]) + if (t.stream, runs[j]) in a.runNode
              then map[a.runNode[(t.stream, runs[j])] := Some(t)] else map[]
  {
    assert runs[..j+1][..j] == runs[..j];
  }

  lemma WriteNothing(nodes: Tree)
    ensures nodes + map[] == nodes && map[] + nodes == nodes
  {
  }

  lemma WriteOne(nodes: Tree, m: Tree, id: NodeId, parent: Option<NodeId>)
    ensures (nodes + m)[id := parent] == nodes + (m + map[id := parent])
  {
  }

  lemma WriteTogether(nodes: Tree, m: Tree, k: Tree)
    ensures (nodes + m) + k == nodes + (m + k)
  {
  }

  /** What is written for talks and runs: each talk in its epoch, each run in its talk, and nothing else. */
  lemma TalkNodes(a: TalkState, epochs: set<NodeId>)
    requires Housed(a, epochs)
    ensures Listed(a, a.talks)
    ensures forall id :: id in TalkMap(a, a.talks) <==> id in a.inEpoch || Places(a, {}, id)
    ensures forall t :: t in a.inEpoch ==> t in TalkMap(a, a.talks) && TalkMap(a, a.talks)[t] == Some(a.inEpoch[t])
    ensures forall id :: id in TalkMap(a, a.talks) && id !in a.inEpoch ==>
              id.Run? && id.talk in a.inEpoch && TalkMap(a, a.talks)[id] == Some(id.talk)
  {
    hide TalkMap, TalkHoused;
    AllListed(a, epochs);
    TalksWritten(a, epochs, a.talks);
    forall id | id in a.inEpoch
      ensures IsTalk(id) && InTalks(a, a.talks, id)
    {
      assert TalkHoused(a, epochs, id); TalkIs(a, epochs, id);
    }
    forall id ensures InTalks(a, a.talks, id) && id !in a.inEpoch <==> id !in a.inEpoch && Places(a, {}, id) {
      if id.Run? { RunsAre(a, epochs, id); }
    }
  }

  lemma TalkIs(a: TalkState, epochs: set<NodeId>, t: NodeId)
    requires t in a.inEpoch && TalkHoused(a, epochs, t)
    ensures IsTalk(t)
  {
  }

  lemma RunsAre(a: TalkState, epochs: set<NodeId>, id: NodeId)
    requires Housed(a, epochs) && id.Run?
    ensures InTalks(a, a.talks, id) <==> Places(a, {}, id)
    ensures Places(a, {}, id) ==> id.talk in a.inEpoch
  {
    if id.talk in a.talks { assert TalkHoused(a, epochs, id.talk); }
    if IsTalk(id.talk) && (id.talk.stream, id.run) in a.runNode { assert RunHoused(a, (id.talk.stream, id.run)); }
    assert id in a.inEpoch ==> TalkHoused(a, epochs, id);
  }

  /** A talk listed, or a run that a talk listed lists. */
  ghost predicate InTalks(a: TalkState, talks: seq<NodeId>, id: NodeId) {
    id in talks || (id.Run? && id.talk in talks && id.talk in a.emitted && id.run in a.emitted[id.talk])
  }

  lemma {:induction false} RunsWritten(a: TalkState, epochs: set<NodeId>, t: NodeId, runs: seq<nat>)
    requires t in a.inEpoch && TalkHoused(a, epochs, t) && forall r :: r in runs ==> r in a.emitted[t]
    ensures forall id :: id in RunMap(a, t, runs) <==> id.Run? && id.talk == t && id.run in runs
    ensures forall id :: id in RunMap(a, t, runs) ==> RunMap(a, t, runs)[id] == Some(t)
  {
    if runs != [] {
      var n := |runs| - 1;
      assert runs == runs[..n] + [runs[n]];
      assert runs[n] in runs;
      RunsWritten(a, epochs, t, runs[..n]);
    }
  }

  lemma OneTalkIs(a: TalkState, epochs: set<NodeId>, t: NodeId)
    requires t in a.inEpoch && TalkHoused(a, epochs, t)
    ensures forall id :: id in OneTalk(a, t) <==> id == t || (id.Run? && id.talk == t && id.run in a.emitted[t])
    ensures OneTalk(a, t)[t] == Some(a.inEpoch[t])
    ensures forall id :: id in OneTalk(a, t) && id != t ==> OneTalk(a, t)[id] == Some(t)
  {
    RunsWritten(a, epochs, t, a.emitted[t]);
  }

  lemma {:induction false} TalksWritten(a: TalkState, epochs: set<NodeId>, talks: seq<NodeId>)
    requires Listed(a, talks) && forall k :: 0 <= k < |talks| ==>
               talks[k] in a.inEpoch && TalkHoused(a, epochs, talks[k])
    ensures forall id :: id in TalkMap(a, talks) <==> InTalks(a, talks, id)
    ensures forall t :: t in talks ==> t in TalkMap(a, talks) && TalkMap(a, talks)[t] == Some(a.inEpoch[t])
    ensures forall id :: id in TalkMap(a, talks) && id !in talks ==> id.Run? && TalkMap(a, talks)[id] == Some(id.talk)
  {
    hide OneTalk, TalkHoused;
    if talks != [] {
      var n := |talks| - 1;
      var t := talks[n];
      assert talks == talks[..n] + [t];
      TalksWritten(a, epochs, talks[..n]);
      OneTalkIs(a, epochs, t);
      TalksApart(a, epochs, talks);
    }
  }

  /** A talk is no run. */
  lemma TalksApart(a: TalkState, epochs: set<NodeId>, talks: seq<NodeId>)
    requires Listed(a, talks)
    ensures forall t :: t in talks ==> IsTalk(t) && !t.Run?
  {
    forall t | t in talks ensures IsTalk(t) && !t.Run? {
      var k :| 0 <= k < |talks| && talks[k] == t;
    }
  }
}
