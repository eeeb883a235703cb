/**
 Talks and runs: one pass over a stream's entries decides which interaction is
 going on, gives each agent loop a node inside it, and places every entry.
 */
module Talks {

  import opened Epochs

  /** A stream with what placing needs of it: where each entry landed and the epoch that holds it. */
  datatype Lineage = Lineage(id: nat, main: bool, es: seq<Entry>, ats: seq<nat>, held: seq<NodeId>)

  /**
   What the builder knows of talks: where entries are, the talk and the node of each run, and each
   talk's epoch and runs.
   */
  datatype TalkState = TalkState(container: map<nat, NodeId>,
                                 talkOfRun: map<(nat, nat), NodeId>, runNode: map<(nat, nat), NodeId>,
                                 talks: seq<NodeId>, inEpoch: map<NodeId, NodeId>, emitted: map<NodeId, seq<nat>>)

  ghost predicate Fits(l: Lineage) {
    && |l.ats| == |l.es| == |l.held| && l.es != []
    && forall i, j :: 0 <= i < j < |l.ats| ==> l.ats[i] != l.ats[j]
  }

  /** Whether a run begins an interaction: something from outside triggered it, or none of its records says what did. */
  ghost predicate Opens(l: Lineage, run: nat) {
    && l.main
    && ((exists e :: e in l.es && e.ownRun == run && e.trigger.External?)
        || (forall e :: e in l.es && e.ownRun == run ==> e.trigger.NoTrigger?))
  }

  ghost function Runs(l: Lineage, n: nat): set<nat>
    requires n <= |l.es|
  {
    set i | 0 <= i < n && l.es[i].run != 0 :: l.es[i].run
  }

  ghost predicate FirstOfRun(l: Lineage, i: nat)
    requires i < |l.es|
  {
    l.es[i].run != 0 && l.es[i].run !in Runs(l, i)
  }

  /** A talk of the main stream begins at the first record of its first run, and of each run that opens one. */
  ghost predicate BeginsTalk(l: Lineage, i: nat)
    requires i < |l.es|
  {
    l.main && FirstOfRun(l, i) && (Runs(l, i) == {} || Opens(l, l.es[i].run))
  }

  /** The talk going on after the first n entries: the last that began, and a child stream's only one from the start. */
  ghost function TalkAt(l: Lineage, n: nat): (t: Option<NodeId>)
    requires n <= |l.es|
    ensures Runs(l, n) != {} ==> t.Some?
    ensures t.Some? ==>
              t.value == StreamTalk(l.id) || (t.value.RunTalk? && t.value.stream == l.id && t.value.run in Runs(l, n))
    ensures !l.main ==> t == Some(StreamTalk(l.id))
  {
    if n == 0 then if l.main then None else Some(StreamTalk(l.id))
    else
      assert Runs(l, n) == Runs(l, n - 1) + if l.es[n-1].run != 0 then {l.es[n-1].run} else {};
      if BeginsTalk(l, n - 1) then Some(RunTalk(l.id, l.es[n-1].run))
      else TalkAt(l, n - 1)
  }

  ghost function FirstFrom(l: Lineage, i: nat, j: nat): (k: nat)
    requires j <= i < |l.es|
    ensures j <= k <= i && l.es[k].run == l.es[i].run
    ensures forall m :: j <= m < k ==> l.es[m].run != l.es[i].run
    decreases i - j
  {
    if l.es[j].run == l.es[i].run then j else FirstFrom(l, i, j + 1)
  }

  /** The talk a run belongs to: the one going on at its first record. */
  ghost function TalkOfRun(l: Lineage, i: nat): (t: NodeId)
    requires i < |l.es| && l.es[i].run != 0
    ensures t == StreamTalk(l.id) || (t.RunTalk? && t.stream == l.id)
  {
    var k := FirstFrom(l, i, 0);
    assert l.es[k].run in Runs(l, k + 1);
    TalkAt(l, k + 1).value
  }

  /** The innermost node that holds an entry: its run, or the talk going on, or its epoch before any talk. */
  ghost function Where(l: Lineage, i: nat): NodeId
    requires i < |l.es| == |l.held|
  {
    if l.es[i].run != 0 then Run(TalkOfRun(l, i), l.es[i].run)
    else match TalkAt(l, i) { case Some(t) => t case None => l.held[i] }
  }

  /** No talk or run of the stream, nor any of its entries, is known yet. */
  ghost predicate Unknown(l: Lineage, b: TalkState) {
    && (forall r :: (l.id, r) !in b.talkOfRun && (l.id, r) !in b.runNode)
    && StreamTalk(l.id) !in b.inEpoch && (forall r :: RunTalk(l.id, r) !in b.inEpoch)
    && forall i :: 0 <= i < |l.ats| ==> l.ats[i] !in b.container
  }

  function WithTalk(b: TalkState, t: NodeId, epoch: NodeId): TalkState {
    b.(talks := b.talks + [t], inEpoch := b.inEpoch[t := epoch], emitted := b.emitted[t := []])
  }

  function WithRun(b: TalkState, t: NodeId, stream: nat, run: nat): TalkState {
    b.(talkOfRun := b.talkOfRun[(stream, run) := t],
       runNode := b.runNode[(stream, run) := Run(t, run)],
       emitted := b.emitted[t := (if t in b.emitted then b.emitted[t] else []) + [run]])
  }

  /** What is known once the run of this entry was met for the first time. */
  ghost function Met(l: Lineage, b: TalkState, i: nat): TalkState
    requires Fits(l) && i < |l.es| && FirstOfRun(l, i)
  {
    var b1 := if BeginsTalk(l, i) then WithTalk(b, RunTalk(l.id, l.es[i].run), l.held[i]) else b;
    WithRun(b1, TalkOfRun(l, i), l.id, l.es[i].run)
  }

  ghost function Taken(l: Lineage, b: TalkState, i: nat): TalkState
    requires Fits(l) && i < |l.es|
  {
    var b1 := if FirstOfRun(l, i) then Met(l, b, i) else b;
    b1.(container := b1.container[l.ats[i] := Where(l, i)])
  }

  /** What is known after a stream's first n entries. */
  ghost function After(l: Lineage, b: TalkState, n: nat): TalkState
    requires Fits(l) && n <= |l.es|
  {
    if n == 0 then if l.main then b else WithTalk(b, StreamTalk(l.id), l.held[0])
    else Taken(l, After(l, b, n - 1), n - 1)
  }

  // ---------------------------------------------------------------- what the maps hold

  /** The maps say of the stream's runs just what its entries so far say. */
  ghost predicate Known(l: Lineage, a: TalkState, n: nat)
    requires Fits(l) && n <= |l.es|
  {
    && KeysKnown(l, a, Runs(l, n))
    && (forall i :: 0 <= i < n && l.es[i].run != 0 ==> RunKnown(l, a, i))
    && (TalkAt(l, n).Some? ==> TalkAt(l, n).value in a.inEpoch && TalkAt(l, n).value in a.emitted)
  }

  ghost predicate KeysKnown(l: Lineage, a: TalkState, runs: set<nat>) {
    && (forall r :: (l.id, r) in a.talkOfRun <==> r in runs)
    && (forall r :: (l.id, r) in a.runNode <==> r in runs)
    && (forall r :: RunTalk(l.id, r) in a.inEpoch ==> r in runs)
  }

  ghost predicate RunKnown(l: Lineage, a: TalkState, i: nat)
    requires Fits(l) && i < |l.es| && l.es[i].run != 0
  {
    var key := (l.id, l.es[i].run);
    && key in a.talkOfRun && a.talkOfRun[key] == TalkOfRun(l, i) && TalkOfRun(l, i) in a.inEpoch
    && key in a.runNode && a.runNode[key] == Run(TalkOfRun(l, i), l.es[i].run)
  }

  lemma SameRunSameTalk(l: Lineage, i: nat, j: nat)
    requires i < |l.es| && j < |l.es| && l.es[i].run == l.es[j].run != 0
    ensures TalkOfRun(l, i) == TalkOfRun(l, j)
  {
    hide TalkAt, Runs;
    var a, b := FirstFrom(l, i, 0), FirstFrom(l, j, 0);
    assert !(a < b) && !(b < a);
  }

  lemma RunsGrow(l: Lineage, n: nat)
    requires n < |l.es|
    ensures Runs(l, n + 1) == Runs(l, n) + if l.es[n].run != 0 then {l.es[n].run} else {}
  {
  }

  lemma FirstIsOwn(l: Lineage, i: nat)
    requires i < |l.es| && FirstOfRun(l, i)
    ensures TalkAt(l, i + 1).Some? && TalkOfRun(l, i) == TalkAt(l, i + 1).value
  {
    hide TalkAt;
    var k := FirstFrom(l, i, 0);
    forall j | 0 <= j < i ensures l.es[j].run != l.es[i].run { assert l.es[j].run == 0 || l.es[j].run in Runs(l, i); }
    assert l.es[i].run in Runs(l, i + 1);
  }

  /** An entry of a run met before has a record of it earlier. */
  lemma EarlierOfRun(l: Lineage, i: nat) returns (j: nat)
    requires i < |l.es| && l.es[i].run != 0 && !FirstOfRun(l, i)
    ensures j < i && l.es[j].run == l.es[i].run && TalkOfRun(l, j) == TalkOfRun(l, i)
  {
    j :| j < i && l.es[j].run == l.es[i].run;
    SameRunSameTalk(l, i, j);
  }

  lemma KnownFirst(l: Lineage, b: TalkState)
    requires Fits(l) && Unknown(l, b)
    ensures Known(l, After(l, b, 0), 0)
  {
  }

  lemma KnownMore(l: Lineage, a: TalkState, n: nat)
    requires Fits(l) && n < |l.es| && Known(l, a, n)
    ensures Known(l, Taken(l, a, n), n + 1)
  {
    hide Runs, Fits, TalkOfRun, Opens, TalkAt, RunKnown, Where, Taken, KeysKnown;
    var m := n + 1;
    var c := Taken(l, a, n);
    KeysMore(l, a, n);
    TalkKept(l, a, n);
    forall i | 0 <= i < m && l.es[i].run != 0 ensures RunKnown(l, c, i) {
      if i < n {
        InRuns(l, i, n);
        StaysKnown(l, a, n, i);
      } else {
        ComesKnown(l, a, n);
      }
    }
  }

  lemma KeysMore(l: Lineage, a: TalkState, n: nat)
    requires Fits(l) && n < |l.es| && KeysKnown(l, a, Runs(l, n))
    ensures KeysKnown(l, Taken(l, a, n), Runs(l, n + 1))
  {
    hide Runs, Fits, TalkOfRun, BeginsTalk, TalkAt, Where, Taken;
    RunsGrow(l, n);
    TakenMaps(l, a, n);
  }

  /** Taking an entry changes the maps of runs and talks at its own run alone. */
  lemma TakenMaps(l: Lineage, a: TalkState, n: nat)
    requires Fits(l) && n < |l.es|
    ensures !FirstOfRun(l, n) ==> Taken(l, a, n) == a.(container := Taken(l, a, n).container)
    ensures FirstOfRun(l, n) ==> Taken(l, a, n).talkOfRun == a.talkOfRun[(l.id, l.es[n].run) := TalkOfRun(l, n)]
    ensures FirstOfRun(l, n) ==>
              Taken(l, a, n).runNode == a.runNode[(l.id, l.es[n].run) := Run(TalkOfRun(l, n), l.es[n].run)]
    ensures Taken(l, a, n).inEpoch ==
              if BeginsTalk(l, n) then a.inEpoch[RunTalk(l.id, l.es[n].run) := l.held[n]] else a.inEpoch
  {
    hide Runs, Fits, TalkOfRun, Opens, TalkAt, Where;
  }

  lemma StaysKnown(l: Lineage, a: TalkState, n: nat, i: nat)
    requires Fits(l) && i < n < |l.es| && l.es[i].run != 0 && l.es[i].run in Runs(l, n) && RunKnown(l, a, i)
    ensures RunKnown(l, Taken(l, a, n), i)
  {
    hide Runs, Fits, TalkOfRun, Opens, TalkAt, Where;
  }

  /** The run of the entry taken is known, from the entry or from an earlier one of its run. */
  lemma ComesKnown(l: Lineage, a: TalkState, n: nat)
    requires Fits(l) && n < |l.es| && Known(l, a, n) && l.es[n].run != 0
    ensures RunKnown(l, Taken(l, a, n), n)
  {
    hide Runs, Fits, TalkOfRun, Opens, TalkAt, Where;
    if FirstOfRun(l, n) {
      FirstIsOwn(l, n);
      TalkGoes(l, a, n);
    } else {
      var j := EarlierOfRun(l, n);
      assert RunKnown(l, a, j);
    }
  }

  /** A run met is known, with its talk and its node. */
  lemma MetKnows(l: Lineage, a: TalkState, n: nat)
    requires Fits(l) && n < |l.es| && Known(l, a, n) && l.es[n].run != 0
    ensures (l.id, l.es[n].run) in a.talkOfRun <==> !FirstOfRun(l, n)
    ensures RunKnown(l, if FirstOfRun(l, n) then Met(l, a, n) else a, n)
    ensures !FirstOfRun(l, n) ==> !BeginsTalk(l, n)
  {
    hide Fits, TalkOfRun, Opens, TalkAt, Where, Met, Runs;
    ComesKnown(l, a, n);
    assert RunKnown(l, Taken(l, a, n), n);
  }

  lemma TalkKept(l: Lineage, a: TalkState, n: nat)
    requires Fits(l) && n < |l.es| && Known(l, a, n)
    ensures TalkAt(l, n + 1).Some? ==>
              TalkAt(l, n + 1).value in Taken(l, a, n).inEpoch && TalkAt(l, n + 1).value in Taken(l, a, n).emitted
  {
    hide Runs, Fits, TalkOfRun, Opens, Where;
    if FirstOfRun(l, n) { TalkGoes(l, a, n); }
  }

  lemma InRuns(l: Lineage, i: nat, n: nat)
    requires i < n <= |l.es| && l.es[i].run != 0
    ensures l.es[i].run in Runs(l, n)
  {
  }

  lemma TalkGoes(l: Lineage, a: TalkState, n: nat)
    requires Fits(l) && n < |l.es| && Known(l, a, n) && FirstOfRun(l, n)
    ensures TalkAt(l, n + 1).Some? && TalkAt(l, n + 1).value in Taken(l, a, n).inEpoch
    ensures TalkAt(l, n + 1).value in Taken(l, a, n).emitted
    ensures BeginsTalk(l, n) ==> TalkAt(l, n + 1) == Some(RunTalk(l.id, l.es[n].run))
  {
    hide Runs, Fits, TalkOfRun, Opens;
    FirstIsOwn(l, n);
  }

  lemma {:induction false} AfterKnown(l: Lineage, b: TalkState, n: nat)
    requires Fits(l) && Unknown(l, b) && n <= |l.es|
    ensures Known(l, After(l, b, n), n)
    decreases n
  {
    hide Known, Taken, Unknown, Fits;
    if n == 0 {
      KnownFirst(l, b);
    } else {
      AfterKnown(l, b, n - 1);
      KnownMore(l, After(l, b, n - 1), n - 1);
    }
  }

  // ---------------------------------------------------------------- the builder

  class TalkBuilder {
    var container: map<nat, NodeId>
    var talkOfRun: map<(nat, nat), NodeId>
    var runNode: map<(nat, nat), NodeId>
    var talks: seq<NodeId>
    var inEpoch: map<NodeId, NodeId>
    var emitted: map<NodeId, seq<nat>>

    ghost function State(): TalkState
      reads this
    {
      TalkState(container, talkOfRun, runNode, talks, inEpoch, emitted)
    }

    constructor ()
      ensures State() == TalkState(map[], map[], map[], [], map[], map[])
    {
      container, talkOfRun, runNode, talks, inEpoch, emitted := map[], map[], map[], [], map[], map[];
    }

    /** A talk by its id, created where it is not known. */
    method TalkKeyed(id: NodeId, epoch: NodeId)
      modifies this
      ensures State() == if id in old(inEpoch) then old(State()) else WithTalk(old(State()), id, epoch)
    {
      if id in inEpoch { return; }
      inEpoch, talks, emitted := inEpoch[id := epoch], talks + [id], emitted[id := []];
    }

    /** A run's node inside its talk, once. */
    method NewRun(t: NodeId, stream: nat, run: nat)
      requires (stream, run) !in runNode ==> (stream, run) in talkOfRun && talkOfRun[(stream, run)] == t
      modifies this
      ensures State() == if (stream, run) in old(runNode) then old(State()) else WithRun(old(State()), t, stream, run)
    {
      if (stream, run) in runNode { return; }
      runNode := runNode[(stream, run) := Run(t, run)];
      emitted := emitted[t := (if t in emitted then emitted[t] else []) + [run]];
      assert talkOfRun == talkOfRun[(stream, run) := t];
    }

    /** Says which node holds a record: the run, or the talk, or the epoch. */
    method Place(at: nat, t: Option<NodeId>, stream: nat, run: nat, epoch: NodeId)
      modifies this`container
      ensures container == old(container)[at := if t.None? then epoch
                                                else if run != 0 && (stream, run) in runNode then runNode[(stream, run)]
                                                else t.value]
    {
      if t.Some? {
        if run != 0 && (stream, run) in runNode {
          container := container[at := runNode[(stream, run)]];
          return;
        }
        container := container[at := t.value];
      } else {
        container := container[at := epoch];
      }
    }

    /** Meets a run for the first time: it begins a talk, or joins the one going on. */
    method MeetRun(l: Lineage, i: nat, cur: Option<NodeId>, epoch: NodeId) returns (now: NodeId)
      requires Fits(l) && i < |l.es| && Known(l, State(), i) && cur == TalkAt(l, i) && epoch == l.held[i]
      requires FirstOfRun(l, i)
      modifies this
      ensures State() == Met(l, old(State()), i) && Some(now) == TalkAt(l, i + 1)
    {
      hide Runs, Fits, Opens, TalkOfRun;
      FirstIsOwn(l, i);
      TalkGoes(l, State(), i);
      BeginsWhen(l, i);
      var run := l.es[i].run;
      var opens := StartsTalk(l, run);
      if cur.None? || opens {
        now := RunTalk(l.id, run);
        TalkKeyed(now, epoch);
      } else {
        now := cur.value;
      }
      talkOfRun := talkOfRun[(l.id, run) := now];
      NewRun(now, l.id, run);
    }

    /** Takes one entry of a stream, keeping track of the talk going on. */
    method TakeEntry(l: Lineage, i: nat, cur: Option<NodeId>, epoch: NodeId) returns (now: Option<NodeId>)
      requires Fits(l) && i < |l.es| && Known(l, State(), i) && cur == TalkAt(l, i) && epoch == l.held[i]
      modifies this
      ensures State() == Taken(l, old(State()), i) && now == TalkAt(l, i + 1)
    {
      hide Runs, Fits, Opens, TalkOfRun, Met, Known;
      Lengths(l);
      var e := l.es[i];
      now := cur;
      RunsGrow(l, i);
      if e.run == 0 {
        Place(l.ats[i], cur, l.id, 0, epoch);
        return;
      }
      var key := (l.id, e.run);
      MetKnows(l, State(), i);
      if key !in talkOfRun {
        var t := MeetRun(l, i, cur, epoch);
        now := Some(t);
      }
      var t := if talkOfRun[key] in inEpoch then Some(talkOfRun[key]) else None;
      Place(l.ats[i], t, l.id, e.run, epoch);
    }

    /** Places a stream's entries, epoch by epoch. */
    method PlaceStream(l: Lineage, eps: seq<Epoch>, ids: seq<NodeId>)
      requires Fits(l) && Tiles(l.es, eps, |l.es|) && |ids| == |eps| && HeldBy(l, eps, ids)
      requires Unknown(l, State())
      modifies this
      ensures State() == After(l, old(State()), |l.es|)
    {
      hide Known, Taken, Fits, Unknown, TalkAt, EpochOk, WithTalk, Runs, BoundaryAt, IsReset;
      FirstEpochHolds(l, eps, ids);
      ghost var b := State();
      var cur: Option<NodeId> := None;
      if !l.main {
        NoTalkYet(l, b);
        TalkKeyed(StreamTalk(l.id), ids[0]);
        cur := Some(StreamTalk(l.id));
      }
      StartsSo(l, b);
      var n: nat := 0;
      for k := 0 to |eps|
        invariant n == (if k == 0 then 0 else eps[k-1].end) && n <= |l.es|
        invariant State() == After(l, b, n) && cur == TalkAt(l, n)
      {
        EpochFollows(l, eps, k);
        for i := eps[k].start to eps[k].end
          invariant n == i && State() == After(l, b, n) && cur == TalkAt(l, n)
        {
          AfterKnown(l, b, n);
          InEpochHeld(l, eps, ids, k, i);
          cur := TakeEntry(l, n, cur, ids[k]);
          n := n + 1;
        }
      }
      LastEnds(l, eps);
    }
  }

  /** Whether a run begins a new interaction on its stream. */
  method StartsTalk(l: Lineage, run: nat) returns (starts: bool)
    ensures starts == Opens(l, run)
  {
    if !l.main { return false; }
    var stated := false;
    for i := 0 to |l.es|
      invariant stated <==> exists e :: e in l.es[..i] && e.ownRun == run && !e.trigger.NoTrigger?
      invariant forall e :: e in l.es[..i] && e.ownRun == run ==> !e.trigger.External?
    {
      var e := l.es[i];
      assert l.es[..i+1] == l.es[..i] + [e];
      if e.ownRun != run || e.trigger.NoTrigger? { continue; }
      if e.trigger.External? { assert e in l.es; return true; }
      assert e in l.es[..i+1];
      stated := true;
    }
    assert l.es[..|l.es|] == l.es;
    return !stated;
  }

  /** On the main stream no talk is going on exactly while no run was met. */
  lemma {:induction false} NoneBefore(l: Lineage, n: nat)
    requires n <= |l.es| && l.main
    ensures TalkAt(l, n).None? <==> Runs(l, n) == {}
    decreases n
  {
    if n > 0 {
      hide Opens;
      NoneBefore(l, n - 1);
      RunsGrow(l, n - 1);
    }
  }

  /** A run met for the first time begins a talk when none is going on, or when it opens one. */
  lemma BeginsWhen(l: Lineage, i: nat)
    requires i < |l.es| && FirstOfRun(l, i)
    ensures BeginsTalk(l, i) <==> TalkAt(l, i).None? || Opens(l, l.es[i].run)
  {
    hide Runs;
    if l.main { NoneBefore(l, i); }
  }

  lemma Lengths(l: Lineage)
    requires Fits(l)
    ensures |l.ats| == |l.es| == |l.held|
  {
  }

  /** Every entry is in its epoch. */
  ghost predicate HeldBy(l: Lineage, eps: seq<Epoch>, ids: seq<NodeId>) {
    |ids| == |eps| && forall k, i :: 0 <= k < |eps| && eps[k].start <= i < eps[k].end && i < |l.held| ==>
      l.held[i] == ids[k]
  }

  lemma FirstEpochHolds(l: Lineage, eps: seq<Epoch>, ids: seq<NodeId>)
    requires Fits(l) && Tiles(l.es, eps, |l.es|) && HeldBy(l, eps, ids)
    ensures eps != [] && l.held[0] == ids[0]
  {
    assert EpochOk(l.es, eps[0]);
  }

  lemma NoTalkYet(l: Lineage, b: TalkState)
    requires Unknown(l, b)
    ensures StreamTalk(l.id) !in b.inEpoch
  {
  }

  lemma StartsSo(l: Lineage, b: TalkState)
    requires Fits(l)
    ensures After(l, b, 0) == if l.main then b else WithTalk(b, StreamTalk(l.id), l.held[0])
    ensures TalkAt(l, 0) == if l.main then None else Some(StreamTalk(l.id))
  {
  }

  lemma EpochFollows(l: Lineage, eps: seq<Epoch>, k: nat)
    requires Fits(l) && Tiles(l.es, eps, |l.es|) && k < |eps|
    ensures eps[k].start == (if k == 0 then 0 else eps[k-1].end) && eps[k].start <= eps[k].end <= |l.es|
  {
    assert EpochOk(l.es, eps[k]);
  }

  lemma InEpochHeld(l: Lineage, eps: seq<Epoch>, ids: seq<NodeId>, k: nat, i: nat)
    requires Fits(l) && HeldBy(l, eps, ids) && k < |eps| && eps[k].start <= i < eps[k].end && i < |l.es|
    ensures l.held[i] == ids[k]
  {
  }

  lemma LastEnds(l: Lineage, eps: seq<Epoch>)
    requires Tiles(l.es, eps, |l.es|) && eps != []
    ensures eps[|eps|-1].end == |l.es|
  {
  }

  // ---------------------------------------------------------------- what a stream's talks are

  /** Every entry gets a container, the innermost node that holds it, and no other record's is touched. */
  lemma {:induction false} EveryEntryPlaced(l: Lineage, b: TalkState, n: nat)
    requires Fits(l) && n <= |l.es|
    ensures forall i :: 0 <= i < n ==>
              l.ats[i] in After(l, b, n).container && After(l, b, n).container[l.ats[i]] == Where(l, i)
    ensures forall k :: k in After(l, b, n).container ==> k in b.container || k in l.ats[..n]
    ensures forall k :: k in b.container && k !in l.ats[..n] ==>
              k in After(l, b, n).container && After(l, b, n).container[k] == b.container[k]
    decreases n
  {
    hide Where, Taken, Runs, FirstOfRun, WithTalk, After, Fits;
    Lengths(l);
    if n == 0 {
      FirstPlacesNone(l, b);
    } else {
      var m: nat := n - 1;
      EveryEntryPlaced(l, b, m);
      NextPlaces(l, b, m);
      PlacedMore(l.ats, m, b.container, After(l, b, m).container, After(l, b, n).container, Where(l, m));
      forall i | 0 <= i < n
        ensures l.ats[i] in After(l, b, n).container && After(l, b, n).container[l.ats[i]] == Where(l, i)
      {
        AtsDiffer(l, i, m);
      }
    }
  }

  lemma AtsDiffer(l: Lineage, i: nat, m: nat)
    requires Fits(l) && i <= m < |l.ats|
    ensures l.ats[i] == l.ats[m] <==> i == m
  {
  }

  lemma FirstPlacesNone(l: Lineage, b: TalkState)
    requires Fits(l)
    ensures After(l, b, 0).container == b.container
  {
  }

  lemma NextPlaces(l: Lineage, b: TalkState, m: nat)
    requires Fits(l) && m < |l.es|
    ensures After(l, b, m + 1).container == After(l, b, m).container[l.ats[m] := Where(l, m)]
  {
    hide Taken, Where;
    MetPlacesNone(l, After(l, b, m), m);
  }

  /** Placing one more record touches no other's place. */
  lemma PlacedMore(ats: seq<nat>, m: nat, b: map<nat, NodeId>, c: map<nat, NodeId>, d: map<nat, NodeId>, w: NodeId)
    requires m < |ats| && d == c[ats[m] := w]
    requires forall k :: k in c ==> k in b || k in ats[..m]
    requires forall k :: k in b && k !in ats[..m] ==> k in c && c[k] == b[k]
    ensures forall k :: k in d ==> k in b || k in ats[..m+1]
    ensures forall k :: k in b && k !in ats[..m+1] ==> k in d && d[k] == b[k]
  {
    assert ats[..m+1] == ats[..m] + [ats[m]];
  }

  lemma MetPlacesNone(l: Lineage, a: TalkState, i: nat)
    requires Fits(l) && i < |l.es|
    ensures Taken(l, a, i).container == a.container[l.ats[i] := Where(l, i)]
  {
    hide Where, TalkOfRun, Runs, Opens;
  }

  /** Records of one run are held by one node. */
  lemma RunsAreTogether(l: Lineage, i: nat, j: nat)
    requires Fits(l) && i < |l.es| && j < |l.es| && l.es[i].run == l.es[j].run != 0
    ensures Where(l, i) == Where(l, j) && Where(l, i).Run? && Where(l, i).run == l.es[i].run
  {
    SameRunSameTalk(l, i, j);
  }

  /** A child stream is exactly one talk, and every entry of it is in that talk or in a run of it. */
  lemma {:induction false} ChildIsOneTalk(l: Lineage, b: TalkState, n: nat)
    requires Fits(l) && n <= |l.es| && !l.main
    ensures After(l, b, n).talks == b.talks + [StreamTalk(l.id)]
    ensures forall i :: 0 <= i < n ==>
              Where(l, i) == if l.es[i].run != 0 then Run(StreamTalk(l.id), l.es[i].run) else StreamTalk(l.id)
    decreases n
  {
    hide Runs, Opens;
    if n > 0 {
      ChildIsOneTalk(l, b, n - 1);
    }
  }

  /** The talks of the main stream: one for each run that begins one, in the order of their first records. */
  lemma {:induction false} MainTalks(l: Lineage, b: TalkState, n: nat)
    requires Fits(l) && n <= |l.es| && l.main && Unknown(l, b)
    ensures After(l, b, n).talks == b.talks + Begun(l, n)
    ensures forall r :: RunTalk(l.id, r) in After(l, b, n).inEpoch <==>
              exists i :: 0 <= i < n && BeginsTalk(l, i) && l.es[i].run == r
    ensures StreamTalk(l.id) !in After(l, b, n).inEpoch
    decreases n
  {
    hide Runs, Opens, Where, TalkOfRun, TalkAt, FirstOfRun;
    if n > 0 {
      var m: nat := n - 1;
      MainTalks(l, b, m);
      var p := After(l, b, m);
      assert After(l, b, n).inEpoch ==
               if BeginsTalk(l, m) then p.inEpoch[RunTalk(l.id, l.es[m].run) := l.held[m]] else p.inEpoch;
    }
  }

  ghost function Begun(l: Lineage, n: nat): seq<NodeId>
    requires n <= |l.es|
  {
    if n == 0 then [] else Begun(l, n - 1) + if BeginsTalk(l, n - 1) then [RunTalk(l.id, l.es[n-1].run)] else []
  }

  /** An entry belongs to its epoch alone just when it names no run and came before every run of the main stream. */
  lemma BeforeAnyTalk(l: Lineage, i: nat)
    requires Fits(l) && i < |l.es| && Level(l.held[i]) == 2
    ensures Where(l, i) == l.held[i] <==> l.main && l.es[i].run == 0 && forall j :: 0 <= j < i ==> l.es[j].run == 0
  {
    if l.main { NoneBefore(l, i); }
    assert (forall j :: 0 <= j < i ==> l.es[j].run == 0) <==> Runs(l, i) == {} by {
      forall j | 0 <= j < i && l.es[j].run != 0 ensures Runs(l, i) != {} { assert l.es[j].run in Runs(l, i); }
    }
  }

  /** The talks of a stream: a child's only one, or one for each run of the main stream that begins one. */
  ghost predicate TalkOfLane(l: Lineage, t: NodeId) {
    if l.main then t.RunTalk? && t.stream == l.id && exists i ::
      0 <= i < |l.es| && BeginsTalk(l, i) && l.es[i].run == t.run
    else t == StreamTalk(l.id)
  }

  lemma {:induction false} BegunAre(l: Lineage, n: nat)
    requires n <= |l.es|
    ensures forall t :: t in Begun(l, n) <==>
              t.RunTalk? && t.stream == l.id && exists i :: 0 <= i < n && BeginsTalk(l, i) && l.es[i].run == t.run
  {
    hide BeginsTalk;
    if n > 0 { BegunAre(l, n - 1); }
  }

  lemma {:induction false} TalksAdded(l: Lineage, b: TalkState, n: nat)
    requires Fits(l) && n <= |l.es|
    ensures After(l, b, n).talks == b.talks + if l.main then Begun(l, n) else [StreamTalk(l.id)]
    decreases n
  {
    hide Runs, Opens, Where, TalkOfRun, TalkAt, FirstOfRun;
    if n > 0 {
      TalksAdded(l, b, n - 1);
    }
  }

  lemma LaneTalks(l: Lineage, b: TalkState, t: NodeId)
    requires Fits(l)
    ensures t in After(l, b, |l.es|).talks <==> t in b.talks || TalkOfLane(l, t)
  {
    hide BeginsTalk, After;
    TalksAdded(l, b, |l.es|);
    BegunAre(l, |l.es|);
  }
}
