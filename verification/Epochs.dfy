/**
 The nodes a conversation is made of, and its contexts: each stream is cut at
 its resets into epochs that tile it.
 */
module Epochs {

  datatype Option<T> = None | Some(value: T)

  datatype Trigger = NoTrigger | External | Notification | OtherTrigger

  /** A record as assembly sees it: its stream, 0 for none, the run it belongs to, and what it says itself. */
  datatype Entry = Entry(stream: nat, run: nat, ownRun: nat, trigger: Trigger, reset: bool, summary: bool, record: nat)

  datatype StepName =
    | Message | Thought | Boundary | Summary | LaunchAck | Notified
    | Input | Injected | ErrorStep | Turn | Command | Notice

  /** Node ids are told apart by their kind and parts; a landed position is the place of its entry. */
  datatype NodeId =
    | Session
    | Stream(stream: nat)
    | Segment(at: nat)
    | FirstEpoch(stream: nat)
    | ResetEpoch(stream: nat, record: nat)
    | LocatedEpoch(stream: nat, at: nat)
    | StreamTalk(stream: nat)
    | RunTalk(stream: nat, run: nat)
    | Run(talk: NodeId, run: nat)
    | Call(call: nat)
    | Tool(tool: nat)
    | HistoryCard(call: nat)
    | Output(stream: nat)
    | Step(name: StepName, at: nat, block: nat)

  /** How deep a kind of node lies: session, stream, epoch, talk, run, call, step. */
  function Level(id: NodeId): nat {
    match id
    case Session => 0
    case Stream(_) => 1
    case Segment(_) => 1
    case FirstEpoch(_) => 2
    case ResetEpoch(_, _) => 2
    case LocatedEpoch(_, _) => 2
    case StreamTalk(_) => 3
    case RunTalk(_, _) => 3
    case Run(_, _) => 4
    case Call(_) => 5
    case Tool(_) => 6
    case HistoryCard(_) => 6
    case Output(_) => 6
    case Step(_, _, _) => 6
  }

  /** A model context of a stream: the entries from start up to end, exclusive. */
  datatype Epoch = Epoch(start: nat, end: nat, boundary: Option<nat>)

  predicate IsReset(es: seq<Entry>, i: int) {
    0 <= i < |es| && es[i].reset
  }

  /** The positions where a reset stands. */
  function Cuts(es: seq<Entry>, n: nat): (cuts: seq<nat>)
    requires n <= |es|
    ensures forall i: nat :: i in cuts <==> i < n && IsReset(es, i)
    ensures forall k :: 0 <= k < |cuts| ==> cuts[k] < n
    ensures forall j, k :: 0 <= j < k < |cuts| ==> cuts[j] < cuts[k]
  {
    if n == 0 then [] else Cuts(es, n - 1) + if es[n-1].reset then [n - 1] else []
  }

  function BoundaryAt(es: seq<Entry>, i: nat): Option<nat> {
    if IsReset(es, i) then Some(i) else None
  }

  /** An epoch that holds entries, opened by the reset it begins at if it does, with none after. */
  ghost predicate EpochOk(es: seq<Entry>, ep: Epoch) {
    && ep.start < ep.end <= |es| && ep.boundary == BoundaryAt(es, ep.start)
    && forall i :: ep.start < i < ep.end ==> !IsReset(es, i)
  }

  /** Epochs that each hold entries, follow each other, and begin just at the first entry and at every reset. */
  ghost predicate Tiles(es: seq<Entry>, eps: seq<Epoch>, end: nat) {
    && (forall k :: 0 <= k < |eps| ==> EpochOk(es, eps[k]))
    && (forall k :: 0 < k < |eps| ==> eps[k].start == eps[k-1].end && IsReset(es, eps[k].start))
    && (if eps == [] then end == 0 else eps[0].start == 0 && eps[|eps|-1].end == end)
  }

  /** The cut that opens the epoch starting here, if one does. */
  method FirstBoundary(start: nat, cuts: seq<nat>) returns (at: Option<nat>)
    ensures at == if start in cuts then Some(start) else None
  {
    for k := 0 to |cuts|
      invariant start !in cuts[..k]
    {
      if cuts[k] == start { return Some(start); }
    }
    at := None;
  }

  /** Cuts a stream into its epochs. */
  method CutEpochs(es: seq<Entry>) returns (eps: seq<Epoch>)
    requires es != []
    ensures Tiles(es, eps, |es|) && eps != []
  {
    hide Tiles, EpochOk;
    NoEpochs(es);
    var cuts := Cuts(es, |es|);
    eps := [];
    var start: nat := 0;
    for k := 0 to |cuts|
      invariant start <= |es| && (k > 0 ==> start == cuts[k-1]) && (k == 0 ==> start == 0)
      invariant Tiles(es, eps, start)
      invariant start > 0 ==> IsReset(es, start)
    {
      var cut := cuts[k];
      assert cut in cuts;
      if cut == start { continue; }
      BetweenCuts(es, cuts, k, start);
      var at := FirstBoundary(start, cuts);
      TilesMore(es, eps, start, Epoch(start, cut, at));
      eps := eps + [Epoch(start, cut, at)];
      start := cut;
    }
    AfterCuts(es, cuts, start);
    var at := FirstBoundary(start, cuts);
    assert cuts != [] ==> cuts[|cuts|-1] in cuts;
    TilesMore(es, eps, start, Epoch(start, |es|, at));
    eps := eps + [Epoch(start, |es|, at)];
  }

  lemma NoEpochs(es: seq<Entry>)
    ensures Tiles(es, [], 0)
  {
  }

  lemma BetweenCuts(es: seq<Entry>, cuts: seq<nat>, k: nat, start: nat)
    requires cuts == Cuts(es, |es|) && k < |cuts| && (k > 0 ==> start == cuts[k-1]) && (k == 0 ==> start == 0)
    ensures forall i :: start < i < cuts[k] ==> !IsReset(es, i)
  {
    forall i: nat | i in cuts ensures i <= start || i >= cuts[k] {
      var j :| 0 <= j < |cuts| && cuts[j] == i;
      assert j < k ==> cuts[j] <= cuts[k-1];
    }
    forall i | start < i < cuts[k] ensures !IsReset(es, i) {
      var n: nat := i;
      assert n in cuts <==> IsReset(es, n);
    }
  }

  lemma {:induction false} AfterCuts(es: seq<Entry>, cuts: seq<nat>, start: nat)
    requires cuts == Cuts(es, |es|) && (cuts != [] ==> start == cuts[|cuts|-1]) && (cuts == [] ==> start == 0)
    ensures forall i :: start < i < |es| ==> !IsReset(es, i)
  {
    forall i: nat | i in cuts ensures i <= start {
      var j :| 0 <= j < |cuts| && cuts[j] == i;
    }
    forall i | start < i < |es| ensures !IsReset(es, i) {
      var n: nat := i;
      assert n in cuts <==> IsReset(es, n);
    }
  }

  lemma TilesMore(es: seq<Entry>, eps: seq<Epoch>, start: nat, ep: Epoch)
    requires Tiles(es, eps, start) && ep.start == start < ep.end <= |es|
    requires ep.boundary == BoundaryAt(es, start)
    requires start > 0 ==> IsReset(es, start)
    requires forall i :: start < i < ep.end ==> !IsReset(es, i)
    ensures Tiles(es, eps + [ep], ep.end)
  {
    hide BoundaryAt, IsReset;
    assert EpochOk(es, ep);
    var more := eps + [ep];
    forall k | 0 < k < |more| ensures more[k].start == more[k-1].end && IsReset(es, more[k].start) {
      assert k < |eps| ==> more[k] == eps[k] && more[k-1] == eps[k-1];
      if k == |eps| { assert more[k-1] == eps[k-1] && EpochOk(es, eps[k-1]); }
    }
  }

  /** An entry begins an epoch exactly when it is the first or a reset. */
  lemma BeginsExactly(es: seq<Entry>, eps: seq<Epoch>, i: nat)
    requires Tiles(es, eps, |es|) && i < |es|
    ensures (exists k :: 0 <= k < |eps| && eps[k].start == i) <==> i == 0 || IsReset(es, i)
    ensures exists k :: 0 <= k < |eps| && eps[k].start <= i < eps[k].end
  {
    var k := EpochOf(es, eps, i, |eps|);
    assert EpochOk(es, eps[k]);
    assert k > 0 ==> IsReset(es, eps[k].start);
  }

  /** The epoch an entry is in: there is one, and only one. */
  lemma {:induction false} EpochOf(es: seq<Entry>, eps: seq<Epoch>, i: nat, n: nat) returns (k: nat)
    requires Tiles(es, eps, |es|) && n <= |eps| && n > 0 && i < eps[n-1].end
    ensures k < n && eps[k].start <= i < eps[k].end
    ensures forall j :: 0 <= j < n && eps[j].start <= i < eps[j].end ==> j == k
    decreases n
  {
    if eps[n-1].start <= i {
      k := n - 1;
      forall j | 0 <= j < n - 1 ensures eps[j].end <= eps[n-1].start { EndsBefore(es, eps, j, n - 1); }
    } else {
      assert n > 1;
      k := EpochOf(es, eps, i, n - 1);
    }
  }

  lemma {:induction false} EndsBefore(es: seq<Entry>, eps: seq<Epoch>, j: nat, k: nat)
    requires Tiles(es, eps, |es|) && j < k < |eps|
    ensures eps[j].end <= eps[k].start
    decreases k
  {
    assert eps[k].start == eps[k-1].end && EpochOk(es, eps[k-1]);
    if j < k - 1 { EndsBefore(es, eps, j, k - 1); }
  }

  /** The id of an epoch: the stream's first, or its reset's own id, or where the reset stands. */
  function EpochId(stream: nat, es: seq<Entry>, ats: seq<nat>, ep: Epoch): NodeId
    requires |ats| == |es|
  {
    if ep.boundary.None? || ep.boundary.value >= |es| then FirstEpoch(stream)
    else if es[ep.boundary.value].record != 0 then ResetEpoch(stream, es[ep.boundary.value].record)
    else LocatedEpoch(stream, ats[ep.boundary.value])
  }

  /** An epoch is named by the reset it begins at, its record's id or where it stands, and is the first without one. */
  lemma EpochIdIs(stream: nat, es: seq<Entry>, ats: seq<nat>, eps: seq<Epoch>, k: nat)
    requires |ats| == |es| && Tiles(es, eps, |es|) && k < |eps|
    ensures eps[k].start < |es|
    ensures EpochId(stream, es, ats, eps[k]) == FirstEpoch(stream) <==> !es[eps[k].start].reset
    ensures forall r: nat :: EpochId(stream, es, ats, eps[k]) == ResetEpoch(stream, r) <==>
              (es[eps[k].start].reset && r != 0 && es[eps[k].start].record == r)
    ensures forall at: nat :: EpochId(stream, es, ats, eps[k]) == LocatedEpoch(stream, at) <==>
              (es[eps[k].start].reset && es[eps[k].start].record == 0 && ats[eps[k].start] == at)
  {
    assert EpochOk(es, eps[k]);
  }

  /** Epochs of a stream have ids of their own, when no record or position stands in it twice. */
  lemma EpochIdsDiffer(stream: nat, es: seq<Entry>, ats: seq<nat>, eps: seq<Epoch>, j: nat, k: nat)
    requires |ats| == |es| && Tiles(es, eps, |es|) && j < k < |eps|
    requires forall a, b :: 0 <= a < b < |es| ==>
               ats[a] != ats[b] && (es[a].record != 0 ==> es[a].record != es[b].record)
    ensures EpochId(stream, es, ats, eps[j]) != EpochId(stream, es, ats, eps[k])
  {
    EndsBefore(es, eps, j, k);
    assert EpochOk(es, eps[j]) && EpochOk(es, eps[k]) && IsReset(es, eps[k].start);
  }
}
