/**
 The roll-up as it runs: down from each main talk in turn, claiming streams,
 then once over the streams that are left.
 */
module RollUpWalk {
  import opened Costs
  import opened Ledger
  import opened Starters
  import opened RollUp
  import opened SubtaskForest

  /** The owners a talk reached, other than itself, have the place of the step at the top of their stream's chain. */
  ghost predicate PlacesRight(d: Doc, t: string, owners: seq<Owner>, at: map<Owner, nat>) {
    && (forall o :: o in at <==> o in owners && o != Talk(t))
    && (forall o :: o in at ==> HasPlace(d, StreamOf(d, o), t, at[o]))
  }

  ghost predicate HasPlace(d: Doc, s: string, t: string, place: nat) {
    exists k :: PlacedAt(d, s, t, k, place)
  }

  lemma ChildHasPlace(d: Doc, t: string, o: Owner, c: Child, place: nat)
    requires RightChild(d, o, c)
    requires if o == Talk(t) then place == OrderOf(d, c.step) else HasPlace(d, StreamOf(d, o), t, place)
    ensures HasPlace(d, c.name, t, place)
  {
    hide StartedBy, Starter;
    if o == Talk(t) {
      assert PlacedAt(d, c.name, t, 1, place);
    } else {
      var k: nat :| PlacedAt(d, StreamOf(d, o), t, k, place);
      assert PlacedAt(d, c.name, t, k + 1, place);
    }
  }

  lemma AtMostOwners(os: seq<Owner>, all: seq<Owner>)
    requires Distinct(os) && forall o :: o in os ==> o in all
    ensures |os| <= |all|
  {
    var a, b := set o | o in os, set o | o in all;
    DistinctSize(os);
    SubsetSmaller(a, b);
    SizeAtMost(all);
  }

  lemma {:induction false} DistinctSize<T>(s: seq<T>)
    requires Distinct(s)
    ensures |set x | x in s| == |s|
  {
    if s != [] {
      var n := |s| - 1;
      DistinctSize(s[..n]);
      assert s == s[..n] + [s[n]];
      assert (set x | x in s) == (set x | x in s[..n]) + {s[n]};
      assert s[n] !in s[..n];
    }
  }

  lemma {:induction false} SizeAtMost<T>(s: seq<T>)
    ensures |set x | x in s| <= |s|
  {
    if s != [] {
      var n := |s| - 1;
      SizeAtMost(s[..n]);
      assert s == s[..n] + [s[n]];
      assert (set x | x in s) == (set x | x in s[..n]) + {s[n]};
    }
  }

  /** The sub-task of a stream that belongs to t is placed under t. */
  lemma ParentPlaced(d: Doc, callsOf: map<Owner, seq<nat>>, st: Subtask, t: string)
    requires Ready(d) && t in d.main && Right(d, callsOf, st) && BelongsTo(d, st.name, t)
    ensures Reaches(d, st.name, t, st.depth)
  {
    assert PlacedRight(d, st);
    assert BelongsTo(d, st.name, st.main.value);
    OneTalk(d, st.name, t, st.main.value);
  }

  /** A child of t, or of a stream placed under t, is placed one step deeper. */
  lemma ChildPlaced(d: Doc, callsOf: map<Owner, seq<nat>>, t: string, o: Owner, c: Child, depth: nat)
    requires Ready(d) && t in d.main && RightChild(d, o, c)
    requires if o == Talk(t) then depth == 1 else depth > 1 && Reaches(d, StreamOf(d, o), t, depth - 1)
    ensures Right(d, callsOf, Subtask(c.name, Some(t), if o == Talk(t) then OfTalk(t) else OfStream(StreamOf(d, o)),
                                      Some(c.step), depth, [], Placed, OwnCalls(d, callsOf, c.name)))
  {
    hide StartedBy, OwnCalls;
    assert Reaches(d, c.name, t, depth);
    if o != Talk(t) {
      var k: nat := depth - 1;
      assert BelongsTo(d, StreamOf(d, o), t);
      NotMainTalk(d, o, t);
    }
  }

  lemma NotMainTalk(d: Doc, o: Owner, t: string)
    requires Ready(d) && BelongsTo(d, StreamOf(d, o), t)
    ensures !IsMain(d, o)
  {
    MainIsNobodys(d, t);
  }

  lemma ClosedGrows(d: Doc, members: set<string>, s: string)
    requires Closed(d, members) && (ParentOf(d, s).OfStream? ==> ParentOf(d, s).name in members)
    ensures Closed(d, members + {s})
  {
    hide ParentOf;
  }

  /** While streams are claimed, the sub-tasks are those of the claimed streams. */
  ghost predicate State(d: Doc, callsOf: map<Owner, seq<nat>>, claimed: set<string>, subtasks: seq<Subtask>,
                        index: map<string, nat>) {
    && Ready(d) && Forest(d, callsOf, subtasks, index, claimed)
    && index.Keys == claimed && Closed(d, claimed)
  }

  /** A ledger being rolled up. */
  class Roller {
    const d: Doc
    const callsOf: map<Owner, seq<nat>>
    var claimed: set<string>
    var subtasks: seq<Subtask>
    var index: map<string, nat>

    ghost predicate Valid()
      reads this
    {
      State(d, callsOf, claimed, subtasks, index)
    }

    constructor (d: Doc, callsOf: map<Owner, seq<nat>>)
      requires Ready(d)
      ensures Valid() && this.d == d && this.callsOf == callsOf && claimed == {} && subtasks == []
    {
      this.d, this.callsOf := d, callsOf;
      claimed, subtasks, index := {}, [], map[];
    }

    /** Claims a stream for main talk t, as a sub-task of the talk or of the stream whose owner o starts it. */
    method PlaceChild(t: string, o: Owner, c: Child)
      requires Valid() && t in d.main && RightChild(d, o, c) && c.name !in claimed
      requires o == Talk(t) || (BelongsTo(d, StreamOf(d, o), t) && StreamOf(d, o) in claimed)
      modifies this
      ensures Valid() && claimed == old(claimed) + {c.name}
    {
      hide State, RightChild, BelongsTo, Reaches, OwnCalls, Adopted, Indexed, Ready;
      var depth: nat := 1;
      var parent := OfTalk(t);
      StateIndexed(d, callsOf, claimed, subtasks, index);
      if o != Talk(t) {
        var p := StreamOf(d, o);
        ParentDepth(d, callsOf, claimed, subtasks, index, p, t);
        depth := subtasks[index[p]].depth + 1;
        parent := OfStream(p);
      }
      var st := Subtask(c.name, Some(t), parent, Some(c.step), depth, [], Placed, OwnCalls(d, callsOf, c.name));
      PlacingKeeps(d, callsOf, claimed, subtasks, index, t, o, c, st);
      index := index[c.name := |subtasks|];
      subtasks := subtasks + [st];
      subtasks := Adopted(subtasks, index, parent, c.name);
      claimed := claimed + {c.name};
    }

    /** Reads one owner's children: each not yet claimed is claimed, and its stream's owners join the list. */
    method ReadChildren(n: nat, ghost before: set<string>, kids: map<Owner, seq<Child>>, owners0: seq<Owner>,
                        at0: map<Owner, nat>, i: nat)
      returns (owners: seq<Owner>, at: map<Owner, nat>, agents: nat)
      requires State(d, callsOf, claimed, subtasks, index) && ChildrenFound(d, kids) && n < |d.main| && i < |owners0|
      requires Worked(d, d.main[n], before, claimed, owners0, i) && PlacesRight(d, d.main[n], owners0, at0)
      modifies this
      ensures State(d, callsOf, claimed, subtasks, index)
      ensures Worked(d, d.main[n], before, claimed, owners, i + 1) && PlacesRight(d, d.main[n], owners, at)
      ensures |claimed| == |old(claimed)| + agents && old(claimed) <= claimed
    {
      hide State, ChildrenFound, Worked, PlacesRight, RightChild, OwnersOfStream, Ready, BelongsTo;
      var t := d.main[n];
      owners, at, agents := owners0, at0, 0;
      var o := owners0[i];
      var cs := Get(kids, o);
      WorkBounds(d, t, before, claimed, owners, i);
      for j := 0 to |cs|
        invariant State(d, callsOf, claimed, subtasks, index)
        invariant Worked(d, t, before, claimed, owners, i) && PlacesRight(d, t, owners, at)
        invariant i < |owners| && owners[i] == o
        invariant forall x :: 0 <= x < j ==> cs[x].name in claimed
        invariant |claimed| == |old(claimed)| + agents && old(claimed) <= claimed
      {
        var c := cs[j];
        if c.name in claimed { continue; }
        owners, at := ReadChild(n, before, kids, owners, at, i, c);
        agents := agents + 1;
      }
      forall c | c in cs ensures c.name in claimed { }
      WorkMovesOn(d, kids, t, before, claimed, owners, i);
    }

    /** Claims one child of the owner at i. */
    method ReadChild(n: nat, ghost before: set<string>, kids: map<Owner, seq<Child>>, owners0: seq<Owner>,
                     at0: map<Owner, nat>, i: nat, c: Child)
      returns (owners: seq<Owner>, at: map<Owner, nat>)
      requires State(d, callsOf, claimed, subtasks, index) && ChildrenFound(d, kids) && n < |d.main| && i < |owners0|
      requires Worked(d, d.main[n], before, claimed, owners0, i) && PlacesRight(d, d.main[n], owners0, at0)
      requires c in Get(kids, owners0[i]) && c.name !in claimed
      modifies this
      ensures State(d, callsOf, claimed, subtasks, index) && claimed == old(claimed) + {c.name}
      ensures Worked(d, d.main[n], before, claimed, owners, i) && PlacesRight(d, d.main[n], owners, at)
      ensures i < |owners| && owners[i] == owners0[i]
    {
      hide State, ChildrenFound, Worked, PlacesRight, RightChild, OwnersOfStream, Ready, BelongsTo, Get;
      var t := d.main[n];
      var o := owners0[i];
      StateIndexed(d, callsOf, claimed, subtasks, index);
      WorkBounds(d, t, before, claimed, owners0, i);
      ChildIsRight(d, kids, o, c);
      ChildBelongsHere(d, n, before, claimed, owners0, i, c);
      ClaimKeepsWork(d, t, before, claimed, owners0, i, c.name);
      var place := OrderOf(d, c.step);
      if o != Talk(t) {
        PlaceKnown(d, t, owners0, at0, i);
        place := at0[o];
      }
      ChildIsPlaced(d, t, owners0, at0, o, c, place);
      PlaceChild(t, o, c);
      var more := OwnersOfStream(d, d.owners, c.name);
      owners, at := Visit(more, place, owners0, at0);
      assert owners0[0] in owners0;
      PlacesGrow(d, t, owners0, at0, c.name, place, owners, at);
    }

    /** Adds the owners not yet visited, each at this place. */
    method Visit(more: seq<Owner>, place: nat, owners0: seq<Owner>, at0: map<Owner, nat>)
      returns (owners: seq<Owner>, at: map<Owner, nat>)
      requires Distinct(more) && forall o :: o in more ==> o !in owners0
      ensures owners == owners0 + more
      ensures forall o :: o in at <==> o in at0 || o in more
      ensures forall o :: o in at ==> at[o] == if o in more then place else at0[o]
    {
      owners, at := owners0, at0;
      for k := 0 to |more|
        invariant owners == owners0 + more[..k]
        invariant forall o :: o in at <==> o in at0 || o in more[..k]
        invariant forall o :: o in at ==> at[o] == if o in more[..k] then place else at0[o]
      {
        var o := more[k];
        if o !in owners {
          at := at[o := place];
          owners := owners + [o];
        }
      }
    }

    /** Runs the worklist of main talk n. */
    method RollTalk(n: nat, kids: map<Owner, seq<Child>>) returns (owners: seq<Owner>, at: map<Owner, nat>, agents: nat)
      requires Valid() && ChildrenFound(d, kids) && n < |d.main| && Claimed(d, claimed, n)
      modifies this
      ensures Valid() && Claimed(d, claimed, n + 1)
      ensures OwnersReached(d, d.main[n], owners) && PlacesRight(d, d.main[n], owners, at)
      ensures |claimed| == |old(claimed)| + agents
    {
      hide State, ChildrenFound, Worked, PlacesRight, Ready, Claimed, OwnersReached;
      StateIndexed(d, callsOf, claimed, subtasks, index);
      var t := d.main[n];
      owners, at, agents := [Talk(t)], map[], 0;
      WorkBegins(d, t, claimed);
      NoPlacesYet(d, t);
      var i: nat := 0;
      while i < |owners|
        invariant State(d, callsOf, claimed, subtasks, index)
        invariant Worked(d, t, old(claimed), claimed, owners, i) && PlacesRight(d, t, owners, at)
        invariant i <= |owners| && |claimed| == |old(claimed)| + agents
        decreases |d.owners| - i
      {
        WorkBounds(d, t, old(claimed), claimed, owners, i);
        var more: nat;
        owners, at, more := ReadChildren(n, old(claimed), kids, owners, at, i);
        agents := agents + more;
        i := i + 1;
        WorkBounds(d, t, old(claimed), claimed, owners, i);
      }
      StateIndexed(d, callsOf, claimed, subtasks, index);
      WorkReached(d, n, old(claimed), claimed, owners);
    }

    /** Runs every main talk's worklist, in order. */
    method RollTalks(kids: map<Owner, seq<Child>>)
      returns (ownersOf: map<string, seq<Owner>>, places: map<string, map<Owner, nat>>, agents: map<string, nat>)
      requires Valid() && claimed == {} && ChildrenFound(d, kids)
      modifies this
      ensures Valid() && Claimed(d, claimed, |d.main|)
      ensures TalksReached(d, ownersOf, places, |d.main|) && agents.Keys == ownersOf.Keys
    {
      hide State, ChildrenFound, Claimed, OwnersReached, PlacesRight, Ready, TalksReached;
      NoTalksYet(d);
      ownersOf, places, agents := map[], map[], map[];
      NothingClaimed(d);
      StateIndexed(d, callsOf, claimed, subtasks, index);
      for n := 0 to |d.main|
        invariant Valid() && Claimed(d, claimed, n)
        invariant TalksReached(d, ownersOf, places, n) && agents.Keys == ownersOf.Keys
      {
        var t := d.main[n];
        var owners, at, more := RollTalk(n, kids);
        StateIndexed(d, callsOf, claimed, subtasks, index);
        TalksGrow(d, ownersOf, places, n, owners, at);
        ownersOf, places, agents := ownersOf[t := owners], places[t := at], agents[t := more];
      }
    }

    /** Makes a sub-task of a stream no main talk reached, with the reason. */
    method KeepUnplaced(starters: map<string, map<Owner, string>>, s: string, ghost kept: set<string>)
      requires Kept(d, callsOf, claimed, subtasks, index, kept)
      requires StartersFound(d, starters) && s !in claimed && s !in kept
      modifies this`subtasks, this`index
      ensures Kept(d, callsOf, claimed, subtasks, index, kept + {s})
    {
      hide StartersFound, StartedBy, Starter, Kept, OwnCalls, UnplacedRight;
      KeptIndexed(d, callsOf, claimed, subtasks, index, kept);
      var from := Starters.Under(starters, s);
      var st := Subtask(s, None, Nobody, None, 0, [], Several, OwnCalls(d, callsOf, s));
      SoleWhenOne(d, starters, s);
      if from == map[] {
        st := st.(reason := NoStarter);
      } else if |from| == 1 {
        var o :| o in from;
        OneKey(from, o);
        FoundIs(d, starters, s, o);
        st := st.(reason := ParentUnplaced, startedBy := Some(from[o]), parent := OfStream(StreamOf(d, o)));
      }
      EmptyMap(from);
      UnplacedIsRight(d, claimed, st, from);
      KeepingKeeps(d, callsOf, claimed, subtasks, index, kept, st);
      index := index[s := |subtasks|];
      subtasks := subtasks + [st];
    }

    /** Keeps every stream but the main one that no main talk reached. */
    method KeepAllUnplaced(starters: map<string, map<Owner, string>>)
      requires Valid() && Claimed(d, claimed, |d.main|) && StartersFound(d, starters)
      modifies this`subtasks, this`index
      ensures Kept(d, callsOf, claimed, subtasks, index, OtherStreams(d) - claimed)
    {
      hide StartersFound, Kept, Claimed, Ready, State, OthersBefore;
      NothingKept(d, callsOf, claimed, subtasks, index);
      assert OthersBefore(d, 0) - claimed == {} by { NoOthersYet(d); }
      for n := 0 to |d.streams|
        invariant Kept(d, callsOf, claimed, subtasks, index, OthersBefore(d, n) - claimed)
      {
        var s := d.streams[n];
        ghost var kept := OthersBefore(d, n) - claimed;
        KeptReady(d, callsOf, claimed, subtasks, index, kept);
        StreamOnce(d, n);
        if s != MAIN && s !in claimed {
          KeepUnplaced(starters, s, kept);
          assert OthersBefore(d, n + 1) - claimed == kept + {s};
        } else {
          assert OthersBefore(d, n + 1) - claimed == kept;
        }
      }
    }

    /** Gives each sub-task whose one parent is unplaced to that parent. */
    method AdoptUnplaced(ghost kept: set<string>)
      requires Kept(d, callsOf, claimed, subtasks, index, kept)
      modifies this`subtasks
      ensures Forest(d, callsOf, subtasks, index, claimed + set s | s in kept && Starter(d, s).Some?)
    {
      hide Kept, Forest, Starter, Adopting, Indexed, Adopted;
      ghost var first := subtasks;
      AdoptingBegins(d, callsOf, claimed, first, index, kept);
      for i := 0 to |subtasks|
        invariant |subtasks| == |first| && Adopting(d, callsOf, claimed, first, subtasks, index, i)
      {
        AdoptingStep(d, callsOf, claimed, first, subtasks, index, kept, i);
        if subtasks[i].reason == ParentUnplaced {
          subtasks := Adopted(subtasks, index, subtasks[i].parent, subtasks[i].name);
        }
      }
      AdoptingEnds(d, callsOf, claimed, first, subtasks, index, kept);
    }
  }

  /** Of the sub-tasks there were, the first i unplaced ones with a starter are their parents' children. */
  ghost predicate Adopting(d: Doc, callsOf: map<Owner, seq<nat>>, claimed: set<string>, first: seq<Subtask>,
                           subtasks: seq<Subtask>, index: map<string, nat>, i: nat) {
    && i <= |first| == |subtasks|
    && Forest(d, callsOf, subtasks, index, claimed + Orphans(first, i))
    && (forall k :: 0 <= k < |first| ==> subtasks[k] == first[k].(children := subtasks[k].children))
  }

  lemma AdoptingBegins(d: Doc, callsOf: map<Owner, seq<nat>>, claimed: set<string>, subtasks: seq<Subtask>,
                       index: map<string, nat>, kept: set<string>)
    requires Kept(d, callsOf, claimed, subtasks, index, kept)
    ensures Adopting(d, callsOf, claimed, subtasks, subtasks, index, 0)
    ensures Indexed(subtasks, index)
  {
    hide Forest;
    KeptIndexed(d, callsOf, claimed, subtasks, index, kept);
    NoOrphansYet(subtasks);
    assert claimed + Orphans(subtasks, 0) == claimed;
  }

  lemma {:induction false} AdoptingStep(d: Doc, callsOf: map<Owner, seq<nat>>, claimed: set<string>,
                                        first: seq<Subtask>, subtasks: seq<Subtask>, index: map<string, nat>,
                                        kept: set<string>, i: nat)
    requires Kept(d, callsOf, claimed, first, index, kept) && i < |first|
    requires Adopting(d, callsOf, claimed, first, subtasks, index, i)
    ensures Indexed(subtasks, index)
    ensures Adopting(d, callsOf, claimed, first,
                     if subtasks[i].reason == ParentUnplaced
                     then Adopted(subtasks, index, subtasks[i].parent, subtasks[i].name) else subtasks,
                     index, i + 1)
  {
    hide Forest, Kept, Right, Orphans, Adopted, Indexed;
    var members := claimed + Orphans(first, i);
    OrphanStep(d, callsOf, claimed, first, index, kept, i);
    ForestIndexed(d, callsOf, subtasks, index, members);
    if subtasks[i].reason == ParentUnplaced {
      UnplacedParent(d, callsOf, subtasks, index, members, i);
      AdoptedRight(d, callsOf, subtasks, index, members, subtasks[i].name);
      assert claimed + Orphans(first, i + 1) == members + {subtasks[i].name};
    } else {
      assert claimed + Orphans(first, i + 1) == members;
    }
  }

  lemma {:induction false} AdoptingEnds(d: Doc, callsOf: map<Owner, seq<nat>>, claimed: set<string>,
                                        first: seq<Subtask>, subtasks: seq<Subtask>, index: map<string, nat>,
                                        kept: set<string>)
    requires Kept(d, callsOf, claimed, first, index, kept)
    requires Adopting(d, callsOf, claimed, first, subtasks, index, |first|)
    ensures Forest(d, callsOf, subtasks, index, claimed + set s | s in kept && Starter(d, s).Some?)
  {
    hide Forest, Starter;
    KeptStarters(d, callsOf, claimed, first, index, kept);
  }

  /** The unplaced streams, among the first n sub-tasks, that one owner started. */
  function Orphans(subtasks: seq<Subtask>, n: nat): set<string>
    requires n <= |subtasks|
  {
    set k | 0 <= k < n && subtasks[k].reason == ParentUnplaced :: subtasks[k].name
  }

  lemma NoOrphansYet(subtasks: seq<Subtask>)
    ensures Orphans(subtasks, 0) == {}
  {
  }

  lemma OrphanStep(d: Doc, callsOf: map<Owner, seq<nat>>, claimed: set<string>, subtasks: seq<Subtask>,
                   index: map<string, nat>, kept: set<string>, i: nat)
    requires Kept(d, callsOf, claimed, subtasks, index, kept) && i < |subtasks|
    ensures Orphans(subtasks, i + 1) == Orphans(subtasks, i) + if subtasks[i].reason ==
              ParentUnplaced then {subtasks[i].name} else {}
    ensures subtasks[i].reason == ParentUnplaced ==> subtasks[i].name !in claimed + Orphans(subtasks, i)
  {
    hide Forest, Claimed, Closed, Ready;
    KeptIndexed(d, callsOf, claimed, subtasks, index, kept);
    KeptOne(d, callsOf, claimed, subtasks, index, kept, i);
  }

  // ---------------------------------------------------------------------
  // All the main talks.
  // ---------------------------------------------------------------------

  /** The first n main talks have their owners and places. */
  ghost predicate TalksReached(d: Doc, ownersOf: map<string, seq<Owner>>, places: map<string, map<Owner, nat>>,
                               n: nat) {
    && n <= |d.main| && ownersOf.Keys == places.Keys
    && (forall t :: t in ownersOf <==> t in d.main[..n])
    && (forall t :: t in ownersOf ==> OwnersReached(d, t, ownersOf[t]))
    && (forall t :: t in ownersOf ==> PlacesRight(d, t, ownersOf[t], places[t]))
  }

  lemma NothingClaimed(d: Doc)
    ensures Claimed(d, {}, 0)
  {
  }

  lemma NoTalksYet(d: Doc)
    ensures TalksReached(d, map[], map[], 0)
  {
  }

  lemma TalksGrow(d: Doc, ownersOf: map<string, seq<Owner>>, places: map<string, map<Owner, nat>>, n: nat,
                  owners: seq<Owner>, at: map<Owner, nat>)
    requires n < |d.main| && TalksReached(d, ownersOf, places, n)
    requires OwnersReached(d, d.main[n], owners) && PlacesRight(d, d.main[n], owners, at)
    ensures TalksReached(d, ownersOf[d.main[n] := owners], places[d.main[n] := at], n + 1)
  {
    hide OwnersReached, PlacesRight;
    assert d.main[..n+1] == d.main[..n] + [d.main[n]];
  }

  lemma StreamOnce(d: Doc, n: nat)
    requires Ready(d) && n < |d.streams|
    ensures OthersBefore(d, n + 1) == OthersBefore(d, n) + if d.streams[n] == MAIN then {} else {d.streams[n]}
    ensures d.streams[n] !in OthersBefore(d, n)
  {
  }

  lemma NoOthersYet(d: Doc)
    ensures OthersBefore(d, 0) == {}
  {
  }

  /** The streams but the main one, of the first n. */
  function OthersBefore(d: Doc, n: nat): set<string>
    requires n <= |d.streams|
  {
    set k | 0 <= k < n && d.streams[k] != MAIN :: d.streams[k]
  }

  function OtherStreams(d: Doc): set<string> {
    OthersBefore(d, |d.streams|)
  }

  // ---------------------------------------------------------------------
  // The streams no main talk reached.
  // ---------------------------------------------------------------------

  /** Beside the claimed streams' sub-tasks there are the unplaced ones of these streams. */
  ghost predicate Kept(d: Doc, callsOf: map<Owner, seq<nat>>, claimed: set<string>, subtasks: seq<Subtask>,
                       index: map<string, nat>, kept: set<string>) {
    && Ready(d) && Claimed(d, claimed, |d.main|) && Closed(d, claimed)
    && Forest(d, callsOf, subtasks, index, claimed)
    && index.Keys == claimed + kept && claimed !! kept
  }

  lemma NothingKept(d: Doc, callsOf: map<Owner, seq<nat>>, claimed: set<string>, subtasks: seq<Subtask>,
                    index: map<string, nat>)
    requires State(d, callsOf, claimed, subtasks, index) && Claimed(d, claimed, |d.main|)
    ensures Kept(d, callsOf, claimed, subtasks, index, {})
  {
  }

  lemma KeptIndexed(d: Doc, callsOf: map<Owner, seq<nat>>, claimed: set<string>, subtasks: seq<Subtask>,
                    index: map<string, nat>, kept: set<string>)
    requires Kept(d, callsOf, claimed, subtasks, index, kept)
    ensures Ready(d) && Indexed(subtasks, index) && Forest(d, callsOf, subtasks, index, claimed)
    ensures Claimed(d, claimed, |d.main|) && index.Keys == claimed + kept
  {
  }

  lemma KeptReady(d: Doc, callsOf: map<Owner, seq<nat>>, claimed: set<string>, subtasks: seq<Subtask>,
                  index: map<string, nat>, kept: set<string>)
    requires Kept(d, callsOf, claimed, subtasks, index, kept)
    ensures Ready(d)
  {
  }

  lemma EmptyMap<K, V>(m: map<K, V>)
    ensures m == map[] <==> |m| == 0
  {
    if |m| == 0 { assert m.Keys == {}; assert forall k :: k in m ==> k in m.Keys; }
  }

  lemma NotReached(d: Doc, claimed: set<string>, s: string)
    requires Ready(d) && Claimed(d, claimed, |d.main|) && s !in claimed
    ensures forall t :: t in d.main ==> !BelongsTo(d, s, t)
    ensures Starter(d, s).Some? ==> !IsMain(d, Starter(d, s).value)
  {
    hide Starter;
    if Starter(d, s).Some? && IsMain(d, Starter(d, s).value) {
      StartedByMain(d, s, Starter(d, s).value.id);
    }
  }

  lemma StartedByMain(d: Doc, s: string, t: string)
    requires Starter(d, s) == Some(Talk(t))
    ensures BelongsTo(d, s, t)
  {
    assert Reaches(d, s, t, 1);
  }

  lemma ClaimedBelongs(d: Doc, claimed: set<string>, s: string)
    requires Claimed(d, claimed, |d.main|) && s in claimed
    ensures exists t :: t in d.main && BelongsTo(d, s, t)
  {
    var j :| 0 <= j < |d.main| && BelongsTo(d, s, d.main[j]);
    assert d.main[j] in d.main;
  }

  lemma UnplacedIsRight(d: Doc, claimed: set<string>, st: Subtask, from: map<Owner, string>)
    requires Ready(d) && Claimed(d, claimed, |d.main|) && st.name !in claimed
    requires st.main.None? && st.depth == 0 && st.reason != Placed
    requires Starter(d, st.name).Some? <==> |from| == 1
    requires from == map[] <==> !HasStarter(d, st.name)
    requires from == map[] <==> |from| == 0
    requires st.reason == if from == map[] then NoStarter else if |from| == 1 then ParentUnplaced else Several
    requires if |from| == 1 then
               st.startedBy.Some? && StartedBy(d, st.name, Starter(d, st.name).value, st.startedBy.value)
               && st.parent == OfStream(StreamOf(d, Starter(d, st.name).value))
             else st.startedBy.None? && st.parent == Nobody
    ensures UnplacedRight(d, st)
  {
    hide StartedBy, Starter, BelongsTo, HasStarter;
    NotReached(d, claimed, st.name);
  }

  lemma KeepingKeeps(d: Doc, callsOf: map<Owner, seq<nat>>, claimed: set<string>, subtasks: seq<Subtask>,
                     index: map<string, nat>, kept: set<string>, st: Subtask)
    requires Kept(d, callsOf, claimed, subtasks, index, kept)
    requires st.name !in claimed && st.name !in kept && st.children == []
    requires UnplacedRight(d, st) && st.reason != Placed && st.own == OwnCalls(d, callsOf, st.name)
    ensures Kept(d, callsOf, claimed, subtasks + [st], index[st.name := |subtasks|], kept + {st.name})
  {
    hide Forest, UnplacedRight, Closed, Claimed, Ready, ParentOf, OwnCalls;
    NoneStartedYet(d, claimed, st.name);
    ForestGrows(d, callsOf, subtasks, index, claimed, st);
  }

  lemma KeptOne(d: Doc, callsOf: map<Owner, seq<nat>>, claimed: set<string>, subtasks: seq<Subtask>, index: map<string,
                nat>, kept: set<string>, i: nat)
    requires Kept(d, callsOf, claimed, subtasks, index, kept) && i < |subtasks|
    ensures subtasks[i].reason != Placed ==> subtasks[i].name in kept
    ensures subtasks[i].reason == Placed ==> subtasks[i].name in claimed
    ensures subtasks[i].reason == ParentUnplaced ==> Starter(d, subtasks[i].name).Some?
    ensures subtasks[i].name in kept && Starter(d, subtasks[i].name).Some? ==> subtasks[i].reason == ParentUnplaced
  {
    hide Starter, StartedBy, Reaches, Closed;
    var st := subtasks[i];
    assert Right(d, callsOf, st);
    if st.reason == Placed {
      assert BelongsTo(d, st.name, st.main.value);
    } else if st.name in claimed {
      ClaimedBelongs(d, claimed, st.name);
    }
  }

  lemma UnplacedParent(d: Doc, callsOf: map<Owner, seq<nat>>, subtasks: seq<Subtask>, index: map<string, nat>,
                       members: set<string>, i: nat)
    requires Forest(d, callsOf, subtasks, index, members) && i < |subtasks| && subtasks[i].reason == ParentUnplaced
    ensures subtasks[i].parent == ParentOf(d, subtasks[i].name)
  {
    hide ParentOf, StartedBy;
    assert Right(d, callsOf, subtasks[i]);
  }

  lemma KeptStarters(d: Doc, callsOf: map<Owner, seq<nat>>, claimed: set<string>, subtasks: seq<Subtask>,
                     index: map<string, nat>, kept: set<string>)
    requires Kept(d, callsOf, claimed, subtasks, index, kept)
    ensures Orphans(subtasks, |subtasks|) == set s | s in kept && Starter(d, s).Some?
  {
    hide Starter;
    KeptIndexed(d, callsOf, claimed, subtasks, index, kept);
    var a := Orphans(subtasks, |subtasks|);
    forall s | s in a ensures s in kept && Starter(d, s).Some? {
      var k :| 0 <= k < |subtasks| && subtasks[k].reason == ParentUnplaced && subtasks[k].name == s;
      KeptOne(d, callsOf, claimed, subtasks, index, kept, k);
    }
    forall s | s in kept && Starter(d, s).Some? ensures s in a {
      KeptOne(d, callsOf, claimed, subtasks, index, kept, index[s]);
    }
  }

  lemma WorkBounds(d: Doc, t: string, before: set<string>, claimed: set<string>, owners: seq<Owner>, i: nat)
    requires Worked(d, t, before, claimed, owners, i)
    ensures i <= |owners| <= |d.owners| && owners[0] == Talk(t)
    ensures forall k :: 0 < k < |owners| ==> owners[k] != Talk(t)
  {
    AtMostOwners(owners, d.owners);
  }

  lemma ChildIsRight(d: Doc, kids: map<Owner, seq<Child>>, o: Owner, c: Child)
    requires ChildrenFound(d, kids) && c in Get(kids, o)
    ensures RightChild(d, o, c) && Starter(d, c.name) == Some(o)
  {
  }

  lemma ChildBelongsHere(d: Doc, n: nat, before: set<string>, claimed: set<string>, owners: seq<Owner>, i: nat,
                         c: Child)
    requires Ready(d) && n < |d.main| && Worked(d, d.main[n], before, claimed, owners, i) && i < |owners|
    ensures owners[i] == Talk(d.main[n]) || (BelongsTo(d, StreamOf(d, owners[i]), d.main[n])
                                             && StreamOf(d, owners[i]) in claimed)
  {
    hide BelongsTo;
    assert owners[i] in owners;
  }

  lemma PlaceKnown(d: Doc, t: string, owners: seq<Owner>, at: map<Owner, nat>, i: nat)
    requires PlacesRight(d, t, owners, at) && i < |owners| && owners[i] != Talk(t)
    ensures owners[i] in at && HasPlace(d, StreamOf(d, owners[i]), t, at[owners[i]])
  {
  }

  lemma ChildIsPlaced(d: Doc, t: string, owners: seq<Owner>, at: map<Owner, nat>, o: Owner, c: Child, place: nat)
    requires RightChild(d, o, c)
    requires if o == Talk(t) then place == OrderOf(d, c.step) else HasPlace(d, StreamOf(d, o), t, place)
    ensures HasPlace(d, c.name, t, place)
  {
    hide HasPlace;
    ChildHasPlace(d, t, o, c, place);
  }

  lemma PlacesGrow(d: Doc, t: string, owners: seq<Owner>, at: map<Owner, nat>, s: string, place: nat,
                   owners1: seq<Owner>, at1: map<Owner, nat>)
    requires PlacesRight(d, t, owners, at) && HasPlace(d, s, t, place)
    requires owners1 == owners + OwnersOfStream(d, d.owners, s)
    requires forall o :: o in at1 <==> o in at || o in OwnersOfStream(d, d.owners, s)
    requires forall o :: o in at1 ==> at1[o] == if o in OwnersOfStream(d, d.owners, s) then place else at[o]
    requires Talk(t) in owners && forall o :: o in OwnersOfStream(d, d.owners, s) ==> o !in owners
    ensures PlacesRight(d, t, owners1, at1)
  {
    hide HasPlace;
  }

  lemma NoPlacesYet(d: Doc, t: string)
    ensures PlacesRight(d, t, [Talk(t)], map[])
  {
  }

  lemma StateIndexed(d: Doc, callsOf: map<Owner, seq<nat>>, claimed: set<string>, subtasks: seq<Subtask>,
                     index: map<string, nat>)
    requires State(d, callsOf, claimed, subtasks, index)
    ensures Ready(d) && Indexed(subtasks, index) && index.Keys == claimed
  {
  }

  /** A stream that belongs to t is at its depth under t. */
  lemma ParentDepth(d: Doc, callsOf: map<Owner, seq<nat>>, claimed: set<string>, subtasks: seq<Subtask>,
                    index: map<string, nat>, p: string, t: string)
    requires State(d, callsOf, claimed, subtasks, index)
    requires t in d.main && BelongsTo(d, p, t) && p in claimed
    ensures p in index && index[p] < |subtasks| && subtasks[index[p]].depth > 0
    ensures Reaches(d, p, t, subtasks[index[p]].depth)
  {
    hide Right, Reaches;
    OneRight(d, callsOf, subtasks, index, claimed, p);
    ParentPlaced(d, callsOf, subtasks[index[p]], t);
    ReachesSomewhere(d, p, t, subtasks[index[p]].depth);
  }

  lemma {:induction false} PlacingKeeps(d: Doc, callsOf: map<Owner, seq<nat>>, claimed: set<string>,
                                        subtasks: seq<Subtask>, index: map<string, nat>,
                     t: string, o: Owner, c: Child, st: Subtask)
    requires State(d, callsOf, claimed, subtasks, index)
    requires t in d.main && RightChild(d, o, c) && c.name !in claimed
    requires o == Talk(t) || (BelongsTo(d, StreamOf(d, o), t) && StreamOf(d, o) in claimed)
    requires if o == Talk(t) then st.depth == 1 else st.depth > 1 && Reaches(d, StreamOf(d, o), t, st.depth - 1)
    requires st == Subtask(c.name, Some(t), if o == Talk(t) then OfTalk(t) else OfStream(StreamOf(d, o)),
                           Some(c.step), st.depth, [], Placed, OwnCalls(d, callsOf, c.name))
    ensures Indexed(subtasks + [st], index[c.name := |subtasks|])
    ensures State(d, callsOf, claimed + {c.name},
                  Adopted(subtasks + [st], index[c.name := |subtasks|], st.parent, c.name), index[c.name := |subtasks|])
  {
    hide StartedBy, Starter, Forest, ChildrenAre, Closed, Right, ParentOf, BelongsTo, Reaches, OwnCalls, Ready, Indexed;
    ChildPlaced(d, callsOf, t, o, c, st.depth);
    ParentIs(d, t, o, c);
    NoneStartedYet(d, claimed, c.name);
    ForestGrows(d, callsOf, subtasks, index, claimed, st);
    ForestIndexed(d, callsOf, subtasks + [st], index[c.name := |subtasks|], claimed);
    AdoptedRight(d, callsOf, subtasks + [st], index[c.name := |subtasks|], claimed, c.name);
    ClosedGrows(d, claimed, c.name);
  }

  lemma ForestIndexed(d: Doc, callsOf: map<Owner, seq<nat>>, subtasks: seq<Subtask>, index: map<string, nat>,
                      members: set<string>)
    requires Forest(d, callsOf, subtasks, index, members)
    ensures Indexed(subtasks, index)
  {
  }

  lemma OneRight(d: Doc, callsOf: map<Owner, seq<nat>>, subtasks: seq<Subtask>, index: map<string, nat>,
                 members: set<string>, p: string)
    requires Forest(d, callsOf, subtasks, index, members) && p in index
    ensures index[p] < |subtasks| && subtasks[index[p]].name == p
    ensures Right(d, callsOf, subtasks[index[p]]) && ChildrenAre(d, subtasks[index[p]], members)
  {
    hide Right, ChildrenAre;
  }

  lemma ReachesSomewhere(d: Doc, s: string, t: string, k: nat)
    requires Reaches(d, s, t, k)
    ensures k > 0
  {
  }

  lemma ParentIs(d: Doc, t: string, o: Owner, c: Child)
    requires Ready(d) && t in d.main && RightChild(d, o, c)
    requires o == Talk(t) || BelongsTo(d, StreamOf(d, o), t)
    ensures ParentOf(d, c.name) == if o == Talk(t) then OfTalk(t) else OfStream(StreamOf(d, o))
  {
    if o != Talk(t) { NotMainTalk(d, o, t); }
  }

  lemma NoneStartedYet(d: Doc, members: set<string>, s: string)
    requires Closed(d, members) && s !in members
    ensures forall c :: c in members ==> ParentOf(d, c) != OfStream(s)
  {
    hide ParentOf;
  }
}
