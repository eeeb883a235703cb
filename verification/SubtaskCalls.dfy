/**
 A sub-task's calls with everything under it. The streams may have started
 each other in a circle, so a walk down the children must not come back.
 */
module SubtaskCalls {
  import opened Costs
  import opened Ledger
  import opened Starters
  import opened RollUp
  import opened SubtaskForest
  import opened RollUpWalk
  import opened LedgerTotals

  /** The owners of these streams, one stream after another. */
  function OwnersOfStreams(d: Doc, names: seq<string>): seq<Owner> {
    if names == [] then [] else OwnersOfStreams(d, names[..|names|-1]) + OwnersOfStream(d, d.owners, names[|names|-1])
  }

  lemma {:induction false} StreamsOfBoth(d: Doc, a: seq<string>, b: seq<string>)
    ensures OwnersOfStreams(d, a + b) == OwnersOfStreams(d, a) + OwnersOfStreams(d, b)
  {
    if b == [] {
      assert a + b == a;
    } else {
      assert (a + b)[..|a + b| - 1] == a + b[..|b|-1];
      StreamsOfBoth(d, a, b[..|b|-1]);
    }
  }

  lemma {:induction false} StreamsDistinct(d: Doc, names: seq<string>)
    requires Distinct(d.owners) && Distinct(names)
    ensures Distinct(OwnersOfStreams(d, names))
    ensures forall o :: o in OwnersOfStreams(d, names) <==> o in d.owners && StreamOf(d, o) in names
  {
    if names != [] {
      var n := |names| - 1;
      assert names == names[..n] + [names[n]];
      StreamsDistinct(d, names[..n]);
      assert names[n] !in names[..n];
      DistinctBoth(OwnersOfStreams(d, names[..n]), OwnersOfStream(d, d.owners, names[n]));
    }
  }

  /** What a walk found: streams not seen before, each once, whose children have all been seen. */
  ghost predicate Found(d: Doc, index: map<string, nat>, seen0: set<string>, seen: set<string>, names: seq<string>) {
    && Distinct(names) && (forall s :: s in names ==> s in index && s !in seen0)
    && (forall s :: s in seen <==> s in seen0 || s in names)
  }

  /** Every child of a stream the walk finished has been seen. */
  ghost predicate Finished(d: Doc, names: seq<string>, seen: set<string>) {
    forall s, c :: s in names && Parent(d, c, s) ==> c in seen
  }

  ghost predicate Parent(d: Doc, c: string, s: string) {
    ParentOf(d, c) == OfStream(s)
  }

  /** Every stream found is at or below one of these. */
  ghost predicate AllUnder(d: Doc, names: seq<string>, tops: seq<string>) {
    forall s :: s in names ==> exists top :: top in tops && IsUnder(d, s, top)
  }

  ghost predicate IsUnder(d: Doc, s: string, top: string) {
    exists n :: Below(d, s, top, n)
  }

  lemma UnderItself(d: Doc, s: string)
    ensures IsUnder(d, s, s)
  {
    assert Below(d, s, s, 0);
  }

  lemma {:induction false} UnderChild(d: Doc, s: string, c: string, n: nat, top: string)
    requires Below(d, s, c, n) && Parent(d, c, top)
    ensures Below(d, s, top, n + 1)
    decreases n
  {
    hide ParentOf;
    if n > 0 {
      UnderChild(d, ParentOf(d, s).name, c, n - 1, top);
    } else {
      assert Below(d, top, top, 0);
    }
  }

  lemma ChildrenUnder(d: Doc, names: seq<string>, children: seq<string>, top: string)
    requires AllUnder(d, names, children) && forall c :: c in children ==> Parent(d, c, top)
    ensures AllUnder(d, [top] + names, [top])
  {
    hide Parent;
    UnderItself(d, top);
    forall s | s in [top] + names ensures IsUnder(d, s, top) {
      if s in names {
        var c :| c in children && IsUnder(d, s, c);
        var n: nat :| Below(d, s, c, n);
        UnderChild(d, s, c, n, top);
      }
    }
    forall s | s in [top] + names ensures exists p :: p in [top] && IsUnder(d, s, p) {
      assert top in [top];
    }
  }

  lemma FoundTwice(d: Doc, index: map<string, nat>, seen0: set<string>, seen1: set<string>, seen: set<string>,
                   a: seq<string>, b: seq<string>)
    requires Found(d, index, seen0, seen1, a) && Found(d, index, seen1, seen, b)
    ensures Found(d, index, seen0, seen, a + b)
    ensures Finished(d, a, seen1) && Finished(d, b, seen) ==> Finished(d, a + b, seen)
  {
    hide Parent;
    DistinctBoth(a, b);
  }

  lemma UnderBoth(d: Doc, a: seq<string>, b: seq<string>, top: string, rest: seq<string>)
    requires AllUnder(d, a, [top]) && AllUnder(d, b, rest)
    ensures AllUnder(d, a + b, [top] + rest)
  {
    hide IsUnder;
    forall s | s in a + b ensures exists t :: t in [top] + rest && IsUnder(d, s, t) {
      if s in a {
        var t :| t in [top] && IsUnder(d, s, t);
        assert t in [top] + rest;
      } else {
        var t :| t in rest && IsUnder(d, s, t);
        assert t in [top] + rest;
      }
    }
  }

  /** Walks down from one stream, in the order children are listed, never entering a stream again. */
  method WalkOne(d: Doc, callsOf: map<Owner, seq<nat>>, subtasks: seq<Subtask>, index: map<string, nat>, id: string,
                 seen0: set<string>)
    returns (seen: set<string>, out: seq<nat>, ghost names: seq<string>)
    requires SubtasksRight(d, callsOf, subtasks, index)
    ensures Found(d, index, seen0, seen, names) && Finished(d, names, seen) && AllUnder(d, names, [id])
    ensures id in index ==> id in seen
    ensures out == Together(callsOf, OwnersOfStreams(d, names))
    decreases |index.Keys - seen0|, 0
  {
    hide SubtasksRight, Found, Finished, AllUnder, Parent, Together, OwnersOfStreams;
    if id !in index || id in seen0 {
      NothingFound(d, callsOf, index, seen0, [id]);
      return seen0, [], [];
    }
    SubtaskIs(d, callsOf, subtasks, index, id);
    var st := subtasks[index[id]];
    Fewer(index.Keys, seen0, id);
    var below: seq<nat>;
    ghost var more: seq<string>;
    seen, below, more := WalkAll(d, callsOf, subtasks, index, st.children, seen0 + {id});
    names := [id] + more;
    FoundFirst(d, index, seen0, seen, id, more, st.children);
    ChildrenUnder(d, more, st.children, id);
    CallsJoin(d, callsOf, [id], more);
    OneStream(d, callsOf, id);
    out := st.own + below;
  }

  method WalkAll(d: Doc, callsOf: map<Owner, seq<nat>>, subtasks: seq<Subtask>, index: map<string, nat>,
                 ids: seq<string>, seen0: set<string>)
    returns (seen: set<string>, out: seq<nat>, ghost names: seq<string>)
    requires SubtasksRight(d, callsOf, subtasks, index)
    ensures Found(d, index, seen0, seen, names) && Finished(d, names, seen) && AllUnder(d, names, ids)
    ensures forall c :: c in ids && c in index ==> c in seen
    ensures out == Together(callsOf, OwnersOfStreams(d, names))
    decreases |index.Keys - seen0|, 1 + |ids|
  {
    hide SubtasksRight, Finished, AllUnder, Parent, Together, OwnersOfStreams;
    if ids == [] {
      NothingFound(d, callsOf, index, seen0, ids);
      return seen0, [], [];
    }
    var first: seq<nat>, rest: seq<nat>;
    ghost var a: seq<string>, b: seq<string>;
    var mid: set<string>;
    mid, first, a := WalkOne(d, callsOf, subtasks, index, ids[0], seen0);
    SubsetSmaller(index.Keys - mid, index.Keys - seen0);
    seen, rest, b := WalkAll(d, callsOf, subtasks, index, ids[1..], mid);
    names := a + b;
    FoundTwice(d, index, seen0, mid, seen, a, b);
    UnderBoth(d, a, b, ids[0], ids[1..]);
    assert [ids[0]] + ids[1..] == ids;
    CallsJoin(d, callsOf, a, b);
    out := first + rest;
  }

  lemma SubtaskIs(d: Doc, callsOf: map<Owner, seq<nat>>, subtasks: seq<Subtask>, index: map<string, nat>, id: string)
    requires SubtasksRight(d, callsOf, subtasks, index) && id in index
    ensures index[id] < |subtasks| && subtasks[index[id]].own == OwnCalls(d, callsOf, id)
    ensures forall c :: c in subtasks[index[id]].children <==> Parent(d, c, id)
    ensures forall c :: Parent(d, c, id) ==> c in index
  {
    hide PlacedRight, UnplacedRight, ParentOf;
    assert Right(d, callsOf, subtasks[index[id]]) && OwnChildren(d, subtasks[index[id]]);
    forall c | Parent(d, c, id) ensures c in index {
      ParentIsOther(d, c, id);
    }
  }

  lemma ParentIsOther(d: Doc, c: string, s: string)
    requires Parent(d, c, s)
    ensures c in OtherStreams(d)
  {
    StartedIsOther(d, c);
  }

  lemma Fewer(keys: set<string>, seen: set<string>, id: string)
    requires id in keys && id !in seen
    ensures |keys - (seen + {id})| < |keys - seen|
  {
    assert keys - seen == (keys - (seen + {id})) + {id};
  }

  lemma NothingFound(d: Doc, callsOf: map<Owner, seq<nat>>, index: map<string, nat>, seen: set<string>,
                     tops: seq<string>)
    ensures Found(d, index, seen, seen, []) && Finished(d, [], seen) && AllUnder(d, [], tops)
    ensures Together(callsOf, OwnersOfStreams(d, [])) == []
  {
  }

  lemma FoundFirst(d: Doc, index: map<string, nat>, seen0: set<string>, seen: set<string>, id: string,
                   more: seq<string>, children: seq<string>)
    requires id in index && id !in seen0 && Found(d, index, seen0 + {id}, seen, more) && Finished(d, more, seen)
    requires forall c :: c in children <==> Parent(d, c, id)
    requires forall c :: c in children ==> c in seen
    ensures Found(d, index, seen0, seen, [id] + more) && Finished(d, [id] + more, seen) && id in seen
  {
    hide Parent;
    DistinctBoth([id], more);
  }

  lemma CallsJoin(d: Doc, callsOf: map<Owner, seq<nat>>, a: seq<string>, b: seq<string>)
    ensures Together(callsOf, OwnersOfStreams(d, a + b)) ==
            Together(callsOf, OwnersOfStreams(d, a)) + Together(callsOf, OwnersOfStreams(d, b))
  {
    StreamsOfBoth(d, a, b);
    TogetherOfBoth(callsOf, OwnersOfStreams(d, a), OwnersOfStreams(d, b));
  }

  lemma OneStream(d: Doc, callsOf: map<Owner, seq<nat>>, id: string)
    ensures Together(callsOf, OwnersOfStreams(d, [id])) == OwnCalls(d, callsOf, id)
  {
    assert [id][..0] == [];
    assert OwnersOfStreams(d, [id]) == [] + OwnersOfStream(d, d.owners, id) == OwnersOfStream(d, d.owners, id);
  }

  /** A walk from one stream finds every stream below it. */
  lemma {:induction false} FoundAllUnder(d: Doc, names: seq<string>, seen: set<string>, s: string, top: string, n: nat)
    requires Finished(d, names, seen) && (forall x :: x in seen <==> x in names)
    requires top in seen && Below(d, s, top, n)
    ensures s in seen
    decreases n
  {
    if n > 0 {
      FoundAllUnder(d, names, seen, ParentOf(d, s).name, top, n - 1);
      assert Parent(d, s, ParentOf(d, s).name);
    }
  }

  /**
   A sub-task's calls: its own, or with every sub-task under it. Each call
   appears once, and those that appear are those of the stream, or of the
   streams whose chain of starters passes through it.
   */
  method CallsUnder(d: Doc, calls: seq<Call>, callsOf: map<Owner, seq<nat>>, subtasks: seq<Subtask>, index: map<string,
                    nat>,
                    id: string, inclusive: bool) returns (out: seq<nat>)
    requires Ready(d) && Counted(calls, callsOf) && SubtasksRight(d, callsOf, subtasks, index)
    requires forall i :: 0 <= i < |calls| ==> calls[i].owner in d.owners
    ensures forall i: nat :: multiset(out)[i] ==
              if i < |calls| && id in index && (if inclusive then IsUnder(d, StreamOf(d, calls[i].owner), id)
                                                else StreamOf(d, calls[i].owner) == id) then 1 else 0
  {
    hide SubtasksRight, Finished, AllUnder, Counted, Together, IsUnder, OwnersOfStreams, Distinct, OwnersOfStream;
    if id !in index { return []; }
    ghost var names := [id];
    if inclusive {
      var seen: set<string>;
      seen, out, names := WalkOne(d, callsOf, subtasks, index, id, {});
      StreamsUnder(d, names, seen, id);
    } else {
      SubtaskIs(d, callsOf, subtasks, index, id);
      out := subtasks[index[id]].own;
      OneStream(d, callsOf, id);
      assert Distinct([id]) by { OneDistinct(id); }
    }
    CallsOfStreamsOnce(d, calls, callsOf, names);
  }

  lemma OneDistinct(id: string)
    ensures Distinct([id])
  {
  }

  lemma StreamsUnder(d: Doc, names: seq<string>, seen: set<string>, id: string)
    requires (forall s :: s in seen <==> s in names) && Finished(d, names, seen) && AllUnder(d, names, [id])
    requires id in seen
    ensures forall s :: s in names <==> IsUnder(d, s, id)
  {
    hide Finished;
    forall s | IsUnder(d, s, id) ensures s in names {
      var n: nat :| Below(d, s, id, n);
      FoundAllUnder(d, names, seen, s, id, n);
    }
  }

  lemma {:induction false} CallsOfStreamsOnce(d: Doc, calls: seq<Call>, callsOf: map<Owner, seq<nat>>,
                                              names: seq<string>)
    requires Distinct(d.owners) && Counted(calls, callsOf) && Distinct(names)
    requires forall i :: 0 <= i < |calls| ==> calls[i].owner in d.owners
    ensures forall i: nat :: multiset(Together(callsOf, OwnersOfStreams(d, names)))[i] ==
              if i < |calls| && StreamOf(d, calls[i].owner) in names then 1 else 0
  {
    hide Counted;
    StreamsDistinct(d, names);
    forall i: nat ensures multiset(Together(callsOf, OwnersOfStreams(d, names)))[i] ==
                          if i < |calls| && StreamOf(d, calls[i].owner) in names then 1 else 0 {
      EachOnce(calls, callsOf, OwnersOfStreams(d, names), i);
    }
  }
}
