/**
 The sub-tasks the roll-up leaves: one for every stream but the main one,
 placed under a main talk or kept with the reason it could not be, and each
 listing as its children exactly the streams its own owners alone started.
 */
module SubtaskForest {
  import opened Costs
  import opened Ledger
  import opened Starters
  import opened RollUp

  /** What alone started a stream: a main talk, or another stream. */
  ghost function ParentOf(d: Doc, s: string): Parent {
    if Starter(d, s).None? then Nobody
    else
      var o := Starter(d, s).value;
      if IsMain(d, o) then OfTalk(o.id) else OfStream(StreamOf(d, o))
  }

  function OwnCalls(d: Doc, callsOf: map<Owner, seq<nat>>, s: string): seq<nat> {
    Together(callsOf, OwnersOfStream(d, d.owners, s))
  }

  ghost predicate HasStarter(d: Doc, s: string) {
    exists o :: Starts(d, s, o)
  }

  /** A placed sub-task is at its depth under its main talk. */
  ghost predicate PlacedRight(d: Doc, st: Subtask) {
    && st.main.Some? && st.main.value in d.main && Reaches(d, st.name, st.main.value, st.depth)
    && st.parent == ParentOf(d, st.name)
    && Starter(d, st.name).Some? && st.startedBy.Some?
    && StartedBy(d, st.name, Starter(d, st.name).value, st.startedBy.value)
  }

  /** An unplaced sub-task belongs to no main talk, and says why. */
  ghost predicate UnplacedRight(d: Doc, st: Subtask) {
    && st.main.None? && st.depth == 0 && (forall t :: t in d.main ==> !BelongsTo(d, st.name, t))
    && (st.reason == NoStarter <==> !HasStarter(d, st.name))
    && (st.reason == ParentUnplaced <==> Starter(d, st.name).Some?)
    && st.parent == ParentOf(d, st.name)
    && (if Starter(d, st.name).None? then st.startedBy.None?
        else st.startedBy.Some? && StartedBy(d, st.name, Starter(d, st.name).value, st.startedBy.value))
  }

  ghost predicate Right(d: Doc, callsOf: map<Owner, seq<nat>>, st: Subtask) {
    && st.own == OwnCalls(d, callsOf, st.name)
    && if st.reason == Placed then PlacedRight(d, st) else UnplacedRight(d, st)
  }

  /** Its children are the sub-tasks, among these, that its stream alone started. */
  ghost predicate ChildrenAre(d: Doc, st: Subtask, members: set<string>) {
    && Distinct(st.children)
    && forall c :: c in st.children <==> c in members && ParentOf(d, c) == OfStream(st.name)
  }

  /** Each sub-task is found by its name, and each name names one. */
  predicate Indexed(subtasks: seq<Subtask>, index: map<string, nat>) {
    && (forall s :: s in index ==> index[s] < |subtasks| && subtasks[index[s]].name == s)
    && (forall i :: 0 <= i < |subtasks| ==> subtasks[i].name in index && index[subtasks[i].name] == i)
  }

  ghost predicate Forest(d: Doc, callsOf: map<Owner, seq<nat>>, subtasks: seq<Subtask>, index: map<string, nat>,
                         members: set<string>) {
    && Indexed(subtasks, index)
    && (forall i :: 0 <= i < |subtasks| ==> Right(d, callsOf, subtasks[i]))
    && (forall i :: 0 <= i < |subtasks| ==> ChildrenAre(d, subtasks[i], members))
  }

  /** With a stream, the stream that started it is there too. */
  ghost predicate Closed(d: Doc, members: set<string>) {
    forall s :: s in members && ParentOf(d, s).OfStream? ==> ParentOf(d, s).name in members
  }

  /** Adopts a name into its parent's children. */
  function Adopted(subtasks: seq<Subtask>, index: map<string, nat>, parent: Parent, name: string): (r: seq<Subtask>)
    requires Indexed(subtasks, index)
    ensures |r| == |subtasks|
    ensures forall i :: 0 <= i < |r| ==> r[i] == subtasks[i].(children := r[i].children)
    ensures Indexed(r, index)
  {
    if parent.OfStream? && parent.name in index then
      var p := index[parent.name];
      subtasks[p := subtasks[p].(children := subtasks[p].children + [name])]
    else subtasks
  }

  lemma IndexedGrows(subtasks: seq<Subtask>, index: map<string, nat>, st: Subtask)
    requires Indexed(subtasks, index) && st.name !in index
    ensures Indexed(subtasks + [st], index[st.name := |subtasks|])
  {
  }

  /** A new sub-task no member was started by. */
  lemma ForestGrows(d: Doc, callsOf: map<Owner, seq<nat>>, subtasks: seq<Subtask>, index: map<string, nat>,
                    members: set<string>, st: Subtask)
    requires Forest(d, callsOf, subtasks, index, members) && st.name !in index
    requires Right(d, callsOf, st) && st.children == []
    requires forall c :: c in members ==> ParentOf(d, c) != OfStream(st.name)
    ensures Forest(d, callsOf, subtasks + [st], index[st.name := |subtasks|], members)
  {
    hide Right, ParentOf;
    IndexedGrows(subtasks, index, st);
    assert ChildrenAre(d, st, members);
  }

  /** Adopting one more member keeps every list of children right. */
  lemma AdoptedRight(d: Doc, callsOf: map<Owner, seq<nat>>, subtasks: seq<Subtask>, index: map<string, nat>,
                     members: set<string>, name: string)
    requires Forest(d, callsOf, subtasks, index, members) && name !in members
    ensures Forest(d, callsOf, Adopted(subtasks, index, ParentOf(d, name), name), index, members + {name})
  {
    hide ParentOf, Right;
    var after := Adopted(subtasks, index, ParentOf(d, name), name);
    forall i | 0 <= i < |after| ensures Right(d, callsOf, after[i]) && ChildrenAre(d, after[i], members + {name}) {
      assert Right(d, callsOf, subtasks[i]);
      RightWhateverChildren(d, callsOf, subtasks[i], after[i].children);
      assert ChildrenAre(d, subtasks[i], members);
    }
  }

  lemma RightWhateverChildren(d: Doc, callsOf: map<Owner, seq<nat>>, st: Subtask, children: seq<string>)
    requires Right(d, callsOf, st)
    ensures Right(d, callsOf, st.(children := children))
  {
  }
}
