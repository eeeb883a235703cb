/**
 How one target's calls are labeled: parts of a talk, the agent whose doing
 avoidable work was, the groups the close writes, and the scores taken from
 them. The groups are a partition of the target's calls, and every score is a
 share of a whole.
 */
module WorkLabels {
  import opened Costs
  import opened Ledger
  import opened Starters
  import opened RollUp
  import opened LedgerCompute
  import opened Serving
  import opened Shares
  import opened CloseCost
  import opened StableSort

  datatype Work =
    Unlabeled | NotReviewed | Avoidable | Repeated | Redundant | Repair | Misdirected | Misled | Useful(name: string)

  datatype Dispatch = Reasonable | RedundantTask | MisdirectedTask | Unsaid

  /** What a stage decided of a sub-task. */
  datatype Decision = Decision(work: Work, dispatch: Dispatch)

  datatype Cause = NoCause | MainAgent | Unknown | Agent(subtask: string)

  /** A label of a target's talk: of the whole talk, or of it from a step on. */
  datatype Label = Label(target: string, talk: string, from: Option<string>, work: Work, subtask: string)

  predicate IsAvoidable(w: Work) {
    w in {Avoidable, Repeated, Redundant, Repair, Misdirected, Misled}
  }

  // ---------------------------------------------------------------------
  // The parts of a talk.
  // ---------------------------------------------------------------------

  /** A labeled piece of a talk: it begins at its step for child agents' calls, and at callPlace for the talk's own. */
  datatype Part = Part(place: nat, callPlace: nat, work: Work, subtask: string)

  const NO_PART := Part(0, 0, Unlabeled, "")

  /** Where the call that asked for a step falls, or the step itself. */
  function PartPlace(order: map<string, nat>, producedBy: map<string, string>, step: string): nat {
    var at := if step in producedBy then producedBy[step] else step;
    if at in order then order[at] else 0
  }

  /** The label of the whole talk: the last that names no step. */
  function Whole(labels: seq<Label>): Part {
    if labels == [] then NO_PART
    else
      var b := labels[|labels|-1];
      if b.from.None? then Part(0, 0, b.work, b.subtask) else Whole(labels[..|labels|-1])
  }

  /** The parts whose step has a place, as the labels list them. */
  function RawParts(order: map<string, nat>, producedBy: map<string, string>, labels: seq<Label>): seq<Part> {
    if labels == [] then []
    else
      var b := labels[|labels|-1];
      RawParts(order, producedBy, labels[..|labels|-1]) +
      if b.from.Some? && b.from.value in order
      then [Part(order[b.from.value], PartPlace(order, producedBy, b.from.value), b.work, b.subtask)] else []
  }

  function PartAt(): Part -> int {
    (p: Part) => p.place as int
  }

  /** A part that would begin, for the talk's own calls, no later than the one before begins at its step. */
  function Settled(ps: seq<Part>): (r: seq<Part>)
    ensures |r| == |ps|
    ensures forall k :: 0 <= k < |ps| ==> r[k] == ps[k].(callPlace := r[k].callPlace)
    ensures forall k :: 0 <= k < |ps| ==> r[k].callPlace == ps[k].callPlace || r[k].callPlace == ps[k].place
    ensures ps != [] ==> r[0] == ps[0]
    ensures forall k :: 0 < k < |ps| ==> r[k].callPlace > r[k-1].callPlace || r[k].callPlace == ps[k].place
  {
    if |ps| <= 1 then ps
    else
      var n := |ps| - 1;
      var before := Settled(ps[..n]);
      before + [if ps[n].callPlace <= before[n-1].callPlace then ps[n].(callPlace := ps[n].place) else ps[n]]
  }

  /** Orders the parts of a talk and settles where each begins. */
  method TalkParts(order: map<string, nat>, producedBy: map<string, string>, labels: seq<Label>)
    returns (whole: Part, ps: seq<Part>)
    ensures whole == Whole(labels)
    ensures ps == Settled(Sorted(RawParts(order, producedBy, labels), PartAt()))
  {
    hide Settled, Sorted, PartPlace;
    whole, ps := NO_PART, [];
    for k := 0 to |labels|
      invariant whole == Whole(labels[..k]) && ps == RawParts(order, producedBy, labels[..k])
    {
      var b := labels[k];
      assert labels[..k+1][..k] == labels[..k];
      if b.from.None? {
        whole := Part(0, 0, b.work, b.subtask);
      } else if b.from.value in order {
        ps := ps + [Part(order[b.from.value], PartPlace(order, producedBy, b.from.value), b.work, b.subtask)];
      }
    }
    assert labels[..|labels|] == labels;
    ps := Settle(Sorted(ps, PartAt()));
  }

  method Settle(sorted: seq<Part>) returns (ps: seq<Part>)
    ensures ps == Settled(sorted)
  {
    ps := sorted;
    if |ps| <= 1 { return; }
    for i := 1 to |ps|
      invariant |ps| == |sorted| && ps[i..] == sorted[i..]
      invariant ps[..i] == Settled(sorted[..i])
    {
      assert sorted[..i+1][..i] == sorted[..i];
      assert ps[i] == ps[i..][0] == sorted[i..][0];
      assert ps[i-1] == ps[..i][i-1];
      if ps[i].callPlace <= ps[i-1].callPlace {
        ps := ps[i := ps[i].(callPlace := ps[i].place)];
      }
      assert ps[i+1..] == sorted[i+1..];
    }
    assert sorted[..|sorted|] == sorted && ps[..|ps|] == ps;
  }

  predicate Begun(p: Part, place: nat, own: bool) {
    place >= p.place || (own && place >= p.callPlace)
  }

  /** How many parts begin at or before the one that labels a call; 0 when none labels it. */
  function PartNumber(ps: seq<Part>, place: nat, own: bool): (n: nat)
    ensures n <= |ps|
    ensures n > 0 ==> Begun(ps[n-1], place, own)
    ensures forall k :: n <= k < |ps| ==> !Begun(ps[k], place, own)
  {
    if ps == [] then 0
    else if Begun(ps[|ps|-1], place, own) then |ps| else PartNumber(ps[..|ps|-1], place, own)
  }

  /** The part that labels a call: the last begun, or the whole talk's label. */
  function PartFor(whole: Part, ps: seq<Part>, place: nat, own: bool): Part {
    var n := PartNumber(ps, place, own);
    if n == 0 then whole else ps[n-1]
  }

  method FindPart(whole: Part, ps: seq<Part>, place: nat, own: bool) returns (p: Part)
    ensures p == PartFor(whole, ps, place, own)
  {
    p := whole;
    for k := 0 to |ps|
      invariant p == PartFor(whole, ps[..k], place, own)
    {
      assert ps[..k+1][..k] == ps[..k];
      if place >= ps[k].place || (own && place >= ps[k].callPlace) { p := ps[k]; }
    }
    assert ps[..|ps|] == ps;
  }

  /**
   The parts are runs of the talk: every part up to the one that labels a call has begun
   there, so a later call has the same part or a later one.
   */
  lemma PartsAreRuns(raw: seq<Part>, early: nat, late: nat, own: bool)
    requires InOrder(raw, PartAt()) && early <= late
    ensures forall k :: 0 <= k < PartNumber(Settled(raw), early, own) ==> Begun(Settled(raw)[k], early, own)
    ensures PartNumber(Settled(raw), early, own) <= PartNumber(Settled(raw), late, own)
  {
    hide Settled, InOrder, PartNumber;
    var ps := Settled(raw);
    var n := PartNumber(ps, early, own);
    forall k | 0 <= k < n ensures Begun(ps[k], early, own) {
      BeginsInOrder(raw, k, n - 1, early, own);
    }
    if n > 0 {
      assert Begun(ps[n-1], late, own);
    }
  }

  /** Where a part has begun, by its step or by its call, so has every part before it. */
  lemma {:induction false} BeginsInOrder(raw: seq<Part>, j: nat, k: nat, place: nat, own: bool)
    requires InOrder(raw, PartAt()) && j <= k < |raw| && Begun(Settled(raw)[k], place, own)
    ensures Begun(Settled(raw)[j], place, own)
    decreases k
  {
    hide Settled;
    if j < k {
      assert PartAt()(raw[k-1]) <= PartAt()(raw[k]);
      BeginsInOrder(raw, j, k - 1, place, own);
    }
  }

  // ---------------------------------------------------------------------
  // Whose doing it was.
  // ---------------------------------------------------------------------

  /** What the labels are read from. */
  datatype Reading = Reading(l: LedgerOf, labels: seq<Label>, decisions: Option<map<string, Decision>>)

  /** The sub-task whose own call this is. */
  function SubtaskOf(l: LedgerOf, i: nat): Option<string>
    requires i < |l.calls|
  {
    var s := StreamOf(l.doc, l.calls[i].owner);
    if s in l.index && s != MAIN then Some(s) else None
  }

  /** The agent that gave a sub-task its task. */
  function Giver(l: LedgerOf, s: string): (c: Cause)
    ensures c != NoCause && c != Unknown
  {
    if s in l.index && l.index[s] < |l.subtasks| then
      var st := l.subtasks[l.index[s]];
      if st.depth > 1 && st.parent.OfStream? then Agent(st.parent.name) else MainAgent
    else MainAgent
  }

  /** Whose doing work on a sub-task's untrue report was. */
  function MisledBy(r: Reading, s: string): (c: Cause)
    ensures c != NoCause
  {
    if r.decisions.None? || s !in r.decisions.value then Unknown
    else match r.decisions.value[s].dispatch
      case MisdirectedTask => Giver(r.l, s)
      case Reasonable => Agent(s)
      case RedundantTask => Agent(s)
      case Unsaid => Unknown
  }

  /** The labels a target has in a talk, as they are listed. */
  function LabelsOf(labels: seq<Label>, target: string, talk: string): (own: seq<Label>)
    ensures forall b :: b in own <==> b in labels && b.target == target && b.talk == talk
  {
    if labels == [] then []
    else
      var b := labels[|labels|-1];
      assert labels == labels[..|labels|-1] + [b];
      LabelsOf(labels[..|labels|-1], target, talk) + if b.target == target && b.talk == talk then [b] else []
  }

  /** A call's label, and whose doing it was when it is avoidable. */
  function LabelFor(r: Reading, target: string, talk: string, i: nat): (Work, Cause)
    requires i < |r.l.calls|
  {
    var s := SubtaskOf(r.l, i);
    if r.decisions.Some? && s.Some? then
      if s.value !in r.decisions.value then (NotReviewed, NoCause)
      else
        var w := r.decisions.value[s.value].work;
        if w == Misdirected || w == Redundant then (w, Giver(r.l, s.value))
        else if IsAvoidable(w) then (w, Agent(s.value))
        else (w, NoCause)
    else
      var labels := LabelsOf(r.labels, target, talk);
      var ps := Settled(Sorted(RawParts(r.l.doc.order, r.l.producedBy, labels), PartAt()));
      var p := PartFor(Whole(labels), ps, Place(r.l, talk, i), r.l.calls[i].owner == Talk(talk));
      if p.work == Unlabeled then (NotReviewed, NoCause)
      else if p.work == Misled then (Misled, MisledBy(r, p.subtask))
      else if IsAvoidable(p.work) then (p.work, MainAgent)
      else (p.work, NoCause)
  }

  /** Sub-task s's own call i. */
  predicate IsOwn(l: LedgerOf, s: string, i: nat)
    requires i < |l.calls|
  {
    s != MAIN && s in l.index && StreamOf(l.doc, l.calls[i].owner) == s
  }

  /**
   A sub-task's own work is labeled as was decided of it: when it was given the wrong task, or work already done,
   whoever gave it the task is charged; other avoidable work is its own doing; and no other work is charged.
   */
  lemma SubtaskCharged(r: Reading, target: string, talk: string, i: nat, s: string)
    requires i < |r.l.calls| && r.decisions.Some? && IsOwn(r.l, s, i)
    ensures s !in r.decisions.value ==> LabelFor(r, target, talk, i) == (NotReviewed, NoCause)
    ensures s in r.decisions.value ==> LabelFor(r, target, talk, i).0 == r.decisions.value[s].work
    ensures s in r.decisions.value && r.decisions.value[s].work in {Misdirected, Redundant} ==>
              LabelFor(r, target, talk, i).1 == Giver(r.l, s)
    ensures s in r.decisions.value && r.decisions.value[s].work in {Avoidable, Repeated, Repair, Misled} ==>
              LabelFor(r, target, talk, i).1 == Agent(s)
    ensures s in r.decisions.value && (r.decisions.value[s].work in {Unlabeled, NotReviewed}
                                       || r.decisions.value[s].work.Useful?) ==>
              LabelFor(r, target, talk, i).1 == NoCause
  {
    hide Sorted, Settled, PartFor, Whole, RawParts, LabelsOf, Place, Giver, MisledBy;
  }

  lemma GiverIs(l: LedgerOf, s: string)
    ensures s !in l.index || l.index[s] >= |l.subtasks| ==> Giver(l, s) == MainAgent
    ensures s in l.index && l.index[s] < |l.subtasks| ==>
              forall p :: l.subtasks[l.index[s]].parent == OfStream(p) && l.subtasks[l.index[s]].depth > 1 ==>
                Giver(l, s) == Agent(p)
    ensures (s in l.index && l.index[s] < |l.subtasks|
             && (l.subtasks[l.index[s]].depth <= 1 || !l.subtasks[l.index[s]].parent.OfStream?)) ==>
              Giver(l, s) == MainAgent
  {
  }

  /** The part of the talk's labels that a call is labeled by. */
  function PartOfCall(r: Reading, target: string, talk: string, i: nat): Part
    requires i < |r.l.calls|
  {
    var labels := LabelsOf(r.labels, target, talk);
    PartFor(Whole(labels), Settled(Sorted(RawParts(r.l.doc.order, r.l.producedBy, labels), PartAt())),
            Place(r.l, talk, i), r.l.calls[i].owner == Talk(talk))
  }

  /**
   Any other work is labeled by its part of the talk: avoidable work is the main agent's doing, but work done on a
   sub-task's untrue report is the sub-task's when its task was right, its giver's when the task was wrong, and nobody
   knows whose when what was dispatched is not known.
   */
  lemma TalkCharged(r: Reading, target: string, talk: string, i: nat)
    requires i < |r.l.calls| && (r.decisions.None? || forall s :: !IsOwn(r.l, s, i))
    ensures var p, given := PartOfCall(r, target, talk, i), LabelFor(r, target, talk, i);
      && given.0 == (if p.work == Unlabeled then NotReviewed else p.work)
      && (p.work in {Avoidable, Repeated, Redundant, Repair, Misdirected} ==> given.1 == MainAgent)
      && (p.work == Misled && (r.decisions.None? || p.subtask !in r.decisions.value) ==> given.1 == Unknown)
      && (p.work == Misled && r.decisions.Some? && p.subtask in r.decisions.value ==>
           match r.decisions.value[p.subtask].dispatch
           case MisdirectedTask => given.1 == Giver(r.l, p.subtask)
           case Reasonable => given.1 == Agent(p.subtask)
           case RedundantTask => given.1 == Agent(p.subtask)
           case Unsaid => given.1 == Unknown)
      && (p.work in {Unlabeled, NotReviewed} || p.work.Useful? ==> given.1 == NoCause)
  {
    hide Sorted, Settled, PartFor, Whole, RawParts, LabelsOf, Place, Giver;
    if r.decisions.Some? && SubtaskOf(r.l, i).Some? { assert IsOwn(r.l, SubtaskOf(r.l, i).value, i); }
  }

  /** The label of a whole talk is the last that names no step, and there is none where all name one. */
  lemma {:induction false} WholeIs(labels: seq<Label>, k: nat)
    requires k < |labels| && labels[k].from.None? && forall j :: k < j < |labels| ==> labels[j].from.Some?
    ensures Whole(labels) == Part(0, 0, labels[k].work, labels[k].subtask)
    decreases |labels|
  {
    if k < |labels| - 1 { WholeIs(labels[..|labels|-1], k); }
  }

  lemma {:induction false} NoWhole(labels: seq<Label>)
    requires forall j :: 0 <= j < |labels| ==> labels[j].from.Some?
    ensures Whole(labels) == NO_PART
  {
    if labels != [] { NoWhole(labels[..|labels|-1]); }
  }

  /**
   The parts are those of the labels whose step has a place, each where its step is, and for the talk's
   own calls where the call that asked for it is.
   */
  lemma {:induction false} PartsAre(order: map<string, nat>, producedBy: map<string, string>, labels: seq<Label>,
                                    p: Part)
    ensures p in RawParts(order, producedBy, labels) <==>
            exists b :: b in labels && b.from.Some? && b.from.value in order
                        && p.work == b.work && p.subtask == b.subtask
              && p.place == order[b.from.value] && AskedAt(order, producedBy, b.from.value, p.callPlace)
  {
    hide PartPlace, AskedAt;
    if labels != [] {
      var n := |labels| - 1;
      PartsAre(order, producedBy, labels[..n], p);
      assert labels == labels[..n] + [labels[n]];
      var b := labels[n];
      if b.from.Some? { AskedIs(order, producedBy, b.from.value, p.callPlace); }
    }
  }

  /** Where the call that asked for a step is, the step itself where no call did; 0 where neither has a place. */
  predicate AskedAt(order: map<string, nat>, producedBy: map<string, string>, step: string, at: nat) {
    if step in producedBy && producedBy[step] in order then at == order[producedBy[step]]
    else if step !in producedBy && step in order then at == order[step]
    else at == 0
  }

  lemma AskedIs(order: map<string, nat>, producedBy: map<string, string>, step: string, at: nat)
    ensures AskedAt(order, producedBy, step, at) <==> at == PartPlace(order, producedBy, step)
  {
  }

  /** An avoidable label always says whose doing it was, or that it is not known; no other label does. */
  lemma AvoidableHasCause(r: Reading, target: string, talk: string, i: nat)
    requires i < |r.l.calls|
    ensures IsAvoidable(LabelFor(r, target, talk, i).0) <==> LabelFor(r, target, talk, i).1 != NoCause
  {
    hide Sorted, Settled, PartFor, Whole, RawParts, LabelsOf, Place, SubtaskOf, Giver, MisledBy;
  }

  // ---------------------------------------------------------------------
  // Groups.
  // ---------------------------------------------------------------------

  /** A call of a target, with the talk it is counted under. */
  datatype Item = Item(talk: string, call: nat)

  /** What a group's calls share: label, talk when the calls are split, how many ways, and whose doing. */
  datatype Key = Key(work: Work, talk: string, k: nat, cause: Cause)

  datatype Group = Group(key: Key, calls: seq<nat>)

  predicate Known(r: Reading, items: seq<Item>) {
    forall j :: 0 <= j < |items| ==> items[j].call < |r.l.calls|
  }

  function KeyOf(r: Reading, who: map<nat, seq<string>>, target: string, item: Item): Key
    requires item.call < |r.l.calls|
  {
    var given := LabelFor(r, target, item.talk, item.call);
    var k := |Who(who, item.call)|;
    Key(given.0, if k > 1 then item.talk else "", k, given.1)
  }

  /** The calls of these items that have this key, in order. */
  function CallsWith(r: Reading, who: map<nat, seq<string>>, target: string, items: seq<Item>, key: Key): seq<nat>
    requires Known(r, items)
  {
    if items == [] then []
    else
      var n := |items| - 1;
      CallsWith(r, who, target, items[..n], key) + if KeyOf(r, who, target, items[n]) == key then [items[n].call]
        else []
  }

  /** One group for each key there is, holding exactly that key's calls. */
  ghost predicate Grouped(r: Reading, who: map<nat, seq<string>>, target: string, items: seq<Item>, groups: seq<Group>,
                          index: map<Key, nat>) {
    && Known(r, items)
    && (forall g :: 0 <= g < |groups| ==> groups[g].key in index && index[groups[g].key] == g)
    && (forall k :: k in index ==> index[k] < |groups| && groups[index[k]].key == k)
    && (forall g :: 0 <= g < |groups| ==> groups[g].calls == CallsWith(r, who, target, items, groups[g].key))
    && (forall k :: k !in index ==> CallsWith(r, who, target, items, k) == [])
  }

  lemma GroupedNext(r: Reading, who: map<nat, seq<string>>, target: string, items: seq<Item>, groups: seq<Group>,
                    index: map<Key, nat>, item: Item)
    requires Grouped(r, who, target, items, groups, index) && item.call < |r.l.calls|
    ensures var key := KeyOf(r, who, target, item);
            if key in index
            then Grouped(r, who, target, items + [item],
                         groups[index[key] := Group(key, groups[index[key]].calls + [item.call])], index)
            else Grouped(r, who, target, items + [item], groups + [Group(key, [item.call])], index[key := |groups|])
  {
    hide KeyOf;
    assert (items + [item])[..|items|] == items;
  }

  /** Groups a target's calls, and lists those that were avoidable and those not reviewed. */
  method LabelCalls(r: Reading, who: map<nat, seq<string>>, target: string, items: seq<Item>)
    returns (groups: seq<Group>, ghost index: map<Key, nat>, avoidable: seq<nat>, notReviewed: seq<nat>,
             bySubtasks: seq<nat>, causeUnknown: seq<nat>)
    requires Known(r, items)
    ensures Grouped(r, who, target, items, groups, index)
    ensures avoidable == Chosen(r, target, items, 0) && notReviewed == Chosen(r, target, items, 1)
    ensures bySubtasks == Chosen(r, target, items, 2) && causeUnknown == Chosen(r, target, items, 3)
  {
    hide Grouped, LabelFor, CallsWith;
    groups, index, avoidable, notReviewed, bySubtasks, causeUnknown := [], map[], [], [], [], [];
    var at: map<Key, nat> := map[];
    NothingGrouped(r, who, target);
    assert items[..0] == [];
    for n := 0 to |items|
      invariant Grouped(r, who, target, items[..n], groups, at)
      invariant avoidable == Chosen(r, target, items[..n], 0) && notReviewed == Chosen(r, target, items[..n], 1)
      invariant bySubtasks == Chosen(r, target, items[..n], 2) && causeUnknown == Chosen(r, target, items[..n], 3)
    {
      var item := items[n];
      assert items[..n+1] == items[..n] + [item] && items[..n+1][..n] == items[..n];
      var given := LabelFor(r, target, item.talk, item.call);
      var k := |Who(who, item.call)|;
      var key := Key(given.0, if k > 1 then item.talk else "", k, given.1);
      GroupedNext(r, who, target, items[..n], groups, at, item);
      GroupAt(r, who, target, items[..n], groups, at, key);
      if key in at {
        groups := groups[at[key] := Group(key, groups[at[key]].calls + [item.call])];
      } else {
        at := at[key := |groups|];
        groups := groups + [Group(key, [item.call])];
      }
      if IsAvoidable(given.0) {
        avoidable := avoidable + [item.call];
        if given.1 == Unknown {
          causeUnknown := causeUnknown + [item.call];
        } else if given.1 != MainAgent {
          bySubtasks := bySubtasks + [item.call];
        }
      } else if given.0 == NotReviewed {
        notReviewed := notReviewed + [item.call];
      }
    }
    assert items[..|items|] == items;
    index := at;
  }

  lemma NothingGrouped(r: Reading, who: map<nat, seq<string>>, target: string)
    ensures Grouped(r, who, target, [], [], map[])
  {
  }

  lemma GroupAt(r: Reading, who: map<nat, seq<string>>, target: string, items: seq<Item>, groups: seq<Group>,
                index: map<Key, nat>, key: Key)
    requires Grouped(r, who, target, items, groups, index)
    ensures key in index ==> index[key] < |groups|
  {
  }

  /**
   Which of the lists a label puts a call on: 0 avoidable, 1 not reviewed, 2 caused by a sub-task, 3 of
   unknown cause.
   */
  predicate OnList(given: (Work, Cause), list: nat) {
    match list
    case 0 => IsAvoidable(given.0)
    case 1 => given.0 == NotReviewed
    case 2 => IsAvoidable(given.0) && given.1 != MainAgent && given.1 != Unknown
    case _ => IsAvoidable(given.0) && given.1 == Unknown
  }

  function Chosen(r: Reading, target: string, items: seq<Item>, list: nat): (idx: seq<nat>)
    requires Known(r, items)
    ensures Indexes(r.l.calls, idx)
  {
    hide LabelFor, OnList;
    if items == [] then []
    else
      var n := |items| - 1;
      Chosen(r, target, items[..n], list) +
      if OnList(LabelFor(r, target, items[n].talk, items[n].call), list) then [items[n].call] else []
  }

  function CallsOfItems(items: seq<Item>): seq<nat> {
    seq(|items|, j requires 0 <= j < |items| => items[j].call)
  }

  /** The calls of all the groups, one group after another. */
  function AllGroups(groups: seq<Group>): seq<nat> {
    if groups == [] then [] else AllGroups(groups[..|groups|-1]) + groups[|groups|-1].calls
  }

  /** How the groups' calls grow when one group gains a call. */
  lemma {:induction false} GroupGains(groups: seq<Group>, g: nat, call: nat)
    requires g < |groups|
    ensures multiset(AllGroups(groups[g := Group(groups[g].key, groups[g].calls + [call])])) ==
              multiset(AllGroups(groups)) + multiset{call}
  {
    var n := |groups| - 1;
    var after := groups[g := Group(groups[g].key, groups[g].calls + [call])];
    if g == n {
      assert after[..n] == groups[..n];
      assert AllGroups(after) == AllGroups(groups[..n]) + (groups[n].calls + [call]);
      assert AllGroups(after) == AllGroups(groups) + [call];
    } else {
      assert after[..n] == groups[..n][g := Group(groups[g].key, groups[g].calls + [call])];
      GroupGains(groups[..n], g, call);
    }
  }

  /** Whatever the groups of these items, they hold the items' calls and nothing else: each call is in one group. */
  lemma {:induction false} GroupsPartition(r: Reading, who: map<nat, seq<string>>, target: string, items: seq<Item>,
                                           groups: seq<Group>, index: map<Key, nat>)
    requires Grouped(r, who, target, items, groups, index)
    ensures multiset(AllGroups(groups)) == multiset(CallsOfItems(items))
    decreases |items|
  {
    hide KeyOf, Grouped, CallsWith, AllGroups;
    if items == [] {
      NoCallsGrouped(r, who, target, groups, index);
      EmptyGroups(groups);
    } else {
      var n := |items| - 1;
      var g := KeyHasGroup(r, who, target, items, groups, index);
      var before := groups[g := Group(groups[g].key, groups[g].calls[..|groups[g].calls|-1])];
      GroupedBack(r, who, target, items, groups, index, g);
      GroupsPartition(r, who, target, items[..n], before, index);
      LastTaken(groups, g, items[n].call);
      assert CallsOfItems(items) == CallsOfItems(items[..n]) + [items[n].call];
    }
  }

  lemma LastTaken(groups: seq<Group>, g: nat, call: nat)
    requires g < |groups| && groups[g].calls != [] && groups[g].calls[|groups[g].calls|-1] == call
    ensures multiset(AllGroups(groups)) ==
            multiset(AllGroups(groups[g := Group(groups[g].key, groups[g].calls[..|groups[g].calls|-1])]))
              + multiset{call}
  {
    hide AllGroups;
    var was := groups[g].calls[..|groups[g].calls|-1];
    var before := groups[g := Group(groups[g].key, was)];
    GroupGains(before, g, call);
    assert groups[g].calls == was + [call];
    assert before[g := Group(before[g].key, before[g].calls + [call])] == groups;
  }

  lemma NoCallsGrouped(r: Reading, who: map<nat, seq<string>>, target: string, groups: seq<Group>, index: map<Key, nat>)
    requires Grouped(r, who, target, [], groups, index)
    ensures forall g :: 0 <= g < |groups| ==> groups[g].calls == []
  {
  }

  lemma {:induction false} EmptyGroups(groups: seq<Group>)
    requires forall g :: 0 <= g < |groups| ==> groups[g].calls == []
    ensures AllGroups(groups) == []
  {
    if groups != [] { EmptyGroups(groups[..|groups|-1]); }
  }

  lemma KeyHasGroup(r: Reading, who: map<nat, seq<string>>, target: string, items: seq<Item>, groups: seq<Group>,
                    index: map<Key, nat>) returns (g: nat)
    requires Grouped(r, who, target, items, groups, index) && items != []
    ensures g < |groups| && groups[g].key == KeyOf(r, who, target, items[|items|-1])
    ensures groups[g].calls == CallsWith(r, who, target, items[..|items|-1], groups[g].key) + [items[|items|-1].call]
  {
    hide KeyOf;
    var key := KeyOf(r, who, target, items[|items|-1]);
    assert CallsWith(r, who, target, items, key) ==
             CallsWith(r, who, target, items[..|items|-1], key) + [items[|items|-1].call];
    assert key in index;
    g := index[key];
  }

  lemma GroupedBack(r: Reading, who: map<nat, seq<string>>, target: string, items: seq<Item>, groups: seq<Group>,
                    index: map<Key, nat>, g: nat)
    requires Grouped(r, who, target, items, groups, index) && items != [] && g < |groups|
    requires groups[g].key == KeyOf(r, who, target, items[|items|-1])
    requires groups[g].calls == CallsWith(r, who, target, items[..|items|-1], groups[g].key) + [items[|items|-1].call]
    ensures Grouped(r, who, target, items[..|items|-1],
                    groups[g := Group(groups[g].key, groups[g].calls[..|groups[g].calls|-1])], index)
  {
    hide KeyOf;
    var n := |items| - 1;
    var before := groups[g := Group(groups[g].key, groups[g].calls[..|groups[g].calls|-1])];
    forall h | 0 <= h < |before| ensures before[h].calls == CallsWith(r, who, target, items[..n], before[h].key) {
      if h != g {
        assert before[h] == groups[h] && groups[h].key != groups[g].key;
        assert CallsWith(r, who, target, items, groups[h].key) ==
                 CallsWith(r, who, target, items[..n], groups[h].key) + [];
      }
    }
    forall k | k !in index ensures CallsWith(r, who, target, items[..n], k) == [] {
      assert k != groups[g].key;
      assert CallsWith(r, who, target, items, k) == CallsWith(r, who, target, items[..n], k) + [];
    }
  }
}
