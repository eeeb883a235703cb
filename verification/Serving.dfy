/**
 Which targets each model call served. A talk that serves several targets is
 cut at its inputs: a call goes to the targets the last input before it, in the
 talk's own order, directed work to.
 */
module Serving {
  import opened Costs
  import opened Ledger
  import opened Starters
  import opened RollUp
  import opened RollUpWalk
  import opened LedgerTotals
  import opened LedgerCompute
  import opened StableSort

  datatype Kind = Create | Refine | Steer | Correct | Accept | Cancel | Thanks | NoPerson

  datatype Action = Action(target: string, kind: Kind)

  datatype Input = Input(node: string, talk: string, actions: seq<Action>)

  datatype Target = Target(id: string, talks: seq<string>)

  /** A cut of a talk: from this place on, work goes to these targets. */
  datatype Cut = Cut(place: nat, targets: seq<string>)

  predicate Directs(k: Kind) {
    k == Create || k == Refine || k == Steer || k == Correct
  }

  /** Some action of an input directs work to a target. */
  predicate DirectedTo(actions: seq<Action>, t: string) {
    exists k :: 0 <= k < |actions| && actions[k].target == t && actions[k].kind in {Create, Refine, Steer, Correct}
  }

  // ---------------------------------------------------------------------
  // Who claims a talk.
  // ---------------------------------------------------------------------

  /** How many of these talks are this one, that many times the target. */
  function Times(id: string, talks: seq<string>, tk: string): (r: seq<string>)
    ensures forall x :: x in r <==> x == id && tk in talks
    ensures Distinct(talks) ==> |r| <= 1
  {
    if talks == [] then []
    else
      var n := |talks| - 1;
      assert talks == talks[..n] + [talks[n]];
      var before := Times(id, talks[..n], tk);
      assert before != [] ==> before[0] in before;
      before + if talks[n] == tk then [id] else []
  }

  /** The targets that claim a talk, in the targets' order. */
  function ClaimsOf(targets: seq<Target>, tk: string): seq<string> {
    if targets == [] then []
    else ClaimsOf(targets[..|targets|-1], tk) + Times(targets[|targets|-1].id, targets[|targets|-1].talks, tk)
  }

  /** Targets are told apart by their ids, and each lists a talk at most once. */
  ghost predicate DistinctTargets(targets: seq<Target>) {
    && (forall j, k :: 0 <= j < k < |targets| ==> targets[j].id != targets[k].id)
    && (forall j :: 0 <= j < |targets| ==> Distinct(targets[j].talks))
  }

  predicate Claims(targets: seq<Target>, x: string, tk: string) {
    exists k :: 0 <= k < |targets| && targets[k].id == x && tk in targets[k].talks
  }

  lemma {:induction false} ClaimsAre(targets: seq<Target>, tk: string)
    ensures forall x :: x in ClaimsOf(targets, tk) <==> Claims(targets, x, tk)
    ensures DistinctTargets(targets) ==> Distinct(ClaimsOf(targets, tk))
  {
    if targets != [] {
      var n := |targets| - 1;
      ClaimsAre(targets[..n], tk);
      var last := Times(targets[n].id, targets[n].talks, tk);
      forall x ensures x in ClaimsOf(targets, tk) <==> Claims(targets, x, tk) {
        ClaimsGrow(targets, x, tk);
      }
      if DistinctTargets(targets) {
        assert !Claims(targets[..n], targets[n].id, tk);
        DistinctBoth(ClaimsOf(targets[..n], tk), last);
      }
    }
  }

  lemma ClaimsGrow(targets: seq<Target>, x: string, tk: string)
    requires targets != []
    ensures Claims(targets, x, tk) <==>
            Claims(targets[..|targets|-1], x, tk) || (targets[|targets|-1].id == x && tk in targets[|targets|-1].talks)
  {
    var n := |targets| - 1;
    if Claims(targets, x, tk) {
      var k :| 0 <= k < |targets| && targets[k].id == x && tk in targets[k].talks;
      assert k < n ==> targets[..n][k] == targets[k];
    }
    if Claims(targets[..n], x, tk) {
      var k :| 0 <= k < |targets[..n]| && targets[..n][k].id == x && tk in targets[..n][k].talks;
      assert targets[..n][k] == targets[k];
    }
  }

  function ClaimedBy(claims: map<string, seq<string>>, tk: string): seq<string> {
    if tk in claims then claims[tk] else []
  }

  /** Who claims a talk, of these targets and one that has listed these talks so far. */
  function Partly(targets: seq<Target>, id: string, talks: seq<string>, tk: string): seq<string> {
    ClaimsOf(targets, tk) + Times(id, talks, tk)
  }

  /** The claims of these targets and of these talks of one more. */
  ghost predicate Collected(claims: map<string, seq<string>>, targets: seq<Target>, id: string, talks: seq<string>) {
    forall tk :: ClaimedBy(claims, tk) == Partly(targets, id, talks, tk)
  }

  /** Collects, per talk, the targets that claim it. */
  method CollectClaims(targets: seq<Target>) returns (claims: map<string, seq<string>>)
    ensures forall tk :: ClaimedBy(claims, tk) == ClaimsOf(targets, tk)
  {
    hide Collected;
    claims := map[];
    NothingCollected();
    for k := 0 to |targets|
      invariant Collected(claims, targets[..k], "", [])
    {
      var t := targets[k];
      CollectingTarget(claims, targets[..k], t.id);
      assert t.talks[..0] == [];
      for j := 0 to |t.talks|
        invariant Collected(claims, targets[..k], t.id, t.talks[..j])
      {
        CollectingTalk(claims, targets[..k], t.id, t.talks, j);
        claims := claims[t.talks[j] := ClaimedBy(claims, t.talks[j]) + [t.id]];
      }
      assert t.talks[..|t.talks|] == t.talks;
      CollectedTarget(claims, targets, k);
    }
    assert targets[..|targets|] == targets;
    CollectedAll(claims, targets);
  }

  lemma NothingCollected()
    ensures Collected(map[], [], "", [])
  {
  }

  lemma CollectingTarget(claims: map<string, seq<string>>, targets: seq<Target>, id: string)
    requires Collected(claims, targets, "", [])
    ensures Collected(claims, targets, id, [])
  {
    hide ClaimsOf;
    forall tk ensures ClaimedBy(claims, tk) == Partly(targets, id, [], tk) {
      assert ClaimedBy(claims, tk) == Partly(targets, "", [], tk);
    }
  }

  lemma CollectingTalk(claims: map<string, seq<string>>, targets: seq<Target>, id: string, talks: seq<string>, j: nat)
    requires j < |talks| && Collected(claims, targets, id, talks[..j])
    ensures Collected(claims[talks[j] := ClaimedBy(claims, talks[j]) + [id]], targets, id, talks[..j+1])
  {
    hide Partly;
    var after := claims[talks[j] := ClaimedBy(claims, talks[j]) + [id]];
    forall tk ensures ClaimedBy(after, tk) == Partly(targets, id, talks[..j+1], tk) {
      assert ClaimedBy(claims, tk) == Partly(targets, id, talks[..j], tk);
      PartlyNext(targets, id, talks, j, tk);
    }
  }

  lemma PartlyNext(targets: seq<Target>, id: string, talks: seq<string>, j: nat, tk: string)
    requires j < |talks|
    ensures Partly(targets, id, talks[..j+1], tk) == Partly(targets, id, talks[..j], tk) + if talks[j] ==
              tk then [id] else []
  {
    hide ClaimsOf;
    assert talks[..j+1][..j] == talks[..j];
  }

  lemma CollectedTarget(claims: map<string, seq<string>>, targets: seq<Target>, k: nat)
    requires k < |targets| && Collected(claims, targets[..k], targets[k].id, targets[k].talks)
    ensures Collected(claims, targets[..k+1], "", [])
  {
    assert targets[..k+1][..k] == targets[..k];
    forall tk ensures ClaimedBy(claims, tk) == Partly(targets[..k+1], "", [], tk) {
      assert ClaimedBy(claims, tk) == Partly(targets[..k], targets[k].id, targets[k].talks, tk);
    }
  }

  lemma CollectedAll(claims: map<string, seq<string>>, targets: seq<Target>)
    requires Collected(claims, targets, "", [])
    ensures forall tk :: ClaimedBy(claims, tk) == ClaimsOf(targets, tk)
  {
    hide ClaimsOf;
    forall tk ensures ClaimedBy(claims, tk) == ClaimsOf(targets, tk) {
      assert ClaimedBy(claims, tk) == Partly(targets, "", [], tk);
    }
  }

  // ---------------------------------------------------------------------
  // The cuts of a talk.
  // ---------------------------------------------------------------------

  /** The targets, among those that claim the talk, that an input directs work to, each once. */
  function Directed(claimed: seq<string>, actions: seq<Action>): (ts: seq<string>)
    ensures Distinct(ts)
    ensures forall t :: t in ts <==> t in claimed && DirectedTo(actions, t)
  {
    if claimed == [] then []
    else
      var n := |claimed| - 1;
      var before := Directed(claimed[..n], actions);
      assert claimed == claimed[..n] + [claimed[n]];
      if DirectedTo(actions, claimed[n]) && claimed[n] !in before then before + [claimed[n]] else before
  }

  /** The targets an input directs work to, found as the close does, action by action. */
  method FindDirected(claimed: seq<string>, actions: seq<Action>) returns (ts: seq<string>)
    ensures ts == Directed(claimed, actions)
  {
    hide DirectedTo;
    ts := [];
    for k := 0 to |claimed|
      invariant ts == Directed(claimed[..k], actions)
    {
      var t := claimed[k];
      ghost var before := ts;
      assert claimed[..k+1][..k] == claimed[..k];
      NotDirectedYet(actions, t);
      for j := 0 to |actions|
        invariant ts == if DirectedTo(actions[..j], t) && t !in before then before + [t] else before
      {
        DirectedNext(actions, t, j);
        if actions[j].target == t && Directs(actions[j].kind) && t !in ts {
          ts := ts + [t];
        }
      }
      assert actions[..|actions|] == actions;
    }
    assert claimed[..|claimed|] == claimed;
  }

  lemma NotDirectedYet(actions: seq<Action>, t: string)
    ensures !DirectedTo(actions[..0], t)
  {
  }

  lemma DirectedNext(actions: seq<Action>, t: string, j: nat)
    requires j < |actions|
    ensures DirectedTo(actions[..j+1], t) <==>
              DirectedTo(actions[..j], t) || (actions[j].target == t && Directs(actions[j].kind))
    ensures Directs(actions[j].kind) <==> actions[j].kind in {Create, Refine, Steer, Correct}
  {
    var a, b := actions[..j], actions[..j+1];
    if DirectedTo(a, t) {
      var k :| 0 <= k < |a| && a[k].target == t && Directs(a[k].kind);
      assert b[k] == a[k];
    }
    if DirectedTo(b, t) {
      var k :| 0 <= k < |b| && b[k].target == t && Directs(b[k].kind);
      assert k < j ==> a[k] == b[k];
    }
    assert b[j] == actions[j];
  }

  /** The cuts of talk tk, in the inputs' order: each input of known place that directs work to a target of the talk. */
  function CutsOf(order: map<string, nat>, claimed: seq<string>, inputs: seq<Input>, tk: string): (cs: seq<Cut>)
    ensures forall k :: 0 <= k < |cs| ==> cs[k].targets != [] && Distinct(cs[k].targets)
    ensures forall k, t :: 0 <= k < |cs| && t in cs[k].targets ==> t in claimed
  {
    if inputs == [] then []
    else
      var n := |inputs| - 1;
      CutsOf(order, claimed, inputs[..n], tk) + CutOf(order, claimed, inputs[n], tk)
  }

  function CutOf(order: map<string, nat>, claimed: seq<string>, input: Input, tk: string): (cs: seq<Cut>)
    ensures |cs| <= 1
    ensures forall k :: 0 <= k < |cs| ==> cs[k].targets != [] && Distinct(cs[k].targets)
    ensures forall k, t :: 0 <= k < |cs| && t in cs[k].targets ==> t in claimed
  {
    if input.talk == tk && input.node in order && Directed(claimed, input.actions) != []
    then [Cut(order[input.node], Directed(claimed, input.actions))] else []
  }

  /** The cut that rules at a place: the last begun by it, and of those begun at once the one whose input came last. */
  function Ruling(cs: seq<Cut>, place: nat): (r: Option<Cut>)
    ensures r.Some? ==> r.value in cs && r.value.place <= place
    ensures r.Some? ==> forall c :: c in cs && c.place <= place ==> c.place <= r.value.place
    ensures r.None? ==> forall c :: c in cs ==> c.place > place
  {
    if cs == [] then None
    else
      var n := |cs| - 1;
      var before := Ruling(cs[..n], place);
      assert cs == cs[..n] + [cs[n]];
      if cs[n].place <= place && (before.None? || before.value.place <= cs[n].place) then Some(cs[n]) else before
  }

  /** The targets a call at this place served. */
  function Served(cs: seq<Cut>, claimed: seq<string>, place: nat): seq<string> {
    var r := Ruling(cs, place);
    if r.Some? then r.value.targets else claimed
  }

  // ---------------------------------------------------------------------
  // Ordering the cuts.
  // ---------------------------------------------------------------------

  function PlaceOf(): Cut -> int {
    (c: Cut) => c.place as int
  }

  /** In a list already in order, the ruling cut is the last one begun by the place. */
  function LastBegun(cs: seq<Cut>, place: nat): Option<Cut> {
    if cs == [] then None
    else if cs[|cs|-1].place <= place then Some(cs[|cs|-1]) else LastBegun(cs[..|cs|-1], place)
  }

  lemma {:induction false} InsertedRules(cs: seq<Cut>, c: Cut, place: nat)
    requires InOrder(cs, PlaceOf())
    ensures LastBegun(Inserted(cs, c, PlaceOf()), place) ==
            if c.place <= place && (LastBegun(cs, place).None? || LastBegun(cs, place).value.place <= c.place)
            then Some(c) else LastBegun(cs, place)
  {
    if cs == [] {
      assert [c][..0] == [];
    } else {
      var n := |cs| - 1;
      if cs[n].place <= c.place {
        OneMore(cs, c, place);
        LastBegunBound(cs, place);
      } else {
        InsertedRules(cs[..n], c, place);
        assert Inserted(cs, c, PlaceOf()) == Inserted(cs[..n], c, PlaceOf()) + [cs[n]];
        OneMore(Inserted(cs[..n], c, PlaceOf()), cs[n], place);
      }
    }
  }

  lemma OneMore(cs: seq<Cut>, c: Cut, place: nat)
    ensures LastBegun(cs + [c], place) == if c.place <= place then Some(c) else LastBegun(cs, place)
  {
    assert (cs + [c])[..|cs|] == cs;
  }

  lemma {:induction false} LastBegunBound(cs: seq<Cut>, place: nat)
    requires InOrder(cs, PlaceOf()) && cs != []
    ensures LastBegun(cs, place).Some? ==> LastBegun(cs, place).value.place <= cs[|cs|-1].place
  {
    var n := |cs| - 1;
    if cs[n].place > place && n > 0 { LastBegunBound(cs[..n], place); }
  }

  /** Sorting first and taking the last begun is choosing the ruling cut. */
  lemma {:induction false} SortedRules(cs: seq<Cut>, place: nat)
    ensures LastBegun(Sorted(cs, PlaceOf()), place) == Ruling(cs, place)
  {
    if cs != [] {
      var n := |cs| - 1;
      SortedRules(cs[..n], place);
      InsertedRules(Sorted(cs[..n], PlaceOf()), cs[n], place);
    }
  }

  /** Goes over sorted cuts as the close does, keeping the last that has begun. */
  method ServedBy(cs: seq<Cut>, claimed: seq<string>, place: nat) returns (ts: seq<string>)
    ensures ts == Served(cs, claimed, place)
  {
    hide Sorted, Ruling;
    ts := claimed;
    var sorted := Sorted(cs, PlaceOf());
    for k := 0 to |sorted|
      invariant ts ==
                  if LastBegun(sorted[..k], place).Some? then LastBegun(sorted[..k], place).value.targets else claimed
    {
      assert sorted[..k+1][..k] == sorted[..k];
      if sorted[k].place <= place { ts := sorted[k].targets; }
    }
    assert sorted[..|sorted|] == sorted;
    SortedRules(cs, place);
  }

  // ---------------------------------------------------------------------
  // Every call of every claimed talk.
  // ---------------------------------------------------------------------

  /** The calls a main talk includes. */
  function CallsOf(l: LedgerOf, tk: string): seq<nat> {
    if tk in l.ownersOf then Together(l.callsOf, l.ownersOf[tk]) else []
  }

  /**
   Where a call falls in a talk: its own place in its own talk, and for a child's call that of the step
   at the top of its chain.
   */
  function Place(l: LedgerOf, tk: string, i: nat): nat
    requires i < |l.calls|
  {
    if l.calls[i].owner == Talk(tk) then l.calls[i].order
    else if tk in l.places && l.calls[i].owner in l.places[tk] then l.places[tk][l.calls[i].owner]
    else 0
  }

  /** The targets call i of talk tk served. */
  function ServedIn(l: LedgerOf, targets: seq<Target>, inputs: seq<Input>, tk: string, i: nat): (ts: seq<string>)
    requires i < |l.calls|
  {
    Served(CutsOf(l.doc.order, ClaimsOf(targets, tk), inputs, tk), ClaimsOf(targets, tk), Place(l, tk, i))
  }

  /** What a call served is some of the targets that claim its talk, each once, and none only when none claims it. */
  lemma ServedAreClaims(l: LedgerOf, targets: seq<Target>, inputs: seq<Input>, tk: string, i: nat)
    requires i < |l.calls| && DistinctTargets(targets)
    ensures Distinct(ServedIn(l, targets, inputs, tk, i))
    ensures forall x :: x in ServedIn(l, targets, inputs, tk, i) ==> Claims(targets, x, tk)
    ensures ServedIn(l, targets, inputs, tk, i) == [] <==> ClaimsOf(targets, tk) == []
  {
    hide Claims;
    ClaimsAre(targets, tk);
    var cs := CutsOf(l.doc.order, ClaimsOf(targets, tk), inputs, tk);
    var r := Ruling(cs, Place(l, tk, i));
    if r.Some? {
      var k :| 0 <= k < |cs| && cs[k] == r.value;
      assert cs[k].targets[0] in cs[k].targets;
    }
  }

  /** No two main talks include one call. */
  lemma {:induction false} OneTalkEach(l: LedgerOf, talks: seq<Tree>, loose: seq<Tree>, tk: string, uk: string, i: nat)
    requires Sound(l, talks, loose) && i in CallsOf(l, tk) && i in CallsOf(l, uk)
    ensures tk == uk && i < |l.calls|
  {
    hide SubtasksRight, Ready, PlacesRight, Counted, Together, CallsOfJobs, OwnedMet;
    CallsOfOnce(l, talks, loose, tk, i);
    CallsOfOnce(l, talks, loose, uk, i);
    assert l.doc.main[..|l.doc.main|] == l.doc.main;
    ReachedOnce(l.doc, l.ownersOf, tk, uk, l.calls[i].owner);
  }

  /** A main talk includes a call once, when its owner is one the talk reached. */
  lemma {:induction false} CallsOfOnce(l: LedgerOf, talks: seq<Tree>, loose: seq<Tree>, tk: string, i: nat)
    requires Sound(l, talks, loose)
    ensures multiset(CallsOf(l, tk))[i] == if i < |l.calls| && tk in l.ownersOf && l.calls[i].owner in l.ownersOf[tk]
        then 1 else 0
    ensures i in CallsOf(l, tk) <==> i < |l.calls| && tk in l.ownersOf && l.calls[i].owner in l.ownersOf[tk]
  {
    hide SubtasksRight, Ready, PlacesRight, Counted, Together, CallsOfJobs, OwnedMet;
    assert i in multiset(CallsOf(l, tk)) <==> i in CallsOf(l, tk);
    if tk in l.ownersOf {
      assert OwnersReached(l.doc, tk, l.ownersOf[tk]);
      EachOnce(l.calls, l.callsOf, l.ownersOf[tk], i);
    }
  }

  /**
   Where a call of a talk falls in it: at its own place in the talk, or at the step its stream's chain
   leaves the talk at.
   */
  lemma {:induction false} PlaceIs(l: LedgerOf, talks: seq<Tree>, loose: seq<Tree>, tk: string, i: nat)
    requires Sound(l, talks, loose) && i in CallsOf(l, tk)
    ensures i < |l.calls|
    ensures l.calls[i].owner == Talk(tk) ==> Place(l, tk, i) == l.calls[i].order
    ensures l.calls[i].owner != Talk(tk) ==> HasPlace(l.doc, StreamOf(l.doc, l.calls[i].owner), tk, Place(l, tk, i))
  {
    hide SubtasksRight, Ready, Counted, Together, CallsOfJobs, OwnedMet, HasPlace, OwnersReached;
    CallsOfOnce(l, talks, loose, tk, i);
    assert PlacesRight(l.doc, tk, l.ownersOf[tk], l.places[tk]);
  }
}
