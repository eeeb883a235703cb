/**
 Closing a run: every call of a claimed talk is priced to the targets it
 served, the other calls are unassigned or unattributed, and nothing is lost
 or counted twice.
 */
module CloseCost {
  import opened Costs
  import opened Ledger
  import opened Starters
  import opened RollUp
  import opened LedgerTotals
  import opened LedgerCompute
  import opened Serving
  import opened Shares

  // ---------------------------------------------------------------------
  // The targets each call served.
  // ---------------------------------------------------------------------

  /** Exactly the calls of claimed talks have targets: those the talk's cuts give them. */
  ghost predicate WhoRight(l: LedgerOf, targets: seq<Target>, inputs: seq<Input>, who: map<nat, seq<string>>) {
    && (forall i :: i in who ==> ServedSomewhere(l, targets, inputs, i, who[i]))
    && (forall tk, i :: i in CallsOf(l, tk) && ClaimsOf(targets, tk) != [] ==> i in who)
  }

  ghost predicate ServedSomewhere(l: LedgerOf, targets: seq<Target>, inputs: seq<Input>, i: nat, ts: seq<string>) {
    exists tk :: ServedThere(l, targets, inputs, tk, i, ts)
  }

  predicate ServedThere(l: LedgerOf, targets: seq<Target>, inputs: seq<Input>, tk: string, i: nat, ts: seq<string>) {
    && i in CallsOf(l, tk) && ClaimsOf(targets, tk) != []
    && i < |l.calls| && ts == ServedIn(l, targets, inputs, tk, i)
  }

  function Cuts(cuts: map<string, seq<Cut>>, tk: string): seq<Cut> {
    if tk in cuts then cuts[tk] else []
  }

  /** Cuts every talk at its inputs. */
  method CutTalks(l: LedgerOf, targets: seq<Target>, claims: map<string, seq<string>>, inputs: seq<Input>)
    returns (cuts: map<string, seq<Cut>>)
    requires forall tk :: ClaimedBy(claims, tk) == ClaimsOf(targets, tk)
    ensures forall tk :: Cuts(cuts, tk) == CutsOf(l.doc.order, ClaimsOf(targets, tk), inputs, tk)
  {
    hide Directed, ClaimsOf;
    cuts := map[];
    assert inputs[..0] == [];
    for k := 0 to |inputs|
      invariant forall tk :: Cuts(cuts, tk) == CutsOf(l.doc.order, ClaimsOf(targets, tk), inputs[..k], tk)
    {
      var input := inputs[k];
      assert inputs[..k+1][..k] == inputs[..k];
      ghost var was := cuts;
      var claimed := ClaimedBy(claims, input.talk);
      var ts := FindDirected(claimed, input.actions);
      if input.node in l.doc.order && ts != [] {
        cuts := cuts[input.talk := Cuts(cuts, input.talk) + [Cut(l.doc.order[input.node], ts)]];
      }
      forall tk ensures Cuts(cuts, tk) == CutsOf(l.doc.order, ClaimsOf(targets, tk), inputs[..k+1], tk) {
        assert Cuts(was, tk) == CutsOf(l.doc.order, ClaimsOf(targets, tk), inputs[..k], tk);
      }
    }
    assert inputs[..|inputs|] == inputs;
  }

  /** Gives each call of each claimed talk the targets it served. */
  method FindWho(l: LedgerOf, targets: seq<Target>, inputs: seq<Input>) returns (who: map<nat, seq<string>>)
    requires forall tk, i :: i in CallsOf(l, tk) ==> i < |l.calls|
    ensures WhoRight(l, targets, inputs, who)
  {
    hide CallsOf, ClaimsOf, CutsOf, Served, Place, ServedThere;
    var claims := CollectClaims(targets);
    var cuts := CutTalks(l, targets, claims, inputs);
    who := map[];
    var todo := claims.Keys;
    while todo != {}
      invariant forall i :: i in who ==> ServedSomewhere(l, targets, inputs, i, who[i])
      invariant forall tk, i :: i in CallsOf(l, tk) && ClaimsOf(targets, tk) != [] && tk !in todo ==> i in who
      decreases todo
    {
      var tk :| tk in todo;
      var claimed := claims[tk];
      var cs := Cuts(cuts, tk);
      var idx := CallsOf(l, tk);
      if claimed != [] {
        who := WhoOfTalk(l, targets, inputs, tk, cs, claimed, who);
      }
      todo := todo - {tk};
    }
    forall tk, i | i in CallsOf(l, tk) && ClaimsOf(targets, tk) != [] ensures i in who {
      assert ClaimedBy(claims, tk) == ClaimsOf(targets, tk);
    }
  }

  /** Gives each call of one talk the targets it served. */
  method WhoOfTalk(l: LedgerOf, targets: seq<Target>, inputs: seq<Input>, tk: string, cs: seq<Cut>,
                   claimed: seq<string>, who0: map<nat, seq<string>>)
    returns (who: map<nat, seq<string>>)
    requires claimed == ClaimsOf(targets, tk) && claimed != []
    requires cs == CutsOf(l.doc.order, claimed, inputs, tk)
    requires forall i :: i in CallsOf(l, tk) ==> i < |l.calls|
    requires forall i :: i in who0 ==> ServedSomewhere(l, targets, inputs, i, who0[i])
    ensures forall i :: i in who ==> ServedSomewhere(l, targets, inputs, i, who[i])
    ensures forall i :: i in who <==> i in who0 || i in CallsOf(l, tk)
  {
    hide CallsOf, ClaimsOf, CutsOf, Served, Place;
    who := who0;
    var idx := CallsOf(l, tk);
    for k := 0 to |idx|
      invariant forall i :: i in who ==> ServedSomewhere(l, targets, inputs, i, who[i])
      invariant forall i :: i in who <==> i in who0 || i in idx[..k]
    {
      assert idx[k] in idx;
      var ts := ServedBy(cs, claimed, Place(l, tk, idx[k]));
      assert ServedThere(l, targets, inputs, tk, idx[k], ts);
      who := who[idx[k] := ts];
    }
  }

  lemma {:induction false} CallsAreCalls(l: LedgerOf, talks: seq<Tree>, loose: seq<Tree>)
    requires Sound(l, talks, loose)
    ensures forall tk, i :: i in CallsOf(l, tk) ==> i < |l.calls|
  {
    hide Sound, CallsOf;
    forall tk, i | i in CallsOf(l, tk) ensures i < |l.calls| {
      CallsOfOnce(l, talks, loose, tk, i);
    }
  }

  /** A call's targets are some of those that claim the one talk that includes it; it has none when none claims it. */
  lemma {:induction false} WhoIs(l: LedgerOf, talks: seq<Tree>, loose: seq<Tree>, targets: seq<Target>,
                                 inputs: seq<Input>, who: map<nat, seq<string>>, tk: string, i: nat)
    requires Sound(l, talks, loose) && DistinctTargets(targets) && WhoRight(l, targets, inputs, who)
    requires i in CallsOf(l, tk)
    ensures i < |l.calls| && Who(who, i) == if ClaimsOf(targets, tk) == [] then []
        else ServedIn(l, targets, inputs, tk, i)
  {
    hide Sound, CallsOf, ClaimsOf, ServedIn, DistinctTargets;
    CallsAreCalls(l, talks, loose);
    if i in who {
      assert ServedSomewhere(l, targets, inputs, i, who[i]);
      var uk :| ServedThere(l, targets, inputs, uk, i, who[i]);
      OneTalkEach(l, talks, loose, tk, uk, i);
    }
  }

  lemma {:induction false} WhoOutside(l: LedgerOf, targets: seq<Target>, inputs: seq<Input>, who: map<nat, seq<string>>,
                                      i: nat)
    requires WhoRight(l, targets, inputs, who) && Who(who, i) != []
    ensures exists tk :: i in CallsOf(l, tk)
  {
    hide CallsOf, ClaimsOf, ServedIn;
    assert ServedSomewhere(l, targets, inputs, i, who[i]);
    var uk :| ServedThere(l, targets, inputs, uk, i, who[i]);
    assert i in CallsOf(l, uk);
  }

  function Targets(targets: seq<Target>): (ts: seq<string>)
    ensures |ts| == |targets| && forall k :: 0 <= k < |targets| ==> ts[k] == targets[k].id
  {
    seq(|targets|, k requires 0 <= k < |targets| => targets[k].id)
  }

  /** Every call's targets are targets of the run, each once. */
  lemma {:induction false} WhoAreTargets(l: LedgerOf, talks: seq<Tree>, loose: seq<Tree>, targets: seq<Target>,
                                         inputs: seq<Input>, who: map<nat, seq<string>>, i: nat)
    requires Sound(l, talks, loose) && DistinctTargets(targets) && WhoRight(l, targets, inputs, who)
    ensures Distinct(Who(who, i)) && forall t :: t in Who(who, i) ==> t in Targets(targets)
  {
    hide Sound, CallsOf, ClaimsOf, ServedIn, DistinctTargets, WhoRight;
    if Who(who, i) != [] {
      WhoOutside(l, targets, inputs, who, i);
      var tk :| i in CallsOf(l, tk);
      WhoIs(l, talks, loose, targets, inputs, who, tk, i);
      ServedAreClaims(l, targets, inputs, tk, i);
      forall t | t in Who(who, i) ensures t in Targets(targets) {
        assert Claims(targets, t, tk);
        var k :| 0 <= k < |targets| && targets[k].id == t && tk in targets[k].talks;
        assert Targets(targets)[k] == t;
      }
    }
  }

  // ---------------------------------------------------------------------
  // The calls of one target.
  // ---------------------------------------------------------------------

  /** Of these calls, those that served target t. */
  function Kept(who: map<nat, seq<string>>, t: string, idx: seq<nat>): (r: seq<nat>)
    ensures forall i :: i in r <==> i in idx && t in Who(who, i)
  {
    if idx == [] then []
    else
      assert idx == idx[..|idx|-1] + [idx[|idx|-1]];
      Kept(who, t, idx[..|idx|-1]) + if t in Who(who, idx[|idx|-1]) then [idx[|idx|-1]] else []
  }

  lemma {:induction false} KeptTimes(who: map<nat, seq<string>>, t: string, idx: seq<nat>, i: nat)
    ensures multiset(Kept(who, t, idx))[i] == if t in Who(who, i) then multiset(idx)[i] else 0
  {
    hide Who, Kept;
    if idx == [] {
      NothingKept(who, t);
    } else {
      var n := |idx| - 1;
      KeptNext(who, t, idx, n);
      assert idx[..n+1] == idx;
      KeptTimes(who, t, idx[..n], i);
      OneMoreTime(idx[..n], idx[n], i);
      OneMoreTime(Kept(who, t, idx[..n]), idx[n], i);
      assert idx == idx[..n] + [idx[n]];
      assert Kept(who, t, idx[..n]) + [] == Kept(who, t, idx[..n]);
    }
  }

  lemma NothingKept(who: map<nat, seq<string>>, t: string)
    ensures Kept(who, t, []) == []
  {
  }

  lemma OneMoreTime(idx: seq<nat>, x: nat, i: nat)
    ensures multiset(idx + [x])[i] == multiset(idx)[i] + if x == i then 1 else 0
  {
  }

  /** The calls of these talks that served target t, talk by talk. */
  function MineOf(l: LedgerOf, who: map<nat, seq<string>>, t: string, tks: seq<string>): (r: seq<nat>)
    ensures forall i :: i in r ==> t in Who(who, i) && InOneOf(l, tks, i)
  {
    hide CallsOf, Who;
    if tks == [] then [] else MineOf(l, who, t, tks[..|tks|-1]) + Kept(who, t, CallsOf(l, tks[|tks|-1]))
  }

  predicate InOneOf(l: LedgerOf, tks: seq<string>, i: nat) {
    exists tk :: tk in tks && i in CallsOf(l, tk)
  }

  lemma {:induction false} MineOnce(l: LedgerOf, talks: seq<Tree>, loose: seq<Tree>, who: map<nat, seq<string>>,
                                    t: string, tks: seq<string>, i: nat)
    requires Sound(l, talks, loose) && Distinct(tks)
    ensures multiset(MineOf(l, who, t, tks))[i] == if t in Who(who, i) && InOneOf(l, tks, i) then 1 else 0
  {
    hide Sound, Who, CallsOf, InOneOf;
    if tks == [] {
      NotInNone(l, i);
    } else {
      var n := |tks| - 1;
      assert tks == tks[..n] + [tks[n]];
      MineOnce(l, talks, loose, who, t, tks[..n], i);
      KeptTimes(who, t, CallsOf(l, tks[n]), i);
      InLast(l, talks, loose, tks, i);
    }
  }

  lemma NotInNone(l: LedgerOf, i: nat)
    ensures !InOneOf(l, [], i)
  {
  }

  lemma {:induction false} InLast(l: LedgerOf, talks: seq<Tree>, loose: seq<Tree>, tks: seq<string>, i: nat)
    requires Sound(l, talks, loose) && Distinct(tks) && tks != []
    ensures multiset(CallsOf(l, tks[|tks|-1]))[i] == if i in CallsOf(l, tks[|tks|-1]) then 1 else 0
    ensures InOneOf(l, tks, i) <==> InOneOf(l, tks[..|tks|-1], i) || i in CallsOf(l, tks[|tks|-1])
    ensures !(InOneOf(l, tks[..|tks|-1], i) && i in CallsOf(l, tks[|tks|-1]))
  {
    hide Sound, CallsOf;
    var n := |tks| - 1;
    assert tks == tks[..n] + [tks[n]];
    CallsOfOnce(l, talks, loose, tks[n], i);
    if InOneOf(l, tks[..n], i) && i in CallsOf(l, tks[n]) {
      var tk :| tk in tks[..n] && i in CallsOf(l, tk);
      OneTalkEach(l, talks, loose, tk, tks[n], i);
    }
  }

  /** A target's calls, gathered over its talks, are each call it served, once. */
  lemma {:induction false} MineIsServed(l: LedgerOf, talks: seq<Tree>, loose: seq<Tree>, targets: seq<Target>,
                                        inputs: seq<Input>, who: map<nat, seq<string>>, j: nat)
    requires Sound(l, talks, loose) && DistinctTargets(targets) && WhoRight(l, targets, inputs, who) && j < |targets|
    ensures forall i: nat :: multiset(MineOf(l, who, targets[j].id, targets[j].talks))[i] ==
              if i < |l.calls| && targets[j].id in Who(who, i) then 1 else 0
  {
    hide Sound, Who, CallsOf, InOneOf, MineOf, WhoRight;
    forall i: nat ensures multiset(MineOf(l, who, targets[j].id, targets[j].talks))[i] ==
                          if i < |l.calls| && targets[j].id in Who(who, i) then 1 else 0 {
      MineOnce(l, talks, loose, who, targets[j].id, targets[j].talks, i);
      if targets[j].id in Who(who, i) { ServedInMine(l, talks, loose, targets, inputs, who, j, i); }
    }
  }

  lemma {:induction false} ServedInMine(l: LedgerOf, talks: seq<Tree>, loose: seq<Tree>, targets: seq<Target>,
                                        inputs: seq<Input>, who: map<nat, seq<string>>, j: nat, i: nat)
    requires Sound(l, talks, loose) && DistinctTargets(targets) && WhoRight(l, targets, inputs, who) && j < |targets|
    requires targets[j].id in Who(who, i)
    ensures i < |l.calls| && InOneOf(l, targets[j].talks, i)
  {
    hide Sound, CallsOf, ClaimsOf, ServedIn, WhoRight, Who;
    WhoOutside(l, targets, inputs, who, i);
    var tk :| i in CallsOf(l, tk);
    WhoIs(l, talks, loose, targets, inputs, who, tk, i);
    ServedAreClaims(l, targets, inputs, tk, i);
    assert Claims(targets, targets[j].id, tk);
    var k :| 0 <= k < |targets| && targets[k].id == targets[j].id && tk in targets[k].talks;
    assert k == j;
  }

  // ---------------------------------------------------------------------
  // The calls no target claims.
  // ---------------------------------------------------------------------

  /** Of these calls, those that served no target. */
  function Unserved(who: map<nat, seq<string>>, idx: seq<nat>): (r: seq<nat>)
    ensures forall i :: i in r <==> i in idx && Who(who, i) == []
  {
    if idx == [] then []
    else
      assert idx == idx[..|idx|-1] + [idx[|idx|-1]];
      Unserved(who, idx[..|idx|-1]) + if Who(who, idx[|idx|-1]) == [] then [idx[|idx|-1]] else []
  }

  lemma {:induction false} UnservedTimes(who: map<nat, seq<string>>, idx: seq<nat>, i: nat)
    ensures multiset(Unserved(who, idx))[i] == if Who(who, i) == [] then multiset(idx)[i] else 0
  {
    hide Who, Unserved;
    UnservedNone(who);
    if idx != [] {
      var n := |idx| - 1;
      UnservedTimes(who, idx[..n], i);
      UnservedNext(who, idx[..n], idx[n]);
      assert idx == idx[..n] + [idx[n]];
      OneMoreTime(idx[..n], idx[n], i);
      OneMoreTime(Unserved(who, idx[..n]), idx[n], i);
      assert Unserved(who, idx[..n]) + [] == Unserved(who, idx[..n]);
    }
  }

  /** The calls of these talks, talk by talk. */
  function CallsOfAll(l: LedgerOf, tks: seq<string>): seq<nat> {
    if tks == [] then [] else CallsOfAll(l, tks[..|tks|-1]) + CallsOf(l, tks[|tks|-1])
  }

  lemma {:induction false} AllOnceEach(l: LedgerOf, talks: seq<Tree>, loose: seq<Tree>, tks: seq<string>, i: nat)
    requires Sound(l, talks, loose) && Distinct(tks)
    ensures multiset(CallsOfAll(l, tks))[i] == if InOneOf(l, tks, i) then 1 else 0
  {
    hide Sound, CallsOf, InOneOf;
    if tks == [] {
      NotInNone(l, i);
    } else {
      var n := |tks| - 1;
      assert tks == tks[..n] + [tks[n]];
      AllOnceEach(l, talks, loose, tks[..n], i);
      InLast(l, talks, loose, tks, i);
    }
  }

  lemma {:induction false} AllAreReach(l: LedgerOf, tks: seq<string>)
    ensures CallsOfAll(l, tks) == Together(l.callsOf, ReachOf(l.ownersOf, tks))
  {
    if tks != [] {
      var n := |tks| - 1;
      AllAreReach(l, tks[..n]);
      TogetherOfBoth(l.callsOf, ReachOf(l.ownersOf, tks[..n]), if tks[n] in l.ownersOf then l.ownersOf[tks[n]] else []);
    }
  }

  // ---------------------------------------------------------------------
  // Nothing lost, nothing twice.
  // ---------------------------------------------------------------------

  /** Every call a target was given is a call of these talks. */
  ghost predicate ClaimsWithin(l: LedgerOf, who: map<nat, seq<string>>, tks: seq<string>) {
    forall i :: Who(who, i) != [] ==> InOneOf(l, tks, i)
  }

  /** The calls that served a target and those that served none are the talks' calls. */
  lemma {:induction false} AssignedOrNot(l: LedgerOf, talks: seq<Tree>, loose: seq<Tree>, who: map<nat, seq<string>>,
                                         tks: seq<string>)
    requires Sound(l, talks, loose) && Distinct(tks) && ClaimsWithin(l, who, tks)
    ensures multiset(AssignedBefore(who, |l.calls|) + Unserved(who, CallsOfAll(l, tks))) == multiset(CallsOfAll(l, tks))
  {
    hide Sound, InOneOf, CallsOfAll, AssignedBefore, Unserved, Who;
    forall i: nat
      ensures Count(AssignedBefore(who, |l.calls|) + Unserved(who, CallsOfAll(l, tks)), i) ==
                Count(CallsOfAll(l, tks), i)
    {
      AllOnceEach(l, talks, loose, tks, i);
      AssignedOnce(who, |l.calls|, i);
      UnservedTimes(who, CallsOfAll(l, tks), i);
      InOneIsCall(l, talks, loose, tks, i);
    }
    SameCounts(AssignedBefore(who, |l.calls|) + Unserved(who, CallsOfAll(l, tks)), CallsOfAll(l, tks));
  }

  function Count(s: seq<nat>, i: nat): nat {
    multiset(s)[i]
  }

  lemma SameCounts(a: seq<nat>, b: seq<nat>)
    requires forall i: nat :: Count(a, i) == Count(b, i)
    ensures multiset(a) == multiset(b)
  {
    forall i: nat ensures multiset(a)[i] == multiset(b)[i] {
      assert Count(a, i) == Count(b, i);
    }
    SameOccurrences(a, b);
  }

  lemma {:induction false} InOneIsCall(l: LedgerOf, talks: seq<Tree>, loose: seq<Tree>, tks: seq<string>, i: nat)
    requires Sound(l, talks, loose)
    ensures InOneOf(l, tks, i) ==> i < |l.calls|
  {
    hide Sound, CallsOf;
    CallsAreCalls(l, talks, loose);
  }

  lemma MineIndexes(l: LedgerOf, who: map<nat, seq<string>>, t: string, tks: seq<string>)
    requires forall tk, i :: i in CallsOf(l, tk) ==> i < |l.calls|
    ensures Indexes(SharesFor(l.calls, who, t), MineOf(l, who, t, tks))
    ensures forall k :: 0 <= k < |MineOf(l, who, t, tks)| ==> t in Who(who, MineOf(l, who, t, tks)[k])
  {
    hide CallsOf, Who;
    var mine := MineOf(l, who, t, tks);
    forall k | 0 <= k < |mine| ensures mine[k] < |l.calls| {
      assert mine[k] in mine;
    }
  }

  /** What one target cost: its shares of its calls. */
  ghost function TargetValue(l: LedgerOf, who: map<nat, seq<string>>, t: Target): Value
    requires forall tk, i :: i in CallsOf(l, tk) ==> i < |l.calls|
  {
    MineIndexes(l, who, t.id, t.talks);
    ValueOf(Sum(SharesFor(l.calls, who, t.id), MineOf(l, who, t.id, t.talks)))
  }

  ghost function TargetsValue(l: LedgerOf, who: map<nat, seq<string>>, targets: seq<Target>): Value
    requires forall tk, i :: i in CallsOf(l, tk) ==> i < |l.calls|
  {
    if targets == [] then NO_VALUE
    else AddValue(TargetsValue(l, who, targets[..|targets|-1]), TargetValue(l, who, targets[|targets|-1]))
  }

  lemma {:induction false} TargetsAreSpread(l: LedgerOf, talks: seq<Tree>, loose: seq<Tree>, targets: seq<Target>,
                                            inputs: seq<Input>, who: map<nat, seq<string>>, n: nat)
    requires Sound(l, talks, loose) && DistinctTargets(targets) && WhoRight(l, targets, inputs, who) && n <= |targets|
    requires forall tk, i :: i in CallsOf(l, tk) ==> i < |l.calls|
    ensures TargetsValue(l, who, targets[..n]) == AllSpread(l.calls, who, Targets(targets)[..n], |l.calls|)
  {
    hide Sound, CallsOf, WhoRight, DistinctTargets, AddValue, Sum, Spread, Who, MineOf, SharesFor;
    if n > 0 {
      TargetsAreSpread(l, talks, loose, targets, inputs, who, n - 1);
      assert targets[..n][..n-1] == targets[..n-1];
      assert Targets(targets)[..n][..n-1] == Targets(targets)[..n-1];
      MineIsServed(l, talks, loose, targets, inputs, who, n - 1);
      ListIsSpread(l.calls, who, targets[n-1].id, MineOf(l, who, targets[n-1].id, targets[n-1].talks));
    }
  }

  /** The targets' costs and the unassigned calls of the judged talks add up to the judged talks. */
  lemma JudgedAddUp(l: LedgerOf, talks: seq<Tree>, loose: seq<Tree>, targets: seq<Target>, inputs: seq<Input>,
                    who: map<nat, seq<string>>, judged: seq<string>)
    requires Sound(l, talks, loose) && DistinctTargets(targets) && WhoRight(l, targets, inputs, who)
    requires Distinct(judged) && ClaimsWithin(l, who, judged)
    requires forall tk, i :: i in CallsOf(l, tk) ==> i < |l.calls|
    ensures Indexes(l.calls, Unserved(who, CallsOfAll(l, judged))) && Indexes(l.calls, CallsOfAll(l, judged))
    ensures AddValue(TargetsValue(l, who, targets), ValueOf(Sum(l.calls, Unserved(who, CallsOfAll(l, judged))))) ==
            ValueOf(Sum(l.calls, CallsOfAll(l, judged)))
  {
    hide Sound, CallsOf, WhoRight, DistinctTargets, AddValue, Sum, Who, TargetsValue, AllSpread, CallsOfAll,
      AssignedBefore, Unserved, Plus, ValueOf, ClaimsWithin;
    var calls := l.calls;
    var all, rest := CallsOfAll(l, judged), Unserved(who, CallsOfAll(l, judged));
    CallsOfAllIndexes(l, talks, loose, judged);
    assert targets[..|targets|] == targets && Targets(targets)[..|targets|] == Targets(targets);
    TargetsAreSpread(l, talks, loose, targets, inputs, who, |targets|);
    AllWho(l, talks, loose, targets, inputs, who);
    TargetsAddUp(calls, who, Targets(targets), |calls|);
    AssignedOrNot(l, talks, loose, who, judged);
    SumOfBoth(calls, AssignedBefore(who, |calls|), rest);
    ValueAdds(Sum(calls, AssignedBefore(who, |calls|)), Sum(calls, rest));
    SumIgnoresOrder(calls, AssignedBefore(who, |calls|) + rest, all);
  }

  lemma {:induction false} AllWho(l: LedgerOf, talks: seq<Tree>, loose: seq<Tree>, targets: seq<Target>,
                                  inputs: seq<Input>, who: map<nat, seq<string>>)
    requires Sound(l, talks, loose) && DistinctTargets(targets) && WhoRight(l, targets, inputs, who)
    ensures AllAmong(l.calls, who, Targets(targets)) && Distinct(Targets(targets))
  {
    hide Sound, CallsOf, WhoRight, Who;
    forall i: nat ensures Distinct(Who(who, i)) && forall t :: t in Who(who, i) ==> t in Targets(targets) {
      WhoAreTargets(l, talks, loose, targets, inputs, who, i);
    }
  }

  lemma {:induction false} CallsOfAllIndexes(l: LedgerOf, talks: seq<Tree>, loose: seq<Tree>, tks: seq<string>)
    requires Sound(l, talks, loose)
    ensures Indexes(l.calls, CallsOfAll(l, tks))
    ensures forall who :: Indexes(l.calls, Unserved(who, CallsOfAll(l, tks)))
  {
    hide Sound;
    AllAreReach(l, tks);
    SoundIsCounted(l, talks, loose);
    TogetherIndexes(l.calls, l.callsOf, ReachOf(l.ownersOf, tks));
    forall who ensures Indexes(l.calls, Unserved(who, CallsOfAll(l, tks))) {
      forall k | 0 <= k < |Unserved(who, CallsOfAll(l, tks))| ensures Unserved(who, CallsOfAll(l, tks))[k] < |l.calls| {
        assert Unserved(who, CallsOfAll(l, tks))[k] in Unserved(who, CallsOfAll(l, tks));
      }
    }
  }

  lemma SoundIsCounted(l: LedgerOf, talks: seq<Tree>, loose: seq<Tree>)
    requires Sound(l, talks, loose)
    ensures Counted(l.calls, l.callsOf) && Distinct(l.doc.main)
    ensures forall tk :: tk in l.ownersOf <==> tk in l.doc.main
  {
    assert l.doc.main[..|l.doc.main|] == l.doc.main;
  }

  /**
   With no window: what the targets cost, what is unassigned (the main talks'
   unclaimed calls and the main stream's loose ones) and what is unattributed
   add up to the conversation, for every token type and for money.
   */
  lemma {:induction false} RunAddsUp(l: LedgerOf, talks: seq<Tree>, loose: seq<Tree>, targets: seq<Target>,
                                     inputs: seq<Input>, who: map<nat, seq<string>>)
    requires Sound(l, talks, loose) && Conserved(l) && DistinctTargets(targets) && WhoRight(l, targets, inputs, who)
    requires forall tk, i :: i in CallsOf(l, tk) ==> i < |l.calls|
    ensures Indexes(l.calls, Unserved(who, CallsOfAll(l, l.doc.main)) + Get(l.callsOf, Loose(MAIN)))
    ensures AddValue(AddValue(TargetsValue(l, who, targets),
                              ValueOf(Sum(l.calls, Unserved(who, CallsOfAll(l, l.doc.main))
                                          + Get(l.callsOf, Loose(MAIN))))),
                     ValueOf(Sum(l.calls, l.unattributed))) == ValueOf(l.total)
  {
    hide Sound, CallsOf, WhoRight, DistinctTargets, AddValue, Sum, Who, TargetsValue, CallsOfAll, Unserved, Plus,
      ValueOf, ClaimsWithin, TalksCost, Get;
    var calls := l.calls;
    var all, rest := CallsOfAll(l, l.doc.main), Unserved(who, CallsOfAll(l, l.doc.main));
    var looseMain := Get(l.callsOf, Loose(MAIN));
    SoundIsCounted(l, talks, loose);
    ClaimsInMain(l, talks, loose, targets, inputs, who);
    JudgedAddUp(l, talks, loose, targets, inputs, who, l.doc.main);
    SumOfBoth(calls, rest, looseMain);
    ValueAdds(Sum(calls, rest), Sum(calls, looseMain));
    AllAreReach(l, l.doc.main);
    TalksCostIs(calls, l.callsOf, l.ownersOf, l.doc.main);
    ValueAdds(Sum(calls, all), Sum(calls, l.unattributed));
    ValueAdds(Plus(Sum(calls, all), Sum(calls, l.unattributed)), Sum(calls, looseMain));
    Rearranged(TargetsValue(l, who, targets), ValueOf(Sum(calls, rest)), ValueOf(Sum(calls, looseMain)),
               ValueOf(Sum(calls, l.unattributed)));
  }

  lemma Rearranged(a: Value, b: Value, c: Value, d: Value)
    ensures AddValue(AddValue(a, AddValue(b, c)), d) == AddValue(AddValue(AddValue(a, b), d), c)
  {
  }

  lemma ClaimsInMain(l: LedgerOf, talks: seq<Tree>, loose: seq<Tree>, targets: seq<Target>, inputs: seq<Input>,
                     who: map<nat, seq<string>>)
    requires Sound(l, talks, loose) && WhoRight(l, targets, inputs, who)
    ensures ClaimsWithin(l, who, l.doc.main)
  {
    hide Sound, WhoRight, Who;
    SoundIsCounted(l, talks, loose);
    forall i | Who(who, i) != [] ensures InOneOf(l, l.doc.main, i) {
      WhoOutside(l, targets, inputs, who, i);
      var tk :| i in CallsOf(l, tk);
    }
  }

  /**
   With a window the total is the selected talks' only, while the main stream's
   loose calls are still listed unassigned and the unattributed calls still
   listed: the parts then add up to that total exactly when both are worth nothing.
   */
  lemma {:induction false} WindowAddsUp(l: LedgerOf, talks: seq<Tree>, loose: seq<Tree>, targets: seq<Target>,
                                        inputs: seq<Input>, who: map<nat, seq<string>>, selected: seq<string>)
    requires Sound(l, talks, loose) && Conserved(l) && DistinctTargets(targets) && WhoRight(l, targets, inputs, who)
    requires Distinct(selected) && ClaimsWithin(l, who, selected)
    requires forall tk, i :: i in CallsOf(l, tk) ==> i < |l.calls|
    ensures Indexes(l.calls, Unserved(who, CallsOfAll(l, selected)) + Get(l.callsOf, Loose(MAIN)))
    ensures Indexes(l.calls, CallsOfAll(l, selected))
    ensures AddValue(AddValue(TargetsValue(l, who, targets),
                              ValueOf(Sum(l.calls, Unserved(who, CallsOfAll(l, selected))
                                          + Get(l.callsOf, Loose(MAIN))))),
                     ValueOf(Sum(l.calls, l.unattributed))) == ValueOf(Sum(l.calls, CallsOfAll(l, selected)))
            <==> AddValue(ValueOf(Sum(l.calls, Get(l.callsOf, Loose(MAIN)))),
                          ValueOf(Sum(l.calls, l.unattributed))) == NO_VALUE
  {
    hide Sound, CallsOf, WhoRight, DistinctTargets, AddValue, Sum, Who, TargetsValue, CallsOfAll, Unserved, Plus,
      ValueOf, ClaimsWithin, TalksCost, Get;
    var calls := l.calls;
    var rest, looseMain := Unserved(who, CallsOfAll(l, selected)), Get(l.callsOf, Loose(MAIN));
    JudgedAddUp(l, talks, loose, targets, inputs, who, selected);
    SumOfBoth(calls, rest, looseMain);
    ValueAdds(Sum(calls, rest), Sum(calls, looseMain));
    OnlyWhenNothing(TargetsValue(l, who, targets), ValueOf(Sum(calls, rest)), ValueOf(Sum(calls, looseMain)),
                    ValueOf(Sum(calls, l.unattributed)));
  }

  /**
   A document and a selection for which they do not: one talk without calls,
   selected, and one call of the main stream outside any talk.
   */
  method WindowMisses() returns (l: LedgerOf, ghost talks: seq<Tree>, ghost loose: seq<Tree>, selected: seq<string>)
    ensures Sound(l, talks, loose) && Conserved(l) && Distinct(selected)
    ensures WhoRight(l, [], [], map[]) && ClaimsWithin(l, map[], selected) && forall tk :: tk in selected ==>
              tk in l.doc.main
    ensures forall tk, i :: i in CallsOf(l, tk) ==> i < |l.calls|
    ensures Indexes(l.calls, Unserved(map[], CallsOfAll(l, selected)) + Get(l.callsOf, Loose(MAIN)))
    ensures Indexes(l.calls, CallsOfAll(l, selected))
    ensures AddValue(AddValue(TargetsValue(l, map[], []),
                              ValueOf(Sum(l.calls, Unserved(map[], CallsOfAll(l, selected))
                                          + Get(l.callsOf, Loose(MAIN))))),
                     ValueOf(Sum(l.calls, l.unattributed))) != ValueOf(Sum(l.calls, CallsOfAll(l, selected)))
  {
    hide Sound, Conserved, CallsOf, WhoRight, Sum, ValueOf, AddValue, ClaimsWithin, TargetsValue, CallsOfAll, Unserved;
    var talk := Tree(MAIN, Node("t", None, []));
    var outside := Tree(MAIN, Node("c", Some(CallInfo(0, Some(Usage(1, 0, 0, 0)), false, None)), []));
    l := Compute([talk], [outside], [], []);
    talks, loose, selected := [talk], [outside], ["t"];
    CallsAreCalls(l, talks, loose);
    NobodyServed(l, selected);
    OneTalkRead(l, talk, outside);
    LooseIsOne(l, talk, outside);
    ConservedIndexes(l, talks, loose);
    WindowAddsUp(l, talks, loose, [], [], map[], selected);
    Something(ValueOf(Sum(l.calls, Get(l.callsOf, Loose(MAIN)))), ValueOf(Sum(l.calls, l.unattributed)));
  }

  lemma NobodyServed(l: LedgerOf, tks: seq<string>)
    ensures WhoRight(l, [], [], map[]) && ClaimsWithin(l, map[], tks) && DistinctTargets([])
  {
  }

  lemma Something(a: Value, b: Value)
    requires a.usage.input > 0
    ensures AddValue(a, b) != NO_VALUE
  {
  }

  lemma OneTalkRead(l: LedgerOf, talk: Tree, outside: Tree)
    requires Sound(l, [talk], [outside]) && talk.stream == MAIN
    ensures talk.root.id in l.doc.main
  {
    hide Ready, SubtasksRight, CallsOfJobs, OwnedMet, OwnersOf, OwnersByNode;
    assert [talk][..0] == [];
  }

  /** The main stream's loose call is the one outside the talk, with its tokens. */
  lemma LooseIsOne(l: LedgerOf, talk: Tree, outside: Tree)
    requires Sound(l, [talk], [outside]) && outside.stream == MAIN && talk.root.call.None? && talk.root.children == []
    requires outside.root.children == [] && outside.root.call.Some? && outside.root.call.value.usage.Some?
    requires outside.root.call.value.usage.value.input > 0
    ensures Indexes(l.calls, Get(l.callsOf, Loose(MAIN)))
    ensures ValueOf(Sum(l.calls, Get(l.callsOf, Loose(MAIN)))).usage.input > 0
  {
    hide Ready, SubtasksRight, OwnersOf, OwnersByNode, CallsOfJobs, OwnedMet;
    var met := Met(outside.root.id, outside.root.call.value);
    LooseMet(talk, outside);
    OwnedAreNamed(l.calls, Loose(MAIN));
    var idx := Get(l.callsOf, Loose(MAIN));
    assert idx == CallsOwnedBy(l.calls, Loose(MAIN)) && |idx| == 1;
    assert MetOf(l.calls[idx[0]]) == met;
    assert idx[..0] == [];
    assert Sum(l.calls, idx) == Plus(NOTHING, CostOf(l.calls[idx[0]]));
  }

  lemma LooseMet(talk: Tree, outside: Tree)
    requires outside.stream == MAIN && outside.root.children == [] && outside.root.call.Some?
    ensures CallsOfJobs(TalkJobs([talk]) + LooseJobs([outside]), Loose(MAIN)) ==
              [Met(outside.root.id, outside.root.call.value)]
  {
    var jobs := TalkJobs([talk]) + LooseJobs([outside]);
    assert jobs == [Job(Talk(talk.root.id), talk.root), Job(Loose(MAIN), outside.root)];
    assert jobs[..1][..0] == [] && jobs[..1] == [jobs[0]];
    assert CallsOfJobs(jobs[..1], Loose(MAIN)) == [];
    assert CallsIn(outside.root) == [Met(outside.root.id, outside.root.call.value)];
  }

  lemma ConservedIndexes(l: LedgerOf, talks: seq<Tree>, loose: seq<Tree>)
    requires Sound(l, talks, loose) && Conserved(l)
    ensures Indexes(l.calls, l.unattributed)
  {
  }

  lemma OnlyWhenNothing(a: Value, b: Value, c: Value, d: Value)
    ensures AddValue(AddValue(a, AddValue(b, c)), d) == AddValue(a, b) <==> AddValue(c, d) == NO_VALUE
  {
  }

  /** Gathers a target's calls over its talks, as the close does. */
  method Gather(l: LedgerOf, who: map<nat, seq<string>>, t: string, tks: seq<string>) returns (mine: seq<nat>)
    ensures mine == MineOf(l, who, t, tks)
  {
    hide CallsOf, Who, MineOf, InOneOf, Kept;
    mine := [];
    assert MineOf(l, who, t, tks[..0]) == [] && Kept(who, t, []) == [] by { NothingMine(l, who, t, tks); }
    for n := 0 to |tks|
      invariant mine == MineOf(l, who, t, tks[..n])
    {
      MineNext(l, who, t, tks, n);
      var idx := CallsOf(l, tks[n]);
      ghost var before := mine;
      assert idx[..0] == [];
      for k := 0 to |idx|
        invariant mine == before + Kept(who, t, idx[..k])
      {
        KeptNext(who, t, idx, k);
        if t in Who(who, idx[k]) { mine := mine + [idx[k]]; }
      }
      assert idx[..|idx|] == idx;
    }
    assert tks[..|tks|] == tks;
  }

  /** Gathers the calls of these talks that served no target. */
  method GatherUnserved(l: LedgerOf, who: map<nat, seq<string>>, tks: seq<string>) returns (rest: seq<nat>)
    ensures rest == Unserved(who, CallsOfAll(l, tks))
  {
    hide CallsOf, Who, Unserved;
    rest := [];
    UnservedNone(who);
    for n := 0 to |tks|
      invariant rest == Unserved(who, CallsOfAll(l, tks[..n]))
    {
      assert tks[..n+1][..n] == tks[..n];
      var idx := CallsOf(l, tks[n]);
      ghost var before := rest;
      assert idx[..0] == [];
      for k := 0 to |idx|
        invariant rest == before + Unserved(who, idx[..k])
      {
        assert idx[..k+1] == idx[..k] + [idx[k]];
        UnservedNext(who, idx[..k], idx[k]);
        if Who(who, idx[k]) == [] { rest := rest + [idx[k]]; }
      }
      assert idx[..|idx|] == idx;
      UnservedOfBoth(who, CallsOfAll(l, tks[..n]), idx);
    }
    assert tks[..|tks|] == tks;
  }

  lemma {:induction false} UnservedOfBoth(who: map<nat, seq<string>>, a: seq<nat>, b: seq<nat>)
    ensures Unserved(who, a + b) == Unserved(who, a) + Unserved(who, b)
  {
    hide Who, Unserved;
    if b == [] {
      assert a + b == a;
      UnservedNone(who);
    } else {
      var n := |b| - 1;
      assert a + b == (a + b[..n]) + [b[n]];
      assert b == b[..n] + [b[n]];
      UnservedOfBoth(who, a, b[..n]);
      UnservedNext(who, a + b[..n], b[n]);
      UnservedNext(who, b[..n], b[n]);
    }
  }

  lemma UnservedNone(who: map<nat, seq<string>>)
    ensures Unserved(who, []) == []
  {
  }

  lemma UnservedNext(who: map<nat, seq<string>>, idx: seq<nat>, x: nat)
    ensures Unserved(who, idx + [x]) == Unserved(who, idx) + if Who(who, x) == [] then [x] else []
  {
    hide Who;
    assert (idx + [x])[..|idx|] == idx;
  }

  lemma NothingMine(l: LedgerOf, who: map<nat, seq<string>>, t: string, tks: seq<string>)
    ensures MineOf(l, who, t, tks[..0]) == [] && Kept(who, t, []) == []
  {
  }

  lemma KeptNext(who: map<nat, seq<string>>, t: string, idx: seq<nat>, k: nat)
    requires k < |idx|
    ensures Kept(who, t, idx[..k+1]) == Kept(who, t, idx[..k]) + if t in Who(who, idx[k]) then [idx[k]] else []
  {
    hide Who;
    assert idx[..k+1][..k] == idx[..k];
  }

  lemma MineNext(l: LedgerOf, who: map<nat, seq<string>>, t: string, tks: seq<string>, n: nat)
    requires n < |tks|
    ensures MineOf(l, who, t, tks[..n+1]) == MineOf(l, who, t, tks[..n]) + Kept(who, t, CallsOf(l, tks[n]))
  {
    assert tks[..n+1][..n] == tks[..n];
  }

  /** Closes a run of these judged talks: each target's amount, and the cost of what is unassigned. */
  method Close(l: LedgerOf, ghost talks: seq<Tree>, ghost loose: seq<Tree>, targets: seq<Target>, inputs: seq<Input>,
               judged: seq<string>)
    returns (who: map<nat, seq<string>>, amounts: seq<Amount>, unassigned: Cost)
    requires Sound(l, talks, loose)
    requires forall tk, i :: i in CallsOf(l, tk) ==> i < |l.calls|
    ensures WhoRight(l, targets, inputs, who) && |amounts| == |targets|
    ensures forall j :: 0 <= j < |targets| ==>
              Indexes(SharesFor(l.calls, who, targets[j].id), MineOf(l, who, targets[j].id, targets[j].talks))
    ensures forall j :: 0 <= j < |targets| ==>
              amounts[j] == AmountIn(Sum(SharesFor(l.calls, who, targets[j].id),
                                         MineOf(l, who, targets[j].id, targets[j].talks)))
    ensures Indexes(l.calls, Unserved(who, CallsOfAll(l, judged)) + Get(l.callsOf, Loose(MAIN)))
    ensures unassigned == Sum(l.calls, Unserved(who, CallsOfAll(l, judged)) + Get(l.callsOf, Loose(MAIN)))
  {
    hide Sound, CallsOf, CallsOfAll, MineOf, Unserved, Sum, SharesFor, WhoRight, Get;
    who := FindWho(l, targets, inputs);
    amounts := [];
    for j := 0 to |targets|
      invariant |amounts| == j
      invariant forall k :: 0 <= k < j ==>
                  Indexes(SharesFor(l.calls, who, targets[k].id), MineOf(l, who, targets[k].id, targets[k].talks))
      invariant forall k :: 0 <= k < j ==>
                  amounts[k] == AmountIn(Sum(SharesFor(l.calls, who, targets[k].id),
                                             MineOf(l, who, targets[k].id, targets[k].talks)))
    {
      var t := targets[j];
      var mine := Gather(l, who, t.id, t.talks);
      MineIndexes(l, who, t.id, t.talks);
      var a := AmountFor(l.calls, mine, who, t.id);
      amounts := amounts + [a];
    }
    var rest := GatherUnserved(l, who, judged);
    CallsOfAllIndexes(l, talks, loose, judged);
    LooseIndexes(l, talks, loose);
    unassigned := SumUp(l.calls, rest + Get(l.callsOf, Loose(MAIN)));
  }

  lemma LooseIndexes(l: LedgerOf, talks: seq<Tree>, loose: seq<Tree>)
    requires Sound(l, talks, loose)
    ensures Indexes(l.calls, Get(l.callsOf, Loose(MAIN)))
  {
    hide Sound;
    SoundIsCounted(l, talks, loose);
    TogetherIndexes(l.calls, l.callsOf, [Loose(MAIN)]);
    JustOne(l.callsOf, Loose(MAIN));
  }
}
