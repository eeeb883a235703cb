/**
 The whole roll-up, what it leaves for any relations, and what follows: the
 main talks' costs, the main stream's loose calls and the unattributed calls
 add up to the conversation, and no sub-task's calls are counted twice.
 */
module LedgerTotals {
  import opened Costs
  import opened Ledger
  import opened Starters
  import opened RollUp
  import opened SubtaskForest
  import opened RollUpWalk

  /** Every stream but the main one is one sub-task, rightly placed or kept, with exactly the streams it started. */
  ghost predicate SubtasksRight(d: Doc, callsOf: map<Owner, seq<nat>>, subtasks: seq<Subtask>, index: map<string,
                                nat>) {
    && Indexed(subtasks, index) && index.Keys == OtherStreams(d)
    && (forall i :: 0 <= i < |subtasks| ==> Right(d, callsOf, subtasks[i]))
    && (forall i :: 0 <= i < |subtasks| ==> OwnChildren(d, subtasks[i]))
  }

  ghost predicate OwnChildren(d: Doc, st: Subtask) {
    Distinct(st.children) && forall c :: c in st.children <==> ParentOf(d, c) == OfStream(st.name)
  }

  lemma StartedIsOther(d: Doc, s: string)
    requires Starter(d, s).Some?
    ensures s in OtherStreams(d)
  {
    assert Starts(d, s, Starter(d, s).value);
  }

  lemma {:induction false} ReachingIsOther(d: Doc, claimed: set<string>)
    requires Claimed(d, claimed, |d.main|)
    ensures claimed <= OtherStreams(d)
  {
    hide Starter;
    forall s | s in claimed ensures s in OtherStreams(d) {
      var j :| 0 <= j < |d.main| && BelongsTo(d, s, d.main[j]);
      var k: nat :| Reaches(d, s, d.main[j], k);
      StartedIsOther(d, s);
    }
  }

  lemma AdoptedAreAll(d: Doc, claimed: set<string>)
    requires Claimed(d, claimed, |d.main|)
    ensures forall c :: c in claimed + (set s | s in OtherStreams(d) - claimed && Starter(d, s).Some?) <==>
              Starter(d, c).Some?
  {
    hide Starter;
    ReachingIsOther(d, claimed);
    forall c ensures c in claimed ==> Starter(d, c).Some? {
      if c in claimed {
        var j :| 0 <= j < |d.main| && BelongsTo(d, c, d.main[j]);
        var k: nat :| Reaches(d, c, d.main[j], k);
      }
    }
    forall c | Starter(d, c).Some? ensures c in OtherStreams(d) {
      StartedIsOther(d, c);
    }
  }

  lemma ForestIsRight(d: Doc, callsOf: map<Owner, seq<nat>>, subtasks: seq<Subtask>, index: map<string, nat>,
                      members: set<string>)
    requires Forest(d, callsOf, subtasks, index, members) && index.Keys == OtherStreams(d)
    requires forall c :: c in members <==> Starter(d, c).Some?
    ensures SubtasksRight(d, callsOf, subtasks, index)
  {
    hide Right, Starter;
    forall i | 0 <= i < |subtasks| ensures OwnChildren(d, subtasks[i]) {
      assert ChildrenAre(d, subtasks[i], members);
    }
  }

  /** Rolls up a ledger that has no sub-tasks yet. */
  method RollUpAll(r: Roller)
    returns (ownersOf: map<string, seq<Owner>>, places: map<string, map<Owner, nat>>, agents: map<string, nat>)
    requires r.Valid() && r.claimed == {}
    modifies r
    ensures SubtasksRight(r.d, r.callsOf, r.subtasks, r.index)
    ensures TalksReached(r.d, ownersOf, places, |r.d.main|)
  {
    hide StartersFound, ChildrenFound, State, Claimed, Kept, Forest, Starter;
    var starters := FindStarters(r.d);
    var kids := FindChildren(r.d, starters);
    ownersOf, places, agents := r.RollTalks(kids);
    r.KeepAllUnplaced(starters);
    ghost var kept := OtherStreams(r.d) - r.claimed;
    KeptIndexed(r.d, r.callsOf, r.claimed, r.subtasks, r.index, kept);
    r.AdoptUnplaced(kept);
    AdoptedAreAll(r.d, r.claimed);
    ReachingIsOther(r.d, r.claimed);
    ForestIsRight(r.d, r.callsOf, r.subtasks, r.index,
                  r.claimed + set s | s in kept && Starter(r.d, s).Some?);
  }

  /**
   A sub-task is placed under a main talk exactly when its chain of sole starters leads there, at the
   chain's length.
   */
  lemma PlacedIff(d: Doc, callsOf: map<Owner, seq<nat>>, subtasks: seq<Subtask>, index: map<string, nat>, s: string,
                  t: string, k: nat)
    requires Ready(d) && SubtasksRight(d, callsOf, subtasks, index) && s in index && t in d.main
    ensures Reaches(d, s, t, k) <==> subtasks[index[s]].main == Some(t) && subtasks[index[s]].depth == k
  {
    hide OwnChildren;
    var st := subtasks[index[s]];
    assert Right(d, callsOf, st);
    if Reaches(d, s, t, k) {
      assert BelongsTo(d, s, t);
      OneChain(d, s, t, k, st.main.value, st.depth);
    }
  }

  /** A stream that is its own starter's starter, at any distance, is placed under no main talk. */
  lemma {:induction false} CyclesUnplaced(d: Doc, s: string, n: nat, t: string, k: nat)
    requires Ready(d) && t in d.main && n > 0 && Below(d, s, s, n)
    ensures !Reaches(d, s, t, k)
    decreases k
  {
    if Reaches(d, s, t, k) {
      AlongChain(d, s, s, n, t, k);
      OneChain(d, s, t, k, t, k - n);
    }
  }

  /** Climbing n parents from s leads to top. */
  ghost predicate Below(d: Doc, s: string, top: string, n: nat)
    decreases n
  {
    if n == 0 then s == top else ParentOf(d, s).OfStream? && Below(d, ParentOf(d, s).name, top, n - 1)
  }

  lemma {:induction false} AlongChain(d: Doc, s: string, p: string, n: nat, t: string, k: nat)
    requires Ready(d) && t in d.main && Below(d, s, p, n) && Reaches(d, s, t, k)
    ensures k > n && Reaches(d, p, t, k - n)
    decreases n
  {
    hide Starter;
    if n > 0 {
      assert Starter(d, s).value != Talk(t);
      AlongChain(d, ParentOf(d, s).name, p, n - 1, t, k - 1);
    }
  }

  // ---------------------------------------------------------------------
  // Conservation.
  // ---------------------------------------------------------------------

  /** The owners of these talks' reach, one talk after another. */
  function ReachOf(ownersOf: map<string, seq<Owner>>, talks: seq<string>): seq<Owner> {
    if talks == [] then []
    else ReachOf(ownersOf, talks[..|talks|-1]) + if talks[|talks|-1] in ownersOf then ownersOf[talks[|talks|-1]] else []
  }

  /** No two main talks reach one owner. */
  lemma {:induction false} ReachDistinct(d: Doc, ownersOf: map<string, seq<Owner>>, talks: seq<string>)
    requires Ready(d) && Distinct(talks)
    requires forall t :: t in talks ==> t in d.main && t in ownersOf && OwnersReached(d, t, ownersOf[t])
    ensures Distinct(ReachOf(ownersOf, talks))
    ensures forall o :: o in ReachOf(ownersOf, talks) <==> exists t :: t in talks && o in ownersOf[t]
  {
    if talks != [] {
      var n := |talks| - 1;
      var before, t := talks[..n], talks[n];
      assert talks == before + [t];
      ReachDistinct(d, ownersOf, before);
      forall o | o in ownersOf[t] ensures o !in ReachOf(ownersOf, before) {
        if o in ReachOf(ownersOf, before) {
          var u :| u in before && o in ownersOf[u];
          ReachedOnce(d, ownersOf, t, u, o);
        }
      }
      DistinctBoth(ReachOf(ownersOf, before), ownersOf[t]);
    }
  }

  lemma ReachedOnce(d: Doc, ownersOf: map<string, seq<Owner>>, t: string, u: string, o: Owner)
    requires Ready(d) && t in d.main && u in d.main && t in ownersOf && u in ownersOf
    requires OwnersReached(d, t, ownersOf[t]) && OwnersReached(d, u, ownersOf[u])
    requires o in ownersOf[t] && o in ownersOf[u]
    ensures t == u
  {
    hide BelongsTo;
    MainIsNobodys(d, t);
    MainIsNobodys(d, u);
    if o != Talk(t) && o != Talk(u) { OneTalk(d, StreamOf(d, o), t, u); }
  }

  /** The owners outside every main talk's reach, the main stream's loose calls left aside. */
  method Unreached(d: Doc, ownersOf: map<string, seq<Owner>>) returns (rest: seq<Owner>)
    ensures Distinct(d.owners) ==> Distinct(rest)
    ensures forall o :: o in rest <==>
              o in d.owners && o != Loose(MAIN) && forall t :: t in ownersOf ==> o !in ownersOf[t]
  {
    var reached := {Loose(MAIN)} + set t, o | t in ownersOf && o in ownersOf[t] :: o;
    rest := [];
    for k := 0 to |d.owners|
      invariant Distinct(d.owners) ==> Distinct(rest)
      invariant forall o :: o in rest <==> o in d.owners[..k] && o !in reached
    {
      if d.owners[k] !in reached {
        rest := rest + [d.owners[k]];
      }
    }
  }

  /**
   Every owner is in one main talk's reach, or is the main stream's loose one, or is left over: never
   two of these.
   */
  lemma PartsAreOwners(d: Doc, ownersOf: map<string, seq<Owner>>, places: map<string, map<Owner, nat>>,
                       rest: seq<Owner>)
    requires Ready(d) && TalksReached(d, ownersOf, places, |d.main|)
    requires Distinct(rest)
    requires forall o :: o in rest <==>
               o in d.owners && o != Loose(MAIN) && forall t :: t in ownersOf ==> o !in ownersOf[t]
    ensures Distinct(ReachOf(ownersOf, d.main) + rest + [Loose(MAIN)])
    ensures forall o :: o in d.owners ==> o in ReachOf(ownersOf, d.main) + rest + [Loose(MAIN)]
  {
    hide Ready, TalksReached, ReachOf;
    MainReach(d, ownersOf, places);
    LooseMainUnreached(d, ownersOf, places);
    DistinctBoth(ReachOf(ownersOf, d.main), rest);
    DistinctBoth(ReachOf(ownersOf, d.main) + rest, [Loose(MAIN)]);
  }

  lemma MainReach(d: Doc, ownersOf: map<string, seq<Owner>>, places: map<string, map<Owner, nat>>)
    requires Ready(d) && TalksReached(d, ownersOf, places, |d.main|)
    ensures Distinct(ReachOf(ownersOf, d.main))
    ensures forall o :: o in ReachOf(ownersOf, d.main) <==> exists t :: t in ownersOf && o in ownersOf[t]
  {
    hide OwnersReached, PlacesRight, ReachOf;
    assert d.main[..|d.main|] == d.main;
    ReachDistinct(d, ownersOf, d.main);
  }

  lemma LooseMainUnreached(d: Doc, ownersOf: map<string, seq<Owner>>, places: map<string, map<Owner, nat>>)
    requires TalksReached(d, ownersOf, places, |d.main|)
    ensures forall t :: t in ownersOf ==> Loose(MAIN) !in ownersOf[t]
  {
    hide BelongsTo, PlacesRight;
    forall t | t in ownersOf ensures Loose(MAIN) !in ownersOf[t] {
      MainIsNobodys(d, t);
      assert OwnersReached(d, t, ownersOf[t]);
    }
  }

  /** What the main talks cost with everything they started, one talk added to the next. */
  ghost function TalksCost(calls: seq<Call>, callsOf: map<Owner, seq<nat>>, ownersOf: map<string, seq<Owner>>,
                           talks: seq<string>): Cost
    requires Counted(calls, callsOf)
  {
    if talks == [] then NOTHING
    else
      var t := talks[|talks|-1];
      var owners := if t in ownersOf then ownersOf[t] else [];
      assert Indexes(calls, Together(callsOf, owners)) by { TogetherIndexes(calls, callsOf, owners); }
      Plus(TalksCost(calls, callsOf, ownersOf, talks[..|talks|-1]), Sum(calls, Together(callsOf, owners)))
  }

  lemma {:induction false} TalksCostIs(calls: seq<Call>, callsOf: map<Owner, seq<nat>>, ownersOf: map<string,
                                       seq<Owner>>, talks: seq<string>)
    requires Counted(calls, callsOf)
    ensures Indexes(calls, Together(callsOf, ReachOf(ownersOf, talks)))
    ensures TalksCost(calls, callsOf, ownersOf, talks) == Sum(calls, Together(callsOf, ReachOf(ownersOf, talks)))
  {
    hide Counted;
    TogetherIndexes(calls, callsOf, ReachOf(ownersOf, talks));
    if talks != [] {
      var t := talks[|talks|-1];
      var owners := if t in ownersOf then ownersOf[t] else [];
      var before := ReachOf(ownersOf, talks[..|talks|-1]);
      TalksCostIs(calls, callsOf, ownersOf, talks[..|talks|-1]);
      TogetherOfBoth(callsOf, before, owners);
      TogetherIndexes(calls, callsOf, before);
      TogetherIndexes(calls, callsOf, owners);
      SumOfBoth(calls, Together(callsOf, before), Together(callsOf, owners));
    }
  }

  /**
   The main talks, the unattributed owners and the main stream's loose calls hold each call once, and
   cost what the conversation costs.
   */
  lemma RollUpConserves(d: Doc, calls: seq<Call>, callsOf: map<Owner, seq<nat>>, ownersOf: map<string, seq<Owner>>,
                        places: map<string, map<Owner, nat>>, rest: seq<Owner>)
    requires Ready(d) && Counted(calls, callsOf) && TalksReached(d, ownersOf, places, |d.main|)
    requires forall i :: 0 <= i < |calls| ==> calls[i].owner in d.owners
    requires Distinct(rest)
    requires forall o :: o in rest <==>
               o in d.owners && o != Loose(MAIN) && forall t :: t in ownersOf ==> o !in ownersOf[t]
    ensures multiset(Together(callsOf, ReachOf(ownersOf, d.main) + rest + [Loose(MAIN)])) == multiset(AllCalls(|calls|))
    ensures Indexes(calls, Together(callsOf, rest)) && Indexes(calls, Together(callsOf, [Loose(MAIN)]))
    ensures Sum(calls, AllCalls(|calls|)) ==
            Plus(Plus(TalksCost(calls, callsOf, ownersOf, d.main), Sum(calls, Together(callsOf, rest))),
                 Sum(calls, Together(callsOf, [Loose(MAIN)])))
  {
    hide Counted, TalksReached, Ready;
    PartsAreOwners(d, ownersOf, places, rest);
    var parts := ReachOf(ownersOf, d.main) + rest + [Loose(MAIN)];
    OwnersPartition(calls, callsOf, parts);
    TogetherIndexes(calls, callsOf, parts);
    SumIgnoresOrder(calls, Together(callsOf, parts), AllCalls(|calls|));
    TalksCostIs(calls, callsOf, ownersOf, d.main);
    SumOfThree(calls, callsOf, ReachOf(ownersOf, d.main), rest, [Loose(MAIN)]);
  }

  lemma SumOfThree(calls: seq<Call>, callsOf: map<Owner, seq<nat>>, a: seq<Owner>, b: seq<Owner>, c: seq<Owner>)
    requires Counted(calls, callsOf)
    ensures Indexes(calls, Together(callsOf, a)) && Indexes(calls, Together(callsOf, b))
    ensures Indexes(calls, Together(callsOf, c))
    ensures Indexes(calls, Together(callsOf, a + b + c))
    ensures Sum(calls, Together(callsOf, a + b + c)) ==
            Plus(Plus(Sum(calls, Together(callsOf, a)), Sum(calls, Together(callsOf, b))),
                 Sum(calls, Together(callsOf, c)))
  {
    hide Counted, Sum;
    TogetherIndexes(calls, callsOf, a);
    TogetherIndexes(calls, callsOf, b);
    TogetherIndexes(calls, callsOf, c);
    TogetherOfBoth(callsOf, a + b, c);
    TogetherOfBoth(callsOf, a, b);
    SumOfBoth(calls, Together(callsOf, a), Together(callsOf, b));
    SumOfBoth(calls, Together(callsOf, a) + Together(callsOf, b), Together(callsOf, c));
  }
}
