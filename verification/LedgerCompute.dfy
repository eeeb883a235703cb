/** A ledger computed from a document: its trees are walked, its calls added up and its child streams rolled up. */
module LedgerCompute {
  import opened Costs
  import opened Ledger
  import opened Starters
  import opened RollUp
  import opened SubtaskForest
  import opened RollUpWalk
  import opened LedgerTotals
  import opened SubtaskCalls

  datatype LedgerOf = LedgerOf(doc: Doc, producedBy: map<string, string>, calls: seq<Call>,
                               callsOf: map<Owner, seq<nat>>, subtasks: seq<Subtask>, index: map<string, nat>,
                               ownersOf: map<string, seq<Owner>>, places: map<string, map<Owner, nat>>,
                               unattributed: seq<nat>, total: Cost)

  predicate IsMainTalk(talks: seq<Tree>, t: string) {
    exists k :: 0 <= k < |talks| && talks[k].root.id == t && talks[k].stream == MAIN
  }

  /** The main talks are listed once each, and are the talks of the main stream. */
  lemma {:induction false} MainTalksAre(talks: seq<Tree>)
    requires DistinctTalks(talks)
    ensures Distinct(MainTalks(talks))
    ensures forall t :: t in MainTalks(talks) <==> IsMainTalk(talks, t)
  {
    hide IsMainTalk;
    if talks != [] {
      var n := |talks| - 1;
      MainTalksAre(talks[..n]);
      forall t
        ensures IsMainTalk(talks, t) <==>
                  IsMainTalk(talks[..n], t) || (t == talks[n].root.id && talks[n].stream == MAIN)
      {
        MainTalkOf(talks, t);
      }
      NewTalk(talks);
    } else {
      forall t ensures !IsMainTalk(talks, t) { NoMainTalk(t); }
    }
  }

  lemma NoMainTalk(t: string)
    ensures !IsMainTalk([], t)
  {
  }

  lemma MainTalkOf(talks: seq<Tree>, t: string)
    requires talks != []
    ensures IsMainTalk(talks, t) <==>
            IsMainTalk(talks[..|talks|-1], t) || (t == talks[|talks|-1].root.id && talks[|talks|-1].stream == MAIN)
  {
    var n := |talks| - 1;
    if IsMainTalk(talks, t) {
      var k :| 0 <= k < |talks| && talks[k].root.id == t && talks[k].stream == MAIN;
      assert k < n ==> talks[..n][k] == talks[k];
    }
    if IsMainTalk(talks[..n], t) {
      var k :| 0 <= k < |talks[..n]| && talks[..n][k].root.id == t && talks[..n][k].stream == MAIN;
      assert talks[..n][k] == talks[k];
    }
  }

  lemma NewTalk(talks: seq<Tree>)
    requires talks != [] && DistinctTalks(talks)
    ensures !IsMainTalk(talks[..|talks|-1], talks[|talks|-1].root.id)
  {
  }

  /** What the walk found is what the roll-up needs. */
  lemma WalkIsReady(d: Doc, calls: seq<Call>, talks: seq<Tree>, loose: seq<Tree>)
    requires DistinctTalks(talks) && Distinct(d.streams)
    requires Walked(calls, d.ownerOfNode, TalkJobs(talks) + LooseJobs(loose))
    requires d.owners == OwnersOf(TalkJobs(talks) + LooseJobs(loose))
    requires d.main == MainTalks(talks) && StreamsOf(talks, d.streamOf)
    requires d.ownerOfNode.Keys == d.order.Keys
    ensures Ready(d)
    ensures forall i :: 0 <= i < |calls| ==> calls[i].owner in d.owners
  {
    hide CallsOfJobs, OwnedMet, OwnersOf, MainTalks;
    MainTalksAre(talks);
    var jobs := TalkJobs(talks) + LooseJobs(loose);
    forall o | o in d.owners && o.Talk? ensures o.id in d.streamOf {
      var k :| 0 <= k < |jobs| && jobs[k].owner == o;
      assert k < |talks| && talks[k].root.id == o.id;
    }
    forall t ensures t in d.main <==> t in d.streamOf && d.streamOf[t] == MAIN {
      if t in d.streamOf {
        assert IsTalk(talks, t);
        var k :| 0 <= k < |talks| && talks[k].root.id == t;
        SameTalk(talks, t, k);
      }
    }
    forall t | t in d.main ensures Talk(t) in d.owners {
      assert IsMainTalk(talks, t);
      var k :| 0 <= k < |talks| && talks[k].root.id == t && talks[k].stream == MAIN;
      assert jobs[k].owner == Talk(t);
    }
  }

  lemma SameTalk(talks: seq<Tree>, t: string, k: nat)
    requires DistinctTalks(talks) && k < |talks| && talks[k].root.id == t
    ensures IsMainTalk(talks, t) <==> talks[k].stream == MAIN
  {
  }

  /** The ledger's owners, main talks and nodes are those of the document. */
  ghost predicate Read(l: LedgerOf, talks: seq<Tree>, loose: seq<Tree>) {
    && l.doc.owners == OwnersOf(TalkJobs(talks) + LooseJobs(loose))
    && l.doc.ownerOfNode == OwnersByNode(TalkJobs(talks) + LooseJobs(loose))
    && l.doc.main == MainTalks(talks) && StreamsOf(talks, l.doc.streamOf)
  }

  /** The places of its nodes and calls, and the calls its steps are inside of, are those of the document's trees. */
  ghost predicate InOrderRead(l: LedgerOf, talks: seq<Tree>, loose: seq<Tree>) {
    var vs := AllVisits(TalkJobs(talks) + LooseJobs(loose));
    l.doc.order == PlacesOf(vs) && Orders(l.calls) == CallPlaces(vs) && l.producedBy == AskedBy(vs)
  }

  /** What a ledger promises. */
  ghost predicate Sound(l: LedgerOf, talks: seq<Tree>, loose: seq<Tree>) {
    && Ready(l.doc) && Counted(l.calls, l.callsOf)
    && Read(l, talks, loose) && InOrderRead(l, talks, loose)
    && (forall o :: OwnedMet(l.calls, o) == CallsOfJobs(TalkJobs(talks) + LooseJobs(loose), o))
    && (forall i :: 0 <= i < |l.calls| ==> l.calls[i].owner in l.doc.owners)
    && SubtasksRight(l.doc, l.callsOf, l.subtasks, l.index)
    && TalksReached(l.doc, l.ownersOf, l.places, |l.doc.main|)
  }

  /** Every call is in one main talk's reach, unattributed, or one of the main stream's own loose calls. */
  ghost predicate Conserved(l: LedgerOf)
    requires Counted(l.calls, l.callsOf)
  {
    && Indexes(l.calls, l.unattributed) && Indexes(l.calls, Get(l.callsOf, Loose(MAIN)))
    && multiset(Together(l.callsOf, ReachOf(l.ownersOf, l.doc.main))) + multiset(l.unattributed)
       + multiset(Get(l.callsOf, Loose(MAIN))) == multiset(AllCalls(|l.calls|))
    && l.total == Plus(Plus(TalksCost(l.calls, l.callsOf, l.ownersOf, l.doc.main), Sum(l.calls, l.unattributed)),
                       Sum(l.calls, Get(l.callsOf, Loose(MAIN))))
    && l.total == CostsTogether(l.calls, l.callsOf, l.doc.owners)
  }

  /** Computes a document's ledger. */
  method Compute(talks: seq<Tree>, loose: seq<Tree>, streams: seq<string>, starts: seq<Start>) returns (l: LedgerOf)
    requires DistinctTalks(talks) && Distinct(streams)
    ensures Sound(l, talks, loose) && Conserved(l)
    ensures l.doc.streams == streams && l.doc.starts == starts
  {
    hide Counted, Walked, OwnersOf, MainTalks, StreamsOf, Ready, SubtasksRight, TalksReached, State, TalkJobs,
      LooseJobs,
      Together, Sum, CallsOfJobs, OwnedMet, CostsTogether, TalksCost, ReachOf, OwnersByNode, PlacesOf, CallPlaces,
      AskedBy,
      AllVisits, Own;
    var w := new Walker();
    w.ReadDocument(talks, loose);
    var d := Doc(streams, starts, w.ownerOfNode, w.order, w.owners, w.streamOf, w.main);
    WalkIsReady(d, w.calls, talks, loose);
    var total := SumUp(w.calls, AllCalls(|w.calls|));
    var r := new Roller(d, w.callsOf);
    var ownersOf, places, agents := RollUpAll(r);
    var rest := Unreached(d, ownersOf);
    l := LedgerOf(d, w.producedBy, w.calls, w.callsOf, r.subtasks, r.index, ownersOf, places,
                                                                  Together(w.callsOf, rest), total);
    Conserves(l, rest);
    WalkedOwned(w.calls, w.ownerOfNode, TalkJobs(talks) + LooseJobs(loose));
    OwnersCost(l, w.ownerOfNode, TalkJobs(talks) + LooseJobs(loose));
  }

  lemma WalkedOwned(calls: seq<Call>, ownerOfNode: map<string, Owner>, jobs: seq<Job>)
    requires Walked(calls, ownerOfNode, jobs)
    ensures forall o :: OwnedMet(calls, o) == CallsOfJobs(jobs, o)
    ensures ownerOfNode == OwnersByNode(jobs)
  {
  }

  lemma {:induction false} OwnersCost(l: LedgerOf, ownerOfNode: map<string, Owner>, jobs: seq<Job>)
    requires Counted(l.calls, l.callsOf) && Walked(l.calls, ownerOfNode, jobs) && l.doc.owners == OwnersOf(jobs)
    ensures CostsTogether(l.calls, l.callsOf, l.doc.owners) == Sum(l.calls, AllCalls(|l.calls|))
  {
    DocumentAddsUp(l.calls, l.callsOf, ownerOfNode, jobs);
  }

  lemma {:induction false} Conserves(l: LedgerOf, rest: seq<Owner>)
    requires Ready(l.doc) && Counted(l.calls, l.callsOf) && TalksReached(l.doc, l.ownersOf, l.places, |l.doc.main|)
    requires forall i :: 0 <= i < |l.calls| ==> l.calls[i].owner in l.doc.owners
    requires Distinct(rest)
    requires forall o :: o in rest <==>
               o in l.doc.owners && o != Loose(MAIN) && forall t :: t in l.ownersOf ==> o !in l.ownersOf[t]
    requires l.unattributed == Together(l.callsOf, rest)
    requires Indexes(l.calls, AllCalls(|l.calls|)) && l.total == Sum(l.calls, AllCalls(|l.calls|))
    ensures Indexes(l.calls, l.unattributed) && Indexes(l.calls, Get(l.callsOf, Loose(MAIN)))
    ensures multiset(Together(l.callsOf, ReachOf(l.ownersOf, l.doc.main))) + multiset(l.unattributed)
            + multiset(Get(l.callsOf, Loose(MAIN))) == multiset(AllCalls(|l.calls|))
    ensures l.total == Plus(Plus(TalksCost(l.calls, l.callsOf, l.ownersOf, l.doc.main), Sum(l.calls, l.unattributed)),
                            Sum(l.calls, Get(l.callsOf, Loose(MAIN))))
  {
    hide Counted, TalksReached, Ready, Sum, TalksCost, ReachOf;
    RollUpConserves(l.doc, l.calls, l.callsOf, l.ownersOf, l.places, rest);
    TogetherOfBoth(l.callsOf, ReachOf(l.ownersOf, l.doc.main) + rest, [Loose(MAIN)]);
    TogetherOfBoth(l.callsOf, ReachOf(l.ownersOf, l.doc.main), rest);
    JustOne(l.callsOf, Loose(MAIN));
  }

  lemma JustOne(callsOf: map<Owner, seq<nat>>, o: Owner)
    ensures Together(callsOf, [o]) == Get(callsOf, o)
  {
    assert [o][..0] == [];
    assert Together(callsOf, [o]) == [] + Get(callsOf, o);
  }
}
