/**
 What a conversation's model calls consumed: every call is counted once, under
 the one owner whose tree it lies in, and the owners add up to the whole.
 */
module Ledger {
  import opened Costs

  const MAIN := "main"

  /** What a document says of a model call. */
  datatype CallInfo = CallInfo(at: int, usage: Option<Usage>, outputUnknown: bool, money: Option<real>)

  /** A node of the document: a model call or not, with the nodes inside it. */
  datatype Node = Node(id: string, call: Option<CallInfo>, children: seq<Node>)

  /** A talk, or a tree no talk contains, with the stream it belongs to. */
  datatype Tree = Tree(stream: string, root: Node)

  // ---------------------------------------------------------------------
  // Which calls are whose.
  // ---------------------------------------------------------------------

  /** The indexes of an owner's calls, rising. */
  ghost function CallsOwnedBy(calls: seq<Call>, o: Owner): (r: seq<nat>)
    ensures forall k :: 0 <= k < |r| ==> r[k] < |calls| && calls[r[k]].owner == o
    ensures forall k, l :: 0 <= k < l < |r| ==> r[k] < r[l]
    ensures forall i :: 0 <= i < |calls| && calls[i].owner == o ==> i in r
  {
    if calls == [] then []
    else
      var n := |calls| - 1;
      CallsOwnedBy(calls[..n], o) + if calls[n].owner == o then [n] else []
  }

  function Get<V>(m: map<Owner, seq<V>>, o: Owner): seq<V> {
    if o in m then m[o] else []
  }

  /** Each owner's list holds exactly its calls. */
  ghost predicate Counted(calls: seq<Call>, callsOf: map<Owner, seq<nat>>) {
    forall o :: Get(callsOf, o) == CallsOwnedBy(calls, o)
  }

  lemma CountedGrows(calls: seq<Call>, callsOf: map<Owner, seq<nat>>, c: Call)
    requires Counted(calls, callsOf)
    ensures Counted(calls + [c], callsOf[c.owner := Get(callsOf, c.owner) + [|calls|]])
  {
    var more := calls + [c];
    assert more[..|calls|] == calls;
    forall o ensures Get(callsOf[c.owner := Get(callsOf, c.owner) + [|calls|]], o) == CallsOwnedBy(more, o) {
      assert Get(callsOf, o) == CallsOwnedBy(calls, o);
    }
  }

  // ---------------------------------------------------------------------
  // Several owners' calls together.
  // ---------------------------------------------------------------------

  /** The calls of several owners, one owner after another. */
  function Together(callsOf: map<Owner, seq<nat>>, os: seq<Owner>): seq<nat> {
    if os == [] then [] else Together(callsOf, os[..|os|-1]) + Get(callsOf, os[|os|-1])
  }

  lemma {:induction false} TogetherOfBoth(callsOf: map<Owner, seq<nat>>, a: seq<Owner>, b: seq<Owner>)
    ensures Together(callsOf, a + b) == Together(callsOf, a) + Together(callsOf, b)
  {
    if b == [] {
      assert a + b == a;
    } else {
      assert (a + b)[..|a + b| - 1] == a + b[..|b|-1];
      TogetherOfBoth(callsOf, a, b[..|b|-1]);
    }
  }

  lemma CountedAt(calls: seq<Call>, callsOf: map<Owner, seq<nat>>, o: Owner)
    requires Counted(calls, callsOf)
    ensures Get(callsOf, o) == CallsOwnedBy(calls, o)
  {
  }

  /** How often a call appears among several different owners' calls: once when its owner is one of them. */
  lemma {:induction false} EachOnce(calls: seq<Call>, callsOf: map<Owner, seq<nat>>, os: seq<Owner>, i: nat)
    requires Counted(calls, callsOf)
    requires forall j, k :: 0 <= j < k < |os| ==> os[j] != os[k]
    ensures multiset(Together(callsOf, os))[i] == if i < |calls| && calls[i].owner in os then 1 else 0
  {
    hide Counted, CallsOwnedBy;
    if os != [] {
      var n := |os| - 1;
      EachOnce(calls, callsOf, os[..n], i);
      CountedAt(calls, callsOf, os[n]);
      OneIfOwned(calls, os[n], i);
      assert os == os[..n] + [os[n]];
    }
  }

  lemma OneIfOwned(calls: seq<Call>, o: Owner, i: nat)
    ensures multiset(CallsOwnedBy(calls, o))[i] == if i < |calls| && calls[i].owner == o then 1 else 0
  {
    hide CallsOwnedBy;
    OnceInRising(CallsOwnedBy(calls, o), i);
  }

  lemma {:induction false} OnceInRising(s: seq<nat>, i: nat)
    requires forall k, l :: 0 <= k < l < |s| ==> s[k] < s[l]
    ensures multiset(s)[i] == if i in s then 1 else 0
  {
    if s != [] {
      var n := |s| - 1;
      OnceInRising(s[..n], i);
      assert s == s[..n] + [s[n]];
    }
  }

  function AllCalls(n: nat): (r: seq<nat>)
    ensures |r| == n && forall k :: 0 <= k < n ==> r[k] == k
  {
    seq(n, i requires 0 <= i < n => i)
  }

  lemma AllOnce(n: nat, i: nat)
    ensures multiset(AllCalls(n))[i] == if i < n then 1 else 0
  {
    var s := AllCalls(n);
    assert i in multiset(s) <==> i in s;
    if i < n {
      assert s == s[..i] + [i] + s[i+1..];
      assert i !in s[..i] && i !in s[i+1..];
    }
  }

  /** Owners that are different and own every call hold every call exactly once. */
  lemma {:induction false} OwnersPartition(calls: seq<Call>, callsOf: map<Owner, seq<nat>>, os: seq<Owner>)
    requires Counted(calls, callsOf)
    requires forall j, k :: 0 <= j < k < |os| ==> os[j] != os[k]
    requires forall i :: 0 <= i < |calls| ==> calls[i].owner in os
    ensures multiset(Together(callsOf, os)) == multiset(AllCalls(|calls|))
  {
    forall i: nat ensures multiset(Together(callsOf, os))[i] == multiset(AllCalls(|calls|))[i] {
      EachOnce(calls, callsOf, os, i);
      AllOnce(|calls|, i);
    }
  }

  lemma {:induction false} TogetherIndexes(calls: seq<Call>, callsOf: map<Owner, seq<nat>>, os: seq<Owner>)
    requires Counted(calls, callsOf)
    ensures Indexes(calls, Together(callsOf, os))
  {
    if os != [] {
      TogetherIndexes(calls, callsOf, os[..|os|-1]);
      assert Get(callsOf, os[|os|-1]) == CallsOwnedBy(calls, os[|os|-1]);
    }
  }

  /** What several owners cost, one owner's cost added to the next's. */
  ghost function CostsTogether(calls: seq<Call>, callsOf: map<Owner, seq<nat>>, os: seq<Owner>): Cost
    requires Counted(calls, callsOf)
  {
    if os == [] then NOTHING
    else
      assert Get(callsOf, os[|os|-1]) == CallsOwnedBy(calls, os[|os|-1]);
      Plus(CostsTogether(calls, callsOf, os[..|os|-1]), Sum(calls, Get(callsOf, os[|os|-1])))
  }

  lemma {:induction false} CostsAreSums(calls: seq<Call>, callsOf: map<Owner, seq<nat>>, os: seq<Owner>)
    requires Counted(calls, callsOf)
    ensures Indexes(calls, Together(callsOf, os))
    ensures CostsTogether(calls, callsOf, os) == Sum(calls, Together(callsOf, os))
  {
    TogetherIndexes(calls, callsOf, os);
    if os != [] {
      var n := |os| - 1;
      CostsAreSums(calls, callsOf, os[..n]);
      assert Get(callsOf, os[n]) == CallsOwnedBy(calls, os[n]);
      SumOfBoth(calls, Together(callsOf, os[..n]), Get(callsOf, os[n]));
    }
  }

  /** The owners' costs add up to the conversation's, exactly. */
  lemma {:induction false} OwnersAddUp(calls: seq<Call>, callsOf: map<Owner, seq<nat>>, os: seq<Owner>)
    requires Counted(calls, callsOf)
    requires forall j, k :: 0 <= j < k < |os| ==> os[j] != os[k]
    requires forall i :: 0 <= i < |calls| ==> calls[i].owner in os
    ensures CostsTogether(calls, callsOf, os) == Sum(calls, AllCalls(|calls|))
  {
    CostsAreSums(calls, callsOf, os);
    OwnersPartition(calls, callsOf, os);
    SumIgnoresOrder(calls, Together(callsOf, os), AllCalls(|calls|));
  }

  // ---------------------------------------------------------------------
  // The walk of the document.
  // ---------------------------------------------------------------------

  /** A call as the document has it. */
  datatype Met = Met(id: string, info: CallInfo)

  /** The calls a tree holds, in the order the document lists its nodes. */
  function CallsIn(n: Node): (met: seq<Met>)
    decreases n, 1
  {
    (if n.call.Some? then [Met(n.id, n.call.value)] else []) + CallsInAll(n.children)
  }

  function CallsInAll(ns: seq<Node>): (met: seq<Met>)
    decreases ns, 0
  {
    if ns == [] then [] else CallsIn(ns[0]) + CallsInAll(ns[1..])
  }

  /** The nodes of a tree. */
  function NodesIn(n: Node): (ids: set<string>)
    decreases n, 1
  {
    {n.id} + NodesInAll(n.children)
  }

  function NodesInAll(ns: seq<Node>): (ids: set<string>)
    decreases ns, 0
  {
    if ns == [] then {} else NodesIn(ns[0]) + NodesInAll(ns[1..])
  }

  /** A tree with the owner its calls are counted under. */
  datatype Job = Job(owner: Owner, root: Node)

  function TalkJobs(talks: seq<Tree>): (jobs: seq<Job>)
    ensures |jobs| == |talks|
    ensures forall k :: 0 <= k < |talks| ==> jobs[k] == Job(Talk(talks[k].root.id), talks[k].root)
  {
    seq(|talks|, k requires 0 <= k < |talks| => Job(Talk(talks[k].root.id), talks[k].root))
  }

  function LooseJobs(loose: seq<Tree>): seq<Job> {
    seq(|loose|, k requires 0 <= k < |loose| => Job(Loose(loose[k].stream), loose[k].root))
  }

  /** The calls of the trees of one owner, in document order. */
  function CallsOfJobs(jobs: seq<Job>, o: Owner): seq<Met> {
    if jobs == [] then []
    else CallsOfJobs(jobs[..|jobs|-1], o) + if jobs[|jobs|-1].owner == o then CallsIn(jobs[|jobs|-1].root) else []
  }

  /** What a counted call says of itself: what the document said. */
  function MetOf(c: Call): Met {
    Met(c.id, CallInfo(c.at, c.usage, c.outputUnknown, c.money))
  }

  function AllMet(calls: seq<Call>): seq<Met> {
    seq(|calls|, i requires 0 <= i < |calls| => MetOf(calls[i]))
  }

  /** The calls all have this owner. */
  predicate AllOwned(calls: seq<Call>, owner: Owner) {
    forall i :: 0 <= i < |calls| ==> calls[i].owner == owner
  }

  /** Calls were only added, these ones, all of one owner. */
  predicate Extends(before: seq<Call>, after: seq<Call>, met: seq<Met>, owner: Owner) {
    && |before| <= |after| && after[..|before|] == before
    && AllMet(after[|before|..]) == met
    && AllOwned(after[|before|..], owner)
  }

  lemma ExtendsByNone(calls: seq<Call>, owner: Owner)
    ensures Extends(calls, calls, [], owner)
  {
  }

  lemma ExtendsTwice(a: seq<Call>, b: seq<Call>, c: seq<Call>, x: seq<Met>, y: seq<Met>, owner: Owner)
    requires Extends(a, b, x, owner) && Extends(b, c, y, owner)
    ensures Extends(a, c, x + y, owner)
  {
    assert c[|a|..] == b[|a|..] + c[|b|..];
    assert AllMet(c[|a|..]) == AllMet(b[|a|..]) + AllMet(c[|b|..]);
    assert c[..|a|] == b[..|a|];
  }

  /** An owner's calls, in the order they were counted. */
  ghost function OwnedMet(calls: seq<Call>, o: Owner): seq<Met> {
    if calls == [] then []
    else
      var n := |calls| - 1;
      OwnedMet(calls[..n], o) + if calls[n].owner == o then [MetOf(calls[n])] else []
  }

  /** What OwnedMet names is what CallsOwnedBy points at. */
  lemma {:induction false} OwnedAreNamed(calls: seq<Call>, o: Owner)
    ensures |CallsOwnedBy(calls, o)| == |OwnedMet(calls, o)|
    ensures forall k :: 0 <= k < |OwnedMet(calls, o)| ==>
              MetOf(calls[CallsOwnedBy(calls, o)[k]]) == OwnedMet(calls, o)[k]
  {
    if calls != [] { OwnedAreNamed(calls[..|calls|-1], o); }
  }

  lemma {:induction false} OwnedExtends(a: seq<Call>, b: seq<Call>, met: seq<Met>, owner: Owner, o: Owner)
    requires Extends(a, b, met, owner)
    ensures OwnedMet(b, o) == OwnedMet(a, o) + if o == owner then met else []
    decreases |b|
  {
    if |b| == |a| {
      assert a == b;
    } else {
      var n := |b| - 1;
      assert b[..n][|a|..] == b[|a|..][..n - |a|];
      assert AllMet(b[..n][|a|..]) == met[..|met|-1];
      OwnedExtends(a, b[..n], met[..|met|-1], owner, o);
      assert b[|a|..][n - |a|] == b[n];
      assert AllMet(b[|a|..])[n - |a|] == MetOf(b[n]);
      assert met == met[..|met|-1] + [MetOf(b[n])];
    }
  }

  /** Who owns each node: the owner of the last tree that holds it. */
  function OwnersByNode(jobs: seq<Job>): map<string, Owner> {
    if jobs == [] then map[]
    else OwnersByNode(jobs[..|jobs|-1]) + AllTo(NodesIn(jobs[|jobs|-1].root), jobs[|jobs|-1].owner)
  }

  /**
   Each owner's calls are those of its trees, each node's owner is that of its tree, and every one of
   them is listed.
   */
  ghost predicate Walked(calls: seq<Call>, ownerOfNode: map<string, Owner>, jobs: seq<Job>) {
    && ownerOfNode == OwnersByNode(jobs)
    && (forall o :: OwnedMet(calls, o) == CallsOfJobs(jobs, o))
    && (forall i :: 0 <= i < |calls| ==> HasJob(jobs, calls[i].owner))
    && (forall x :: x in ownerOfNode ==> HasJob(jobs, ownerOfNode[x]))
  }

  predicate HasJob(jobs: seq<Job>, o: Owner) {
    exists k :: 0 <= k < |jobs| && jobs[k].owner == o
  }

  lemma HasJobGrows(jobs: seq<Job>, j: Job, o: Owner)
    ensures HasJob(jobs + [j], o) <==> HasJob(jobs, o) || o == j.owner
  {
    if HasJob(jobs, o) {
      var k :| 0 <= k < |jobs| && jobs[k].owner == o;
      assert (jobs + [j])[k].owner == o;
    }
    assert (jobs + [j])[|jobs|] == j;
  }

  lemma WalkedGrows(a: seq<Call>, b: seq<Call>, before: map<string, Owner>, after: map<string, Owner>, jobs: seq<Job>,
                    j: Job)
    requires Walked(a, before, jobs)
    requires Extends(a, b, CallsIn(j.root), j.owner) && Wrote(before, after, NodesIn(j.root), j.owner)
    ensures Walked(b, after, jobs + [j])
  {
    assert (jobs + [j])[..|jobs|] == jobs;
    forall o ensures OwnedMet(b, o) == CallsOfJobs(jobs + [j], o) {
      OwnedExtends(a, b, CallsIn(j.root), j.owner, o);
      assert (jobs + [j])[..|jobs|] == jobs;
    }
    forall i | 0 <= i < |b| ensures HasJob(jobs + [j], b[i].owner) {
      HasJobGrows(jobs, j, b[i].owner);
      assert i < |a| ==> b[i] == a[i];
      assert i >= |a| ==> b[i] == b[|a|..][i - |a|];
    }
    forall x | x in after ensures HasJob(jobs + [j], after[x]) {
      HasJobGrows(jobs, j, after[x]);
    }
  }

  // ---------------------------------------------------------------------
  // The owners, in the order the document lists them.
  // ---------------------------------------------------------------------

  predicate DistinctTalks(talks: seq<Tree>) {
    forall j, k :: 0 <= j < k < |talks| ==> talks[j].root.id != talks[k].root.id
  }

  /** The ids of the main stream's talks, in document order. */
  function MainTalks(talks: seq<Tree>): seq<string> {
    if talks == [] then []
    else MainTalks(talks[..|talks|-1]) + if talks[|talks|-1].stream == MAIN then [talks[|talks|-1].root.id] else []
  }

  /** The owners of these trees, each once, in the order they first appear. */
  function OwnersOf(jobs: seq<Job>): (os: seq<Owner>)
    ensures forall o :: o in os <==> HasJob(jobs, o)
    ensures forall j, k :: 0 <= j < k < |os| ==> os[j] != os[k]
  {
    if jobs == [] then []
    else
      var n := |jobs| - 1;
      var before := OwnersOf(jobs[..n]);
      assert forall o :: HasJob(jobs, o) <==> HasJob(jobs[..n], o) || o == jobs[n].owner by {
        assert jobs == jobs[..n] + [jobs[n]];
        forall o ensures HasJob(jobs, o) <==> HasJob(jobs[..n], o) || o == jobs[n].owner {
          HasJobGrows(jobs[..n], jobs[n], o);
        }
      }
      if jobs[n].owner in before then before else before + [jobs[n].owner]
  }

  /** Which stream each talk is of. */
  ghost predicate StreamsOf(talks: seq<Tree>, streamOf: map<string, string>) {
    && (forall k :: 0 <= k < |talks| ==> talks[k].root.id in streamOf && streamOf[talks[k].root.id] == talks[k].stream)
    && (forall t :: t in streamOf ==> IsTalk(talks, t))
  }

  predicate IsTalk(talks: seq<Tree>, id: string) {
    exists k :: 0 <= k < |talks| && talks[k].root.id == id
  }

  /** Just these nodes were given this owner. */
  predicate Wrote(before: map<string, Owner>, after: map<string, Owner>, nodes: set<string>, owner: Owner) {
    after == before + AllTo(nodes, owner)
  }

  function AllTo(nodes: set<string>, owner: Owner): map<string, Owner> {
    map x | x in nodes :: owner
  }

  lemma WroteTwice(a: map<string, Owner>, b: map<string, Owner>, c: map<string, Owner>, m: set<string>, n: set<string>,
                   owner: Owner)
    requires Wrote(a, b, m, owner) && Wrote(b, c, n, owner)
    ensures Wrote(a, c, m + n, owner)
  {
  }

  lemma WroteOne(a: map<string, Owner>, id: string, owner: Owner)
    ensures Wrote(a, a[id := owner], {id}, owner) && Wrote(a, a, {}, owner)
  {
  }

  // ---------------------------------------------------------------------
  // The places of nodes.
  // ---------------------------------------------------------------------

  /** A node as the walk comes to it: the owner of its tree, the call nearest around it, and whether it is a call. */
  datatype Visit = Visit(owner: Owner, id: string, inside: string, call: bool)

  /** The nodes of a tree as they are read: each before what is inside it, and that in the order it is listed. */
  function Visits(n: Node, owner: Owner, inside: string): seq<Visit>
    decreases n, 1
  {
    [Visit(owner, n.id, inside, n.call.Some?)] + VisitsAll(n.children, owner, if n.call.Some? then n.id else inside)
  }

  function VisitsAll(ns: seq<Node>, owner: Owner, inside: string): seq<Visit>
    decreases ns, 0
  {
    if ns == [] then [] else Visits(ns[0], owner, inside) + VisitsAll(ns[1..], owner, inside)
  }

  /** The nodes of all the trees, tree after tree. */
  function AllVisits(jobs: seq<Job>): seq<Visit> {
    if jobs == [] then []
    else AllVisits(jobs[..|jobs|-1]) + Visits(jobs[|jobs|-1].root, jobs[|jobs|-1].owner, "")
  }

  /** How many of these nodes are an owner's. */
  ghost function Own(vs: seq<Visit>, o: Owner): nat {
    if vs == [] then 0 else Own(vs[..|vs|-1], o) + if vs[|vs|-1].owner == o then 1 else 0
  }

  /** Each node's place: how many of its owner's nodes were read before it. */
  ghost function PlacesOf(vs: seq<Visit>): (m: map<string, nat>)
    ensures forall x :: x in m <==> exists k :: 0 <= k < |vs| && vs[k].id == x
  {
    if vs == [] then map[]
    else
      var n := |vs| - 1;
      assert forall k :: 0 <= k < n ==> vs[..n][k] == vs[k];
      PlacesOf(vs[..n])[vs[n].id := Own(vs[..n], vs[n].owner)]
  }

  /** The places of the calls among them. */
  ghost function CallPlaces(vs: seq<Visit>): seq<nat> {
    if vs == [] then []
    else CallPlaces(vs[..|vs|-1]) + if vs[|vs|-1].call then [Own(vs[..|vs|-1], vs[|vs|-1].owner)] else []
  }

  /** The call nearest around each node that is inside one. */
  ghost function AskedBy(vs: seq<Visit>): map<string, string> {
    if vs == [] then map[]
    else
      var v := vs[|vs|-1];
      var before := AskedBy(vs[..|vs|-1]);
      if v.inside != "" then before[v.id := v.inside] else before
  }

  function Orders(calls: seq<Call>): (r: seq<nat>)
    ensures |r| == |calls| && forall i :: 0 <= i < |calls| ==> r[i] == calls[i].order
  {
    seq(|calls|, i requires 0 <= i < |calls| => calls[i].order)
  }

  lemma VisitNext(vs: seq<Visit>, v: Visit)
    ensures forall o :: Own(vs + [v], o) == Own(vs, o) + if v.owner == o then 1 else 0
    ensures PlacesOf(vs + [v]) == PlacesOf(vs)[v.id := Own(vs, v.owner)]
    ensures CallPlaces(vs + [v]) == CallPlaces(vs) + if v.call then [Own(vs, v.owner)] else []
    ensures AskedBy(vs + [v]) == if v.inside != "" then AskedBy(vs)[v.id := v.inside] else AskedBy(vs)
  {
    assert (vs + [v])[..|vs|] == vs;
  }

  /**
   Where no two nodes have one id, a node's place is how many nodes of its owner come before it, and its
   call the one nearest around it.
   */
  lemma {:induction false} PlaceOfVisit(vs: seq<Visit>, k: nat)
    requires k < |vs| && forall i, j :: 0 <= i < j < |vs| ==> vs[i].id != vs[j].id
    ensures vs[k].id in PlacesOf(vs) && PlacesOf(vs)[vs[k].id] == Own(vs[..k], vs[k].owner)
    ensures vs[k].id in AskedBy(vs) <==> vs[k].inside != ""
    ensures vs[k].inside != "" ==> AskedBy(vs)[vs[k].id] == vs[k].inside
    decreases |vs|
  {
    hide Own;
    var n := |vs| - 1;
    if k < n {
      PlaceOfVisit(vs[..n], k);
      assert vs[..n][..k] == vs[..k];
    } else {
      NotAsked(vs[..n], vs[n].id);
    }
  }

  lemma {:induction false} NotAsked(vs: seq<Visit>, id: string)
    requires forall j :: 0 <= j < |vs| ==> vs[j].id != id
    ensures id !in AskedBy(vs)
  {
    if vs != [] { NotAsked(vs[..|vs|-1], id); }
  }

  /** In a talk, whose tree is its only one, a node's place is where it comes in its tree. */
  lemma {:induction false} PlaceInTree(n: Node, owner: Owner, inside: string, k: nat)
    requires k <= |Visits(n, owner, inside)|
    ensures Own(Visits(n, owner, inside)[..k], owner) == k
  {
    hide Own, Visits;
    forall i | 0 <= i < |Visits(n, owner, inside)| ensures Visits(n, owner, inside)[i].owner == owner {
      OneOwner(n, owner, inside);
    }
    AllOwn(Visits(n, owner, inside)[..k], owner);
  }

  lemma {:induction false} OneOwner(n: Node, owner: Owner, inside: string)
    ensures forall v :: v in Visits(n, owner, inside) ==> v.owner == owner
    decreases n, 1
  {
    OneOwnerAll(n.children, owner, if n.call.Some? then n.id else inside);
  }

  lemma {:induction false} OneOwnerAll(ns: seq<Node>, owner: Owner, inside: string)
    ensures forall v :: v in VisitsAll(ns, owner, inside) ==> v.owner == owner
    decreases ns, 0
  {
    if ns != [] {
      OneOwner(ns[0], owner, inside);
      OneOwnerAll(ns[1..], owner, inside);
    }
  }

  lemma {:induction false} AllOwn(vs: seq<Visit>, o: Owner)
    requires forall i :: 0 <= i < |vs| ==> vs[i].owner == o
    ensures Own(vs, o) == |vs|
  {
    if vs != [] { AllOwn(vs[..|vs|-1], o); }
  }

  /** The parts of a ledger the walk fills. */
  class Walker {
    var calls: seq<Call>
    var callsOf: map<Owner, seq<nat>>
    var ownerOfNode: map<string, Owner>
    var order: map<string, nat>
    var counter: map<Owner, nat>
    var producedBy: map<string, string>
    var owners: seq<Owner>
    var streamOf: map<string, string>
    var main: seq<string>
    ghost var seen: seq<Visit>

    ghost predicate Valid()
      reads `calls, `callsOf, `ownerOfNode, `order
    {
      && Counted(calls, callsOf)
      && ownerOfNode.Keys == order.Keys
    }

    /** Places, and the calls nodes are inside of, are what the nodes seen so far say. */
    ghost predicate Ordered()
      reads `calls, `order, `counter, `producedBy, `seen
    {
      && order == PlacesOf(seen) && producedBy == AskedBy(seen) && Orders(calls) == CallPlaces(seen)
      && forall o :: Count(o) == Own(seen, o)
    }

    constructor ()
      ensures Valid() && Ordered() && seen == [] && calls == [] && callsOf == map[] && ownerOfNode == map[]
      ensures owners == [] && main == [] && streamOf == map[]
    {
      calls, callsOf, ownerOfNode, order, counter, producedBy := [], map[], map[], map[], map[], map[];
      owners, streamOf, main, seen := [], map[], [], [];
    }

    function Count(o: Owner): nat
      reads `counter
    {
      if o in counter then counter[o] else 0
    }

    /** Counts one call under its owner. */
    method AddCall(n: Node, owner: Owner)
      requires Valid() && n.call.Some? && n.id in order
      modifies this`calls, this`callsOf
      ensures Valid()
      ensures Extends(old(calls), calls, [Met(n.id, n.call.value)], owner)
      ensures Orders(calls) == Orders(old(calls)) + [order[n.id]]
    {
      hide CallsOwnedBy;
      var i := n.call.value;
      var c := Call(n.id, owner, order[n.id], i.at, i.usage, i.outputUnknown, i.money);
      CountedGrows(calls, callsOf, c);
      callsOf := callsOf[owner := Get(callsOf, owner) + [|calls|]];
      calls := calls + [c];
    }

    /** Gives a node the next place of its owner. */
    method TakePlace(id: string, owner: Owner, call: string)
      modifies this`order, this`counter, this`producedBy
      ensures order == old(order)[id := old(Count(owner))]
      ensures forall o :: Count(o) == old(Count(o)) + if owner == o then 1 else 0
      ensures producedBy == if call != "" then old(producedBy)[id := call] else old(producedBy)
    {
      order := order[id := Count(owner)];
      counter := counter[owner := Count(owner) + 1];
      if call != "" { producedBy := producedBy[id := call]; }
    }

    /**
     Comes to one node: it takes the next place of its owner, and a call is counted; inside is the call
     around what it holds.
     */
    method Meet(n: Node, owner: Owner, call: string) returns (inside: string)
      requires Valid() && Ordered()
      modifies this`calls, this`callsOf, this`ownerOfNode, this`order, this`counter, this`producedBy, this`seen
      ensures Valid() && Ordered() && seen == old(seen) + [Visit(owner, n.id, call, n.call.Some?)]
      ensures inside == if n.call.Some? then n.id else call
      ensures Extends(old(calls), calls, if n.call.Some? then [Met(n.id, n.call.value)] else [], owner)
      ensures Wrote(old(ownerOfNode), ownerOfNode, {n.id}, owner)
    {
      hide Counted, Extends, Wrote, PlacesOf, AskedBy, CallPlaces, Own, AllOwned, AllMet, AllTo;
      VisitNext(seen, Visit(owner, n.id, call, n.call.Some?));
      WroteOne(ownerOfNode, n.id, owner);
      ownerOfNode := ownerOfNode[n.id := owner];
      TakePlace(n.id, owner, call);
      inside := call;
      ExtendsByNone(calls, owner);
      if n.call.Some? {
        AddCall(n, owner);
        inside := n.id;
      }
      seen := seen + [Visit(owner, n.id, call, n.call.Some?)];
    }

    /** Walks one tree: its calls are added, in its order, all under the one owner; call is "" outside any call. */
    method Walk(n: Node, owner: Owner, call: string)
      requires Valid() && Ordered()
      modifies this`calls, this`callsOf, this`ownerOfNode, this`order, this`counter, this`producedBy, this`seen
      ensures Valid() && Ordered() && seen == old(seen) + Visits(n, owner, call)
      ensures Extends(old(calls), calls, CallsIn(n), owner)
      ensures Wrote(old(ownerOfNode), ownerOfNode, NodesIn(n), owner)
      decreases n, 1
    {
      hide Counted, Extends, Wrote, AllOwned, AllMet, NodesInAll, Ordered, VisitsAll;
      var inside := Meet(n, owner, call);
      ghost var mid, first, read := calls, ownerOfNode, seen;
      WalkAll(n.children, owner, inside);
      assert read + VisitsAll(n.children, owner, inside) == old(seen) + Visits(n, owner, call);
      ExtendsTwice(old(calls), mid, calls, if n.call.Some? then [Met(n.id, n.call.value)] else [],
                   CallsInAll(n.children), owner);
      WroteTwice(old(ownerOfNode), first, ownerOfNode, {n.id}, NodesInAll(n.children), owner);
    }

    method WalkAll(ns: seq<Node>, owner: Owner, call: string)
      requires Valid() && Ordered()
      modifies this`calls, this`callsOf, this`ownerOfNode, this`order, this`counter, this`producedBy, this`seen
      ensures Valid() && Ordered() && seen == old(seen) + VisitsAll(ns, owner, call)
      ensures Extends(old(calls), calls, CallsInAll(ns), owner)
      ensures Wrote(old(ownerOfNode), ownerOfNode, NodesInAll(ns), owner)
      decreases ns, 0
    {
      hide Counted, Extends, Wrote, Ordered, Visits;
      ExtendsByNone(calls, owner);
      WroteOne(ownerOfNode, "", owner);
      assert seen == seen + [];
      if ns == [] { return; }
      Walk(ns[0], owner, call);
      ghost var mid, first, read := calls, ownerOfNode, seen;
      WalkAll(ns[1..], owner, call);
      assert read + VisitsAll(ns[1..], owner, call) == old(seen) + VisitsAll(ns, owner, call);
      ExtendsTwice(old(calls), mid, calls, CallsIn(ns[0]), CallsInAll(ns[1..]), owner);
      WroteTwice(old(ownerOfNode), first, ownerOfNode, NodesIn(ns[0]), NodesInAll(ns[1..]), owner);
    }

    /** Reads the document's talks, then the trees no talk contains. */
    method ReadDocument(talks: seq<Tree>, loose: seq<Tree>)
      requires Valid() && Ordered() && DistinctTalks(talks)
      requires seen == [] && calls == [] && ownerOfNode == map[] && owners == [] && main == [] && streamOf == map[]
      modifies this
      ensures Valid() && Ordered() && seen == AllVisits(TalkJobs(talks) + LooseJobs(loose))
      ensures Walked(calls, ownerOfNode, TalkJobs(talks) + LooseJobs(loose))
      ensures owners == OwnersOf(TalkJobs(talks) + LooseJobs(loose))
      ensures main == MainTalks(talks) && StreamsOf(talks, streamOf)
    {
      hide Counted, Walked, OwnersOf, StreamsOf, MainTalks, Ordered;
      ReadTalks(talks);
      ReadLoose(TalkJobs(talks), loose);
    }

    method ReadTalks(talks: seq<Tree>)
      requires Valid() && Ordered() && DistinctTalks(talks)
      requires seen == [] && calls == [] && ownerOfNode == map[] && owners == [] && main == [] && streamOf == map[]
      modifies this
      ensures Valid() && Ordered() && seen == AllVisits(TalkJobs(talks))
      ensures Walked(calls, ownerOfNode, TalkJobs(talks)) && owners == OwnersOf(TalkJobs(talks))
      ensures main == MainTalks(talks) && StreamsOf(talks, streamOf)
    {
      hide Counted, Walked, OwnersOf, StreamsOf, MainTalks, DistinctTalks, HasJob, TalkJobs, Ordered, AllVisits;
      NothingWalked();
      assert TalkJobs(talks)[..0] == [] && talks[..0] == [];
      for k := 0 to |talks|
        invariant Valid() && Ordered() && seen == AllVisits(TalkJobs(talks)[..k])
        invariant Walked(calls, ownerOfNode, TalkJobs(talks)[..k])
        invariant owners == OwnersOf(TalkJobs(talks)[..k])
        invariant main == MainTalks(talks[..k]) && StreamsOf(talks[..k], streamOf)
      {
        var t := talks[k];
        var o := Talk(t.root.id);
        StreamsGrow(talks, streamOf, k);
        streamOf := streamOf[t.root.id := t.stream];
        NextTalkOwner(talks, k);
        owners := owners + [o];
        NextMain(talks, k);
        if t.stream == MAIN { main := main + [t.root.id]; }
        ReadTree(t.root, o, TalkJobs(talks), k);
      }
      assert talks[..|talks|] == talks && TalkJobs(talks)[..|talks|] == TalkJobs(talks);
    }

    /** Walks one tree after those before it. */
    method ReadTree(root: Node, o: Owner, ghost jobs: seq<Job>, ghost k: nat)
      requires Valid() && Ordered() && k < |jobs| && jobs[k] == Job(o, root)
      requires seen == AllVisits(jobs[..k]) && Walked(calls, ownerOfNode, jobs[..k])
      modifies this`calls, this`callsOf, this`ownerOfNode, this`order, this`counter, this`producedBy, this`seen
      ensures Valid() && Ordered() && seen == AllVisits(jobs[..k+1])
      ensures Walked(calls, ownerOfNode, jobs[..k+1])
    {
      hide Counted, Walked, Wrote, Extends, Ordered, Visits, HasJob;
      ghost var before, was := calls, ownerOfNode;
      Walk(root, o, "");
      NextJob(jobs, k);
      assert jobs[..k+1][..k] == jobs[..k];
      WalkedGrows(before, calls, was, ownerOfNode, jobs[..k], jobs[k]);
    }

    method ReadLoose(ghost read: seq<Job>, loose: seq<Tree>)
      requires Valid() && Ordered() && seen == AllVisits(read) && Walked(calls, ownerOfNode, read)
      requires owners == OwnersOf(read)
      modifies this
      ensures Valid() && Ordered() && seen == AllVisits(read + LooseJobs(loose))
      ensures main == old(main) && streamOf == old(streamOf)
      ensures Walked(calls, ownerOfNode, read + LooseJobs(loose)) && owners == OwnersOf(read + LooseJobs(loose))
    {
      hide Counted, Walked, OwnersOf, HasJob, Ordered, AllVisits;
      ghost var jobs := read + LooseJobs(loose);
      assert jobs[..|read|] == read;
      for k := 0 to |loose|
        invariant Valid() && Ordered() && seen == AllVisits(jobs[..|read| + k])
        invariant main == old(main) && streamOf == old(streamOf)
        invariant Walked(calls, ownerOfNode, jobs[..|read| + k])
        invariant owners == OwnersOf(jobs[..|read| + k])
      {
        var o := Loose(loose[k].stream);
        NextOwner(jobs, |read| + k);
        assert jobs[|read| + k] == Job(o, loose[k].root);
        if o !in owners { owners := owners + [o]; }
        ReadTree(loose[k].root, o, jobs, |read| + k);
      }
      assert jobs[..|read| + |loose|] == jobs;
    }
  }

  lemma NextMain(talks: seq<Tree>, k: nat)
    requires k < |talks|
    ensures MainTalks(talks[..k+1]) == MainTalks(talks[..k]) + if talks[k].stream ==
              MAIN then [talks[k].root.id] else []
  {
    assert talks[..k+1][..k] == talks[..k];
  }

  lemma NothingWalked()
    ensures Walked([], map[], []) && OwnersOf([]) == [] && StreamsOf([], map[]) && MainTalks([]) == []
            && AllVisits([]) == []
  {
  }

  lemma NextJob(jobs: seq<Job>, k: nat)
    requires k < |jobs|
    ensures jobs[..k+1] == jobs[..k] + [jobs[k]]
  {
  }

  lemma NextOwner(jobs: seq<Job>, k: nat)
    requires k < |jobs|
    ensures OwnersOf(jobs[..k+1]) ==
            OwnersOf(jobs[..k]) + if jobs[k].owner in OwnersOf(jobs[..k]) then [] else [jobs[k].owner]
  {
    assert jobs[..k+1][..k] == jobs[..k];
  }

  lemma NextTalkOwner(talks: seq<Tree>, k: nat)
    requires k < |talks| && DistinctTalks(talks)
    ensures OwnersOf(TalkJobs(talks)[..k+1]) == OwnersOf(TalkJobs(talks)[..k]) + [Talk(talks[k].root.id)]
  {
    NextOwner(TalkJobs(talks), k);
    assert !HasJob(TalkJobs(talks)[..k], Talk(talks[k].root.id));
  }

  lemma StreamsGrow(talks: seq<Tree>, streamOf: map<string, string>, k: nat)
    requires k < |talks| && DistinctTalks(talks) && StreamsOf(talks[..k], streamOf)
    ensures StreamsOf(talks[..k+1], streamOf[talks[k].root.id := talks[k].stream])
  {
    var after := streamOf[talks[k].root.id := talks[k].stream];
    forall t | t in after ensures IsTalk(talks[..k+1], t) {
      if t == talks[k].root.id {
        assert talks[..k+1][k].root.id == t;
      } else {
        assert t in streamOf && IsTalk(talks[..k], t);
        var j :| 0 <= j < |talks[..k]| && talks[..k][j].root.id == t;
        assert talks[..k+1][j].root.id == t;
      }
    }
  }

  /** A document's owners hold each of its calls once, and what they cost adds up to what the conversation cost. */
  lemma {:induction false} DocumentAddsUp(calls: seq<Call>, callsOf: map<Owner, seq<nat>>, ownerOfNode: map<string,
                                          Owner>, jobs: seq<Job>)
    requires Counted(calls, callsOf) && Walked(calls, ownerOfNode, jobs)
    ensures multiset(Together(callsOf, OwnersOf(jobs))) == multiset(AllCalls(|calls|))
    ensures CostsTogether(calls, callsOf, OwnersOf(jobs)) == Sum(calls, AllCalls(|calls|))
  {
    hide Counted, OwnersOf, CallsOwnedBy;
    OwnersPartition(calls, callsOf, OwnersOf(jobs));
    OwnersAddUp(calls, callsOf, OwnersOf(jobs));
  }
}
