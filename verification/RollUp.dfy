/**
 Ties child streams to the main talk that started them. A worklist runs down
 from each main talk, through the streams only its own steps start; every
 other stream is kept with the reason it could not be placed.
 */
module RollUp {
  import opened Costs
  import opened Ledger
  import opened Starters
  import NameOrder

  /** A child stream with the step that starts it. */
  datatype Child = Child(name: string, step: string)

  datatype Parent = Nobody | OfTalk(id: string) | OfStream(name: string)

  datatype Reason = Placed | NoStarter | Several | ParentUnplaced

  /** The work of one stream other than the main one; a sub-task is known by its stream's name. */
  datatype Subtask = Subtask(name: string, main: Option<string>, parent: Parent, startedBy: Option<string>,
                             depth: nat, children: seq<string>, reason: Reason, own: seq<nat>)

  // ---------------------------------------------------------------------
  // The streams only one owner starts.
  // ---------------------------------------------------------------------

  /**
   Per owner, each stream that it alone starts, once and in order of their names, with its earliest step
   that does.
   */
  ghost predicate ChildrenFound(d: Doc, kids: map<Owner, seq<Child>>) {
    && RightChildren(d, kids)
    && (forall o :: NameOrder.Rising(Get(kids, o), NameOf()))
    && (forall s :: Starter(d, s).Some? ==> Listed(Get(kids, Starter(d, s).value), s))
  }

  function NameOf(): Child -> string {
    (c: Child) => c.name
  }

  ghost predicate RightChildren(d: Doc, kids: map<Owner, seq<Child>>) {
    forall o, c :: c in Get(kids, o) ==> RightChild(d, o, c)
  }

  ghost predicate RightChild(d: Doc, o: Owner, c: Child) {
    Starter(d, c.name) == Some(o) && StartedBy(d, c.name, o, c.step)
  }

  predicate Listed(cs: seq<Child>, s: string) {
    exists k :: 0 <= k < |cs| && cs[k].name == s
  }

  lemma OneKey<K, V>(m: map<K, V>, k: K)
    requires |m| == 1 && k in m
    ensures forall j :: j in m ==> j == k
  {
    forall j | j in m ensures j == k {
      if j != k {
        assert {j, k} <= m.Keys;
        assert |{j, k}| <= |m.Keys| by { SubsetSmaller({j, k}, m.Keys); }
      }
    }
  }

  lemma {:induction false} SubsetSmaller<T>(a: set<T>, b: set<T>)
    requires a <= b
    ensures |a| <= |b|
  {
    assert b == a + (b - a);
    assert |b| == |a| + |b - a|;
  }

  /** A stream has a sole starter exactly when one owner is listed for it. */
  lemma SoleWhenOne(d: Doc, starters: map<string, map<Owner, string>>, s: string)
    requires StartersFound(d, starters)
    ensures Starter(d, s).Some? <==> |Starters.Under(starters, s)| == 1
    ensures Starter(d, s).Some? ==> Starter(d, s).value in Starters.Under(starters, s)
    ensures Starters.Under(starters, s) == map[] <==> forall o :: !Starts(d, s, o)
  {
    hide Starts, StartedBy;
    var from := Starters.Under(starters, s);
    forall o ensures o in from <==> Starts(d, s, o) { FoundIs(d, starters, s, o); }
    if |from| == 1 {
      var o :| o in from;
      OneKey(from, o);
      assert SoleStarter(d, s, o);
    }
    if Starter(d, s).Some? {
      var o := Starter(d, s).value;
      assert from.Keys == {o};
      assert |from| == |from.Keys| == 1;
    }
  }

  /** Groups the streams by their sole starter, then puts each owner's in order of their names. */
  method FindChildren(d: Doc, starters: map<string, map<Owner, string>>) returns (kids: map<Owner, seq<Child>>)
    requires StartersFound(d, starters)
    ensures ChildrenFound(d, kids)
  {
    hide StartersFound, Starter, StartedBy, NameOrder.Rising, NameOrder.NamesDiffer, RightChildren, Listed;
    var grouped := GroupChildren(d, starters);
    kids := grouped;
    var todo := kids.Keys;
    NameOrder.NothingRises(NameOf());
    while todo != {}
      invariant todo <= grouped.Keys == kids.Keys
      invariant forall o :: o in todo ==> kids[o] == grouped[o]
      invariant forall o :: SameChildren(Get(grouped, o), Get(kids, o))
      invariant forall o :: o !in todo ==> NameOrder.Rising(Get(kids, o), NameOf())
      decreases todo
    {
      var o :| o in todo;
      assert Get(kids, o) == kids[o] && Get(grouped, o) == kids[o];
      kids := kids[o := NameOrder.Sorted(kids[o], NameOf())];
      todo := todo - {o};
    }
    forall o ensures RightOnes(d, o, Get(kids, o)) {
      RightAre(d, grouped, o);
      SameAreRight(d, o, Get(grouped, o), Get(kids, o));
    }
    AllRight(d, kids);
    forall s | Starter(d, s).Some? ensures Listed(Get(kids, Starter(d, s).value), s) {
      SameListed(Get(grouped, Starter(d, s).value), Get(kids, Starter(d, s).value), s);
    }
  }

  ghost predicate SameChildren(a: seq<Child>, b: seq<Child>) {
    forall c :: c in a <==> c in b
  }

  ghost predicate RightOnes(d: Doc, o: Owner, cs: seq<Child>) {
    forall c :: c in cs ==> RightChild(d, o, c)
  }

  lemma RightAre(d: Doc, kids: map<Owner, seq<Child>>, o: Owner)
    requires RightChildren(d, kids)
    ensures RightOnes(d, o, Get(kids, o))
  {
    hide RightChild;
  }

  lemma AllRight(d: Doc, kids: map<Owner, seq<Child>>)
    requires forall o :: RightOnes(d, o, Get(kids, o))
    ensures RightChildren(d, kids)
  {
    hide RightChild;
    forall o, c | c in Get(kids, o) ensures RightChild(d, o, c) { assert RightOnes(d, o, Get(kids, o)); }
  }

  lemma SameAreRight(d: Doc, o: Owner, a: seq<Child>, b: seq<Child>)
    requires RightOnes(d, o, a) && SameChildren(a, b)
    ensures RightOnes(d, o, b)
  {
    hide RightChild;
  }

  lemma SameListed(a: seq<Child>, b: seq<Child>, s: string)
    requires Listed(a, s) && SameChildren(a, b)
    ensures Listed(b, s)
  {
    var k :| 0 <= k < |a| && a[k].name == s;
    assert a[k] in b;
    var j :| 0 <= j < |b| && b[j] == a[k];
  }

  /** Groups the streams by their sole starter, in any order. */
  method GroupChildren(d: Doc, starters: map<string, map<Owner, string>>) returns (kids: map<Owner, seq<Child>>)
    requires StartersFound(d, starters)
    ensures RightChildren(d, kids) && forall o :: NameOrder.NamesDiffer(Get(kids, o), NameOf())
    ensures forall s :: Starter(d, s).Some? ==> Listed(Get(kids, Starter(d, s).value), s)
  {
    hide StartersFound, Starter, StartedBy, NameOrder.NamesDiffer, RightChildren, Listed;
    kids := map[];
    NothingGrouped(d);
    var todo := starters.Keys;
    while todo != {}
      invariant todo <= starters.Keys
      invariant RightChildren(d, kids)
      invariant forall o :: NameOrder.NamesDiffer(Get(kids, o), NameOf())
      invariant forall o, c :: c in Get(kids, o) ==> c.name !in todo
      invariant forall s :: s in starters && s !in todo && Starter(d, s).Some? ==>
                  Listed(Get(kids, Starter(d, s).value), s)
      decreases todo
    {
      var name :| name in todo;
      var from := starters[name];
      SoleWhenOne(d, starters, name);
      ghost var was := kids;
      if |from| == 1 {
        var o :| o in from;
        OneKey(from, o);
        FoundIs(d, starters, name, o);
        kids := kids[o := Get(kids, o) + [Child(name, from[o])]];
        assert forall p :: Get(kids, p) == if p == o then Get(was, o) + [Child(name, from[o])] else Get(was, p);
        RightGrows(d, was, o, Child(name, from[o]));
        ListedGrows(Get(was, o), Child(name, from[o]));
        OneMoreName(Get(was, o), Child(name, from[o]));
      }
      todo := todo - {name};
    }
    forall s | Starter(d, s).Some? ensures Listed(Get(kids, Starter(d, s).value), s) {
      SoleWhenOne(d, starters, s);
    }
  }

  lemma NothingGrouped(d: Doc)
    ensures RightChildren(d, map[]) && NameOrder.NamesDiffer([], NameOf())
  {
  }

  lemma OneMoreName(cs: seq<Child>, c: Child)
    requires NameOrder.NamesDiffer(cs, NameOf()) && forall x :: x in cs ==> x.name != c.name
    ensures NameOrder.NamesDiffer(cs + [c], NameOf())
  {
    assert forall k :: 0 <= k < |cs| ==> cs[k] in cs;
  }

  /** The children found are the same lists in whatever order streams are gone over. */
  lemma ChildrenDetermined(d: Doc, a: map<Owner, seq<Child>>, b: map<Owner, seq<Child>>, o: Owner)
    requires ChildrenFound(d, a) && ChildrenFound(d, b)
    ensures Get(a, o) == Get(b, o)
  {
    hide Starter, StartedBy, NameOrder.Rising;
    forall c ensures c in Get(a, o) <==> c in Get(b, o) {
      if c in Get(a, o) { ChildInBoth(d, a, b, o, c); }
      if c in Get(b, o) { ChildInBoth(d, b, a, o, c); }
    }
    NameOrder.OneOrder(Get(a, o), Get(b, o), NameOf());
  }

  lemma ChildInBoth(d: Doc, a: map<Owner, seq<Child>>, b: map<Owner, seq<Child>>, o: Owner, c: Child)
    requires ChildrenFound(d, a) && ChildrenFound(d, b) && c in Get(a, o)
    ensures c in Get(b, o)
  {
    hide Starter, StartedBy, NameOrder.Rising;
    assert RightChild(d, o, c) && Listed(Get(b, o), c.name);
    var k :| 0 <= k < |Get(b, o)| && Get(b, o)[k].name == c.name;
    var e := Get(b, o)[k];
    assert e in Get(b, o) && RightChild(d, o, e);
    OneEarliest(d, c.name, o, c.step, e.step);
  }

  lemma RightGrows(d: Doc, kids: map<Owner, seq<Child>>, o: Owner, c: Child)
    requires RightChildren(d, kids) && RightChild(d, o, c)
    ensures RightChildren(d, kids[o := Get(kids, o) + [c]])
  {
    var after := kids[o := Get(kids, o) + [c]];
    forall p, e | e in Get(after, p) ensures RightChild(d, p, e) {
      if p != o { assert e in Get(kids, p); }
      if p == o && e != c { assert e in Get(kids, o); }
    }
  }

  lemma ListedGrows(cs: seq<Child>, c: Child)
    ensures Listed(cs + [c], c.name)
    ensures forall s :: Listed(cs, s) ==> Listed(cs + [c], s)
  {
    assert (cs + [c])[|cs|] == c;
    forall s | Listed(cs, s) ensures Listed(cs + [c], s) {
      var k :| 0 <= k < |cs| && cs[k].name == s;
      assert (cs + [c])[k].name == s;
    }
  }

  // ---------------------------------------------------------------------
  // The owners of a stream.
  // ---------------------------------------------------------------------

  /** The owners whose stream this is, in the ledger's order. */
  function OwnersOfStream(d: Doc, os: seq<Owner>, s: string): (r: seq<Owner>)
    ensures forall o :: o in r <==> o in os && StreamOf(d, o) == s
    ensures Distinct(os) ==> Distinct(r)
  {
    if os == [] then []
    else
      var n := |os| - 1;
      assert os == os[..n] + [os[n]];
      OwnersOfStream(d, os[..n], s) + if StreamOf(d, os[n]) == s then [os[n]] else []
  }

  // ---------------------------------------------------------------------
  // One main talk's worklist.
  // ---------------------------------------------------------------------

  /** Stream s belongs to main talk t. */
  ghost predicate BelongsTo(d: Doc, s: string, t: string) {
    exists k :: Reaches(d, s, t, k)
  }

  lemma OneTalk(d: Doc, s: string, t: string, u: string)
    requires Ready(d) && t in d.main && u in d.main && BelongsTo(d, s, t) && BelongsTo(d, s, u)
    ensures t == u
  {
    var k: nat :| Reaches(d, s, t, k);
    var l: nat :| Reaches(d, s, u, l);
    OneChain(d, s, t, k, u, l);
  }

  /** The streams claimed are those that belong to the first n main talks. */
  ghost predicate Claimed(d: Doc, claimed: set<string>, n: nat)
    requires n <= |d.main|
  {
    && (forall s :: s in claimed ==> exists j :: 0 <= j < n && BelongsTo(d, s, d.main[j]))
    && (forall s, j :: 0 <= j < n && BelongsTo(d, s, d.main[j]) ==> s in claimed)
  }

  /**
   The owners whose started streams are still to be read begin at i; those found follow t, whose stream
   is t's or newly claimed.
   */
  ghost predicate Worked(d: Doc, t: string, before: set<string>, claimed: set<string>, owners: seq<Owner>, i: nat) {
    && i <= |owners| && |owners| > 0 && owners[0] == Talk(t) && Distinct(owners)
    && before <= claimed
    && (forall o :: o in owners ==> o in d.owners && (o == Talk(t) || StreamOf(d, o) in claimed - before))
    && (forall o :: o in d.owners && StreamOf(d, o) in claimed - before ==> o in owners)
    && (forall s :: s in claimed - before ==> BelongsTo(d, s, t))
    && (forall s, k :: 0 <= k < i && Starter(d, s) == Some(owners[k]) ==> s in claimed)
  }

  lemma MainIsNobodys(d: Doc, t: string)
    ensures !BelongsTo(d, MAIN, t)
  {
    NothingStartsMain(d);
  }

  lemma WorkBegins(d: Doc, t: string, claimed: set<string>)
    requires Ready(d) && t in d.main
    ensures Worked(d, t, claimed, claimed, [Talk(t)], 0)
  {
  }

  /** A stream the owner at i alone starts belongs to t. */
  lemma ChildBelongs(d: Doc, t: string, before: set<string>, claimed: set<string>, owners: seq<Owner>, i: nat,
                     s: string)
    requires Ready(d) && t in d.main && Worked(d, t, before, claimed, owners, i) && i < |owners|
    requires Starter(d, s) == Some(owners[i])
    ensures BelongsTo(d, s, t)
    ensures i > 0 ==> StreamOf(d, owners[i]) in claimed - before
  {
    if i == 0 {
      assert Reaches(d, s, t, 1);
    } else {
      var p := StreamOf(d, owners[i]);
      assert BelongsTo(d, p, t);
      var k: nat :| Reaches(d, p, t, k);
      assert owners[i] != owners[0];
      assert Reaches(d, s, t, k + 1);
    }
  }

  /** Claiming it brings in its stream's owners, none of which was there. */
  lemma ClaimKeepsWork(d: Doc, t: string, before: set<string>, claimed: set<string>, owners: seq<Owner>, i: nat,
                       s: string)
    requires Ready(d) && t in d.main && Worked(d, t, before, claimed, owners, i) && i < |owners|
    requires Starter(d, s) == Some(owners[i]) && s !in claimed
    ensures Worked(d, t, before, claimed + {s}, owners + OwnersOfStream(d, d.owners, s), i)
    ensures forall o :: o in OwnersOfStream(d, d.owners, s) ==> o !in owners
  {
    hide Reaches, Starter;
    ChildBelongs(d, t, before, claimed, owners, i, s);
    MainIsNobodys(d, t);
    var more := OwnersOfStream(d, d.owners, s);
    assert StreamOf(d, Talk(t)) == MAIN;
    forall o | o in more ensures o !in owners {
      assert StreamOf(d, o) == s;
    }
    DistinctBoth(owners, more);
  }

  lemma DistinctBoth<T>(a: seq<T>, b: seq<T>)
    requires Distinct(a) && Distinct(b) && forall x :: x in b ==> x !in a
    ensures Distinct(a + b)
  {
    var s := a + b;
    forall j, k | 0 <= j < k < |s| ensures s[j] != s[k] {
      assert k >= |a| ==> s[k] == b[k - |a|] && b[k - |a|] in b;
      assert j < |a| ==> s[j] == a[j] && a[j] in a;
      assert j >= |a| ==> s[j] == b[j - |a|];
    }
  }

  lemma WorkMovesOn(d: Doc, kids: map<Owner, seq<Child>>, t: string, before: set<string>, claimed: set<string>,
                    owners: seq<Owner>, i: nat)
    requires ChildrenFound(d, kids) && Worked(d, t, before, claimed, owners, i) && i < |owners|
    requires forall c :: c in Get(kids, owners[i]) ==> c.name in claimed
    ensures Worked(d, t, before, claimed, owners, i + 1)
  {
    hide Starter;
    forall s, k | 0 <= k < i + 1 && Starter(d, s) == Some(owners[k]) ensures s in claimed {
      if k == i {
        assert Listed(Get(kids, owners[i]), s);
        var j :| 0 <= j < |Get(kids, owners[i])| && Get(kids, owners[i])[j].name == s;
        assert Get(kids, owners[i])[j] in Get(kids, owners[i]);
      }
    }
  }

  /** When nothing is left to read, every stream that belongs to t is claimed. */
  lemma {:induction false} WorkIsDone(d: Doc, n: nat, before: set<string>, claimed: set<string>, owners: seq<Owner>,
                                      s: string, k: nat)
    requires Ready(d) && n < |d.main| && Claimed(d, before, n)
    requires Worked(d, d.main[n], before, claimed, owners, |owners|)
    requires Reaches(d, s, d.main[n], k)
    ensures s in claimed - before
    decreases k
  {
    hide Starter;
    var t := d.main[n];
    assert BelongsTo(d, s, t);
    if s in before {
      var j :| 0 <= j < n && BelongsTo(d, s, d.main[j]);
      OneTalk(d, s, t, d.main[j]);
    }
    var o := Starter(d, s).value;
    if o == Talk(t) {
      assert Starter(d, s) == Some(owners[0]);
    } else {
      WorkIsDone(d, n, before, claimed, owners, StreamOf(d, o), k - 1);
      StarterIsOwner(d, s);
      assert o in owners;
      var x :| 0 <= x < |owners| && owners[x] == o;
    }
  }

  lemma StarterIsOwner(d: Doc, s: string)
    requires Ready(d) && Starter(d, s).Some?
    ensures Starter(d, s).value in d.owners
  {
    assert Starts(d, s, Starter(d, s).value);
  }

  /** The owners a main talk includes: itself first, then those of every stream that belongs to it, each once. */
  ghost predicate OwnersReached(d: Doc, t: string, owners: seq<Owner>) {
    && |owners| > 0 && owners[0] == Talk(t) && Distinct(owners)
    && forall o :: o in owners <==> o in d.owners && (o == Talk(t) || BelongsTo(d, StreamOf(d, o), t))
  }

  lemma WorkReached(d: Doc, n: nat, before: set<string>, claimed: set<string>, owners: seq<Owner>)
    requires Ready(d) && n < |d.main| && Claimed(d, before, n)
    requires Worked(d, d.main[n], before, claimed, owners, |owners|)
    ensures OwnersReached(d, d.main[n], owners) && Claimed(d, claimed, n + 1)
  {
    hide Starter, Reaches;
    var t := d.main[n];
    forall s | BelongsTo(d, s, t) ensures s in claimed - before {
      var k: nat :| Reaches(d, s, t, k);
      WorkIsDone(d, n, before, claimed, owners, s, k);
    }
    forall s | s in claimed ensures exists j :: 0 <= j < n + 1 && BelongsTo(d, s, d.main[j]) {
      if s in before {
        var j :| 0 <= j < n && BelongsTo(d, s, d.main[j]);
      } else {
        assert BelongsTo(d, s, d.main[n]);
      }
    }
  }
}
