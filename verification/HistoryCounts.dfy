/**
 How a changed history is explained: multiset counts of the messages kept,
 changed, dropped and added, and whether those matched kept their order.
 */
module HistoryCounts {
  import opened Messages
  import OrderTest

  datatype Card = Card(kept: int, changed: int, dropped: int, added: int, order: bool, orderWhy: string)

  function Min(x: int, y: int): int { if x < y then x else y }

  function Count<K>(m: map<K, nat>, k: K): nat {
    if k in m then m[k] else 0
  }

  // ---------------------------------------------------------------------
  // Identities of a part of a list, and what two lists share.
  // ---------------------------------------------------------------------

  /** The identities of the entries of list that are in done. */
  ghost function Part(list: seq<Message>, done: set<Message>): multiset<Identity> {
    if list == [] then multiset{}
    else
      var m := list[|list| - 1];
      Part(list[..|list| - 1], done) + if m in done then multiset{IdentityOf(m)} else multiset{}
  }

  /** Taking one more message into account adds each of its occurrences. */
  lemma {:induction false} PartGrows(list: seq<Message>, done: set<Message>, e: Message)
    requires e !in done
    ensures Part(list, done + {e}) ==
      Part(list, done)[IdentityOf(e) := Part(list, done)[IdentityOf(e)] + multiset(list)[e]]
  {
    if list != [] {
      var front := list[..|list| - 1];
      assert list == front + [list[|list| - 1]];
      PartGrows(front, done, e);
    }
  }

  lemma {:induction false} PartWhole(list: seq<Message>, done: set<Message>)
    requires forall m :: m in list ==> m in done
    ensures Part(list, done) == multiset(Identities(list))
  {
    if list != [] {
      var front, m := list[..|list| - 1], list[|list| - 1];
      assert list == front + [m];
      PartWhole(front, done);
      IdentitiesSnoc(front, m);
    }
  }

  lemma {:induction false} PartNone(list: seq<Message>)
    ensures Part(list, {}) == multiset{}
  {
    if list != [] { PartNone(list[..|list| - 1]); }
  }

  /** The entries of list, as many of each as pool holds, in their order. */
  ghost function Shared(list: seq<Message>, pool: multiset<Message>): (s: seq<Message>)
    ensures multiset(s) == multiset(list) * pool
  {
    if list == [] then []
    else
      var front, m := list[..|list| - 1], list[|list| - 1];
      assert list == front + [m];
      if m in pool then
        assert (multiset(front) + multiset{m}) * pool == multiset(front) * (pool - multiset{m}) + multiset{m};
        Shared(front, pool - multiset{m}) + [m]
      else
        assert multiset(list) * pool == multiset(front) * pool;
        Shared(front, pool)
  }

  function Without<T>(y: seq<T>, k: nat): seq<T>
    requires k < |y|
  {
    y[..k] + y[k + 1..]
  }

  lemma WithoutOne<T>(y: seq<T>, k: nat)
    requires k < |y|
    ensures multiset(y) == multiset(Without(y, k)) + multiset{y[k]}
  {
    assert y == y[..k] + [y[k]] + y[k + 1..];
  }

  lemma WithoutIdentity(y: seq<Message>, k: nat)
    requires k < |y|
    ensures Identities(Without(y, k)) == Without(Identities(y), k)
  {
  }

  /** Equal multisets of messages have equal multisets of identities. */
  lemma {:induction false} SameIdentities(x: seq<Message>, y: seq<Message>)
    requires multiset(x) == multiset(y)
    ensures multiset(Identities(x)) == multiset(Identities(y))
    decreases |x|
  {
    if x == [] {
      assert |multiset(y)| == 0;
    } else {
      var m := x[0];
      assert m in multiset(y);
      var k :| 0 <= k < |y| && y[k] == m;
      WithoutOne(x, 0);
      WithoutOne(y, k);
      assert multiset(Without(x, 0)) == multiset(x) - multiset{m} == multiset(Without(y, k));
      SameIdentities(Without(x, 0), Without(y, k));
      WithoutIdentity(x, 0);
      WithoutIdentity(y, k);
      WithoutOne(Identities(x), 0);
      WithoutOne(Identities(y), k);
    }
  }

  /** A message with no id is the only one of its identity. */
  lemma {:induction false} PlainIdentity(list: seq<Message>, digest: nat)
    ensures multiset(Identities(list))[Identity(false, digest)] == multiset(list)[Entry(false, 0, digest)]
  {
    if list != [] {
      var front, m := list[..|list| - 1], list[|list| - 1];
      assert list == front + [m];
      PlainIdentity(front, digest);
      IdentitiesSnoc(front, m);
    }
  }

  // ---------------------------------------------------------------------
  // The loops.
  // ---------------------------------------------------------------------

  ghost predicate Tallied(list: seq<Message>, c: map<Message, nat>) {
    forall e :: Count(c, e) == multiset(list)[e]
  }

  method Tally(list: seq<Message>) returns (c: map<Message, nat>)
    ensures Tallied(list, c)
  {
    c := map[];
    for i := 0 to |list|
      invariant Tallied(list[..i], c)
    {
      assert list[..i + 1] == list[..i] + [list[i]];
      c := c[list[i] := Count(c, list[i]) + 1];
    }
    assert list[..|list|] == list;
  }

  /** What a walk over done leaves: how many entries were kept, and how many of each id were not. */
  ghost predicate Walked(list: seq<Message>, shared: seq<Message>, done: set<Message>, kept: nat, left: map<nat, nat>) {
    && kept == |Part(shared, done)|
    && Rest(Part(list, done), Part(shared, done), left)
  }

  /** Per id, what whole holds beyond shared. */
  ghost predicate Rest(whole: multiset<Identity>, shared: multiset<Identity>, left: map<nat, nat>) {
    forall id :: Count(left, id) + shared[Identity(true, id)] == whole[Identity(true, id)]
  }

  lemma {:induction false} WalkStep(list: seq<Message>, shared: seq<Message>, done: set<Message>, kept: nat,
                                    left: map<nat, nat>, e: Message, next: map<nat, nat>)
    requires Walked(list, shared, done, kept, left) && e !in done && multiset(shared)[e] <= multiset(list)[e]
    requires next == if e.hasID then left[e.id := Count(left, e.id) + multiset(list)[e] - multiset(shared)[e]] else left
    ensures Walked(list, shared, done + {e}, kept + multiset(shared)[e], next)
  {
    PartGrows(list, done, e);
    PartGrows(shared, done, e);
  }

  /** A walk over the whole list leaves what is shared, and the rest of each id. */
  lemma {:induction false} WalkWhole(list: seq<Message>, shared: seq<Message>, done: set<Message>, kept: nat,
                                     left: map<nat, nat>)
    requires Walked(list, shared, done, kept, left) && (forall e :: multiset(list)[e] > 0 ==> e in done)
    requires forall e :: multiset(shared)[e] <= multiset(list)[e]
    ensures kept == |shared|
    ensures Rest(multiset(Identities(list)), multiset(Identities(shared)), left)
  {
    assert forall m :: m in list ==> multiset(list)[m] > 0;
    assert forall m :: m in shared ==> multiset(shared)[m] > 0;
    PartWhole(list, done);
    PartWhole(shared, done);
    assert |multiset(Identities(shared))| == |Identities(shared)|;
  }

  /** One side's walk: how many of its entries the other holds too, and how many of each id it does not. */
  method Walk(list: seq<Message>, mine: map<Message, nat>, theirs: map<Message, nat>, ghost shared: seq<Message>)
    returns (kept: nat, left: map<nat, nat>)
    requires Tallied(list, mine)
    requires forall e :: multiset(shared)[e] == Min(Count(mine, e), Count(theirs, e))
    ensures kept == |shared|
    ensures Rest(multiset(Identities(list)), multiset(Identities(shared)), left)
  {
    hide Part;
    kept, left := 0, map[];
    PartNone(list);
    PartNone(shared);
    var todo := mine.Keys;
    assert mine.Keys - todo == {};
    while todo != {}
      invariant todo <= mine.Keys
      invariant Walked(list, shared, mine.Keys - todo, kept, left)
      decreases |todo|
    {
      var e :| e in todo;
      var k := Min(mine[e], Count(theirs, e));
      var next := if e.hasID then left[e.id := Count(left, e.id) + mine[e] - k] else left;
      assert multiset(list)[e] == mine[e] && multiset(shared)[e] == k;
      WalkStep(list, shared, mine.Keys - todo, kept, left, e, next);
      assert mine.Keys - (todo - {e}) == (mine.Keys - todo) + {e};
      kept, left, todo := kept + k, next, todo - {e};
    }
    assert mine.Keys - todo == mine.Keys;
    WalkWhole(list, shared, mine.Keys, kept, left);
  }

  /** Per id, as many entries changed as are left on both sides. */
  method Changed(leftP: map<nat, nat>, leftN: map<nat, nat>, ghost p: multiset<Identity>, ghost n: multiset<Identity>,
                 ghost shared: multiset<Identity>)
    returns (changed: nat)
    requires Rest(p, shared, leftP) && Rest(n, shared, leftN)
    requires forall v: Identity :: !v.hasID ==> shared[v] == (p * n)[v]
    ensures |shared| + changed == |p * n|
  {
    changed := 0;
    ghost var acc := shared;
    var todo := leftP.Keys;
    while todo != {}
      invariant todo <= leftP.Keys
      invariant |acc| == |shared| + changed
      invariant forall v: Identity :: acc[v] == if v.hasID && v.v in leftP.Keys - todo then (p * n)[v] else shared[v]
      decreases |todo|
    {
      var id :| id in todo;
      changed := changed + Min(leftP[id], Count(leftN, id));
      assert leftP[id] == Count(leftP, id);
      acc := acc[Identity(true, id) := (p * n)[Identity(true, id)]];
      todo := todo - {id};
    }
    forall v: Identity | v.hasID && v.v !in leftP ensures shared[v] == (p * n)[v] {
      assert Count(leftP, v.v) == 0 && v == Identity(true, v.v);
    }
    assert acc == p * n;
  }

  /** What is shared of the identities with no id is all both lists hold of them. */
  lemma PlainShared(P: seq<Message>, N: seq<Message>, shared: seq<Message>)
    requires multiset(shared) == multiset(P) * multiset(N)
    ensures forall v: Identity :: !v.hasID ==>
      multiset(Identities(shared))[v] == (multiset(Identities(P)) * multiset(Identities(N)))[v]
  {
    forall v: Identity | !v.hasID
      ensures multiset(Identities(shared))[v] == (multiset(Identities(P)) * multiset(Identities(N)))[v]
    {
      PlainIdentity(P, v.v);
      PlainIdentity(N, v.v);
      PlainIdentity(shared, v.v);
    }
  }

  lemma MatchedWithin(P: seq<Message>, N: seq<Message>)
    ensures |multiset(Identities(P)) * multiset(Identities(N))| <= |P|
    ensures |multiset(Identities(P)) * multiset(Identities(N))| <= |N|
  {
    assert |multiset(Identities(P))| == |Identities(P)| && |multiset(Identities(N))| == |Identities(N)|;
    IntersectionWithin(multiset(Identities(P)), multiset(Identities(N)));
  }

  lemma IntersectionWithin<T>(x: multiset<T>, y: multiset<T>)
    ensures |x * y| <= |x| && |x * y| <= |y|
  {
    assert x == x * y + (x - y);
    assert y == x * y + (y - x);
  }

  /**
   The numbers alone: kept entries are in both lists, and with those changed they are all the identities
   both hold.
   */
  method KeptAndChanged(P: seq<Message>, N: seq<Message>) returns (kept: nat, changed: nat)
    ensures kept == |multiset(P) * multiset(N)|
    ensures kept + changed == |multiset(Identities(P)) * multiset(Identities(N))|
  {
    hide Shared, Part;
    var cp := Tally(P);
    var cn := Tally(N);
    ghost var sharedP, sharedN := Shared(P, multiset(N)), Shared(N, multiset(P));
    assert multiset(sharedP) == multiset(sharedN);
    SameIdentities(sharedP, sharedN);
    var leftP, leftN;
    ghost var keptN;
    kept, leftP := Walk(P, cp, cn, sharedP);
    keptN, leftN := Walk(N, cn, cp, sharedN);
    SharedSizes(P, N, sharedP);
    PlainShared(P, N, sharedP);
    changed := Changed(leftP, leftN, multiset(Identities(P)), multiset(Identities(N)), multiset(Identities(sharedP)));
  }

  lemma SharedSizes(P: seq<Message>, N: seq<Message>, shared: seq<Message>)
    requires multiset(shared) == multiset(P) * multiset(N)
    ensures |shared| == |multiset(P) * multiset(N)| == |multiset(Identities(shared))|
  {
    assert |multiset(shared)| == |shared|;
    assert |multiset(Identities(shared))| == |Identities(shared)|;
  }

  /** The whole explanation of a changed history. */
  method Counts(P: seq<Message>, N: seq<Message>) returns (c: Card)
    ensures c.kept == |multiset(P) * multiset(N)|
    ensures c.kept + c.changed == |multiset(Identities(P)) * multiset(Identities(N))|
    ensures c.kept + c.changed + c.dropped == |P| && c.kept + c.changed + c.added == |N|
    ensures c.kept >= 0 && c.changed >= 0 && c.dropped >= 0 && c.added >= 0
    ensures c.orderWhy == OrderTest.OrderWhy(P, N)
    ensures c.orderWhy == "" ==> c.order == !OrderTest.OrderKept(P, N, c.kept + c.changed)
  {
    var kept, changed := KeptAndChanged(P, N);
    MatchedWithin(P, N);
    var order, why := OrderTest.OrderChanged(P, N, kept + changed);
    c := Card(kept, changed, |P| - kept - changed, |N| - kept - changed, order, why);
  }
}
