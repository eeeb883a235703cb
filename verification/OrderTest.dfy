/**
 Whether the messages two histories share are still in their earlier order:
 the Hunt and Szymanski test, proved against order-preserving matchings.
 */
module OrderTest {
  import opened Messages

  /** The bound on the pairs of equal identities the test visits. */
  const MAX_ORDER_PAIRS := 4194304

  const REPEATED_ID := "repeated_id"
  const TOO_LARGE := "too_large"

  // ---------------------------------------------------------------------
  // What the test is about: matchings that keep both orders.
  // ---------------------------------------------------------------------

  datatype Pair = Pair(i: nat, j: nat)

  /** Pairs of equal entries of a[..i] and b[..j], strictly rising on both sides. */
  ghost predicate Matching<T(!new)>(a: seq<T>, b: seq<T>, i: nat, j: nat, m: seq<Pair>)
    requires i <= |a| && j <= |b|
  {
    && (forall k :: 0 <= k < |m| ==> m[k].i < i && m[k].j < j && a[m[k].i] == b[m[k].j])
    && (forall k, l :: 0 <= k < l < |m| ==> m[k].i < m[l].i && m[k].j < m[l].j)
  }

  function Max(x: nat, y: nat): nat { if x < y then y else x }

  /** The length of the longest common subsequence of a[..i] and b[..j]. */
  ghost function Lcs<T(!new)>(a: seq<T>, b: seq<T>, i: nat, j: nat): nat
    requires i <= |a| && j <= |b|
    decreases i + j
  {
    if i == 0 || j == 0 then 0
    else if a[i - 1] == b[j - 1] then 1 + Lcs(a, b, i - 1, j - 1)
    else Max(Lcs(a, b, i - 1, j), Lcs(a, b, i, j - 1))
  }

  /** No order-preserving matching is longer than Lcs. */
  lemma {:induction false} LcsBounds<T(!new)>(a: seq<T>, b: seq<T>, i: nat, j: nat, m: seq<Pair>)
    requires i <= |a| && j <= |b| && Matching(a, b, i, j, m)
    ensures |m| <= Lcs(a, b, i, j)
    decreases i + j
  {
    if |m| > 0 {
      var front, last := m[..|m| - 1], m[|m| - 1];
      if a[i - 1] == b[j - 1] {
        assert Matching(a, b, i - 1, j - 1, front);
        LcsBounds(a, b, i - 1, j - 1, front);
      } else if last.i < i - 1 {
        assert Matching(a, b, i - 1, j, m);
        LcsBounds(a, b, i - 1, j, m);
      } else {
        assert Matching(a, b, i, j - 1, m);
        LcsBounds(a, b, i, j - 1, m);
      }
    }
  }

  /** Some order-preserving matching is as long as Lcs. */
  lemma {:induction false} LcsReached<T(!new)>(a: seq<T>, b: seq<T>, i: nat, j: nat) returns (m: seq<Pair>)
    requires i <= |a| && j <= |b|
    ensures Matching(a, b, i, j, m) && |m| == Lcs(a, b, i, j)
    decreases i + j
  {
    if i == 0 || j == 0 {
      m := [];
    } else if a[i - 1] == b[j - 1] {
      m := LcsReached(a, b, i - 1, j - 1);
      m := m + [Pair(i - 1, j - 1)];
    } else if Lcs(a, b, i - 1, j) >= Lcs(a, b, i, j - 1) {
      m := LcsReached(a, b, i - 1, j);
    } else {
      m := LcsReached(a, b, i, j - 1);
    }
  }

  /** One more entry on a side adds at most one, and never takes away. */
  lemma {:induction false} LcsSteps<T(!new)>(a: seq<T>, b: seq<T>, i: nat, j: nat)
    requires i <= |a| && j < |b|
    ensures Lcs(a, b, i, j) <= Lcs(a, b, i, j + 1) <= Lcs(a, b, i, j) + 1
  {
    var m := LcsReached(a, b, i, j);
    assert Matching(a, b, i, j + 1, m);
    LcsBounds(a, b, i, j + 1, m);
    var n := LcsReached(a, b, i, j + 1);
    if |n| > 0 {
      assert forall k :: 0 <= k < |n| - 1 ==> n[k].j < n[|n| - 1].j;
      assert Matching(a, b, i, j, n[..|n| - 1]);
      LcsBounds(a, b, i, j, n[..|n| - 1]);
    }
  }

  lemma {:induction false} LcsRising<T(!new)>(a: seq<T>, b: seq<T>, i: nat, q: nat, j: nat)
    requires i <= |a| && q <= j <= |b|
    ensures Lcs(a, b, i, q) <= Lcs(a, b, i, j)
    decreases j - q
  {
    if q < j {
      LcsSteps(a, b, i, q);
      LcsRising(a, b, i, q + 1, j);
    }
  }

  // ---------------------------------------------------------------------
  // One row of the test: entry i of a may be matched at positions from p on.
  // ---------------------------------------------------------------------

  /** Lcs of a[..i] and b[..j], or one more where a[i] ends it at a position in [p, j). */
  ghost function Row<T(!new)>(a: seq<T>, b: seq<T>, i: nat, p: nat, j: nat): nat
    requires i < |a| && j <= |b|
    decreases j
  {
    if j <= p then Lcs(a, b, i, j)
    else
      var before := Max(Row(a, b, i, p, j - 1), Lcs(a, b, i, j));
      if a[i] == b[j - 1] then Max(before, 1 + Lcs(a, b, i, j - 1)) else before
  }

  /** With every position allowed, a row is the next row of Lcs. */
  lemma {:induction false} RowIsLcs<T(!new)>(a: seq<T>, b: seq<T>, i: nat, j: nat)
    requires i < |a| && j <= |b|
    ensures Row(a, b, i, 0, j) == Lcs(a, b, i + 1, j)
    decreases j
  {
    if j > 0 {
      RowIsLcs(a, b, i, j - 1);
      LcsSteps(a, b, i, j - 1);
      RowBelow(a, b, i, 0, j - 1);
    }
  }

  /** A row is at most one above the row before it. */
  lemma {:induction false} RowBelow<T(!new)>(a: seq<T>, b: seq<T>, i: nat, p: nat, j: nat)
    requires i < |a| && j <= |b|
    ensures Lcs(a, b, i, j) <= Row(a, b, i, p, j) <= Lcs(a, b, i, j) + 1
    decreases j
  {
    if j > p {
      RowBelow(a, b, i, p, j - 1);
      LcsSteps(a, b, i, j - 1);
    }
  }

  /** Allowing the position p as well raises the row past it to one over Lcs at p, and no more. */
  lemma {:induction false} RowWidens<T(!new)>(a: seq<T>, b: seq<T>, i: nat, p: nat, j: nat)
    requires i < |a| && p < |b| && j <= |b|
    ensures Row(a, b, i, p, j) ==
      if j > p && a[i] == b[p] then Max(Row(a, b, i, p + 1, j), 1 + Lcs(a, b, i, p)) else Row(a, b, i, p + 1, j)
    decreases j
  {
    if j > p + 1 {
      RowWidens(a, b, i, p, j - 1);
    } else if j == p + 1 {
      LcsSteps(a, b, i, p);
    }
  }

  /** Positions that hold nothing equal to a[i] change nothing. */
  lemma {:induction false} RowSkips<T(!new)>(a: seq<T>, b: seq<T>, i: nat, p: nat, q: nat, j: nat)
    requires i < |a| && p <= q <= |b| && j <= |b|
    requires forall x :: p <= x < q ==> a[i] != b[x]
    ensures Row(a, b, i, p, j) == Row(a, b, i, q, j)
    decreases q - p
  {
    if p < q {
      RowWidens(a, b, i, p, j);
      RowSkips(a, b, i, p + 1, q, j);
    }
  }

  // ---------------------------------------------------------------------
  // The tails: a strictly rising sequence whose k-th value is the least
  // position at which k + 1 matches can end.
  // ---------------------------------------------------------------------

  ghost predicate Rising(s: seq<nat>) {
    forall k, l :: 0 <= k < l < |s| ==> s[k] < s[l]
  }

  /** k is where j would be put into the rising sequence s. */
  ghost predicate PlaceOf(s: seq<nat>, j: nat, k: nat) {
    && k <= |s|
    && (forall x :: 0 <= x < k ==> s[x] < j)
    && (forall x :: k <= x < |s| ==> j <= s[x])
  }

  /** The tails count, for every position, the matches a row allows before it. */
  ghost predicate TailsHold<T(!new)>(a: seq<T>, b: seq<T>, i: nat, p: nat, tails: seq<nat>)
    requires i < |a|
  {
    && Rising(tails)
    && (forall x :: 0 <= x < |tails| ==> tails[x] < |b|)
    && (forall j: nat :: j <= |b| ==> PlaceOf(tails, j, Row(a, b, i, p, j)))
  }

  ghost predicate TailsDone<T(!new)>(a: seq<T>, b: seq<T>, i: nat, tails: seq<nat>)
    requires i <= |a|
  {
    && Rising(tails)
    && (forall x :: 0 <= x < |tails| ==> tails[x] < |b|)
    && (forall j: nat :: j <= |b| ==> PlaceOf(tails, j, Lcs(a, b, i, j)))
  }

  /** A row begins with no position allowed. */
  lemma RowBegins<T(!new)>(a: seq<T>, b: seq<T>, i: nat, tails: seq<nat>)
    requires i < |a| && TailsDone(a, b, i, tails)
    ensures TailsHold(a, b, i, |b|, tails)
  {
    forall j: nat | j <= |b| ensures PlaceOf(tails, j, Row(a, b, i, |b|, j)) {
      assert Row(a, b, i, |b|, j) == Lcs(a, b, i, j);
    }
  }

  lemma RowEnds<T(!new)>(a: seq<T>, b: seq<T>, i: nat, tails: seq<nat>)
    requires i < |a| && TailsHold(a, b, i, 0, tails)
    ensures TailsDone(a, b, i + 1, tails)
  {
    var n := i + 1;
    forall j: nat | j <= |b| ensures PlaceOf(tails, j, Lcs(a, b, n, j)) {
      RowIsLcs(a, b, i, j);
    }
  }

  lemma RowMoves<T(!new)>(a: seq<T>, b: seq<T>, i: nat, p: nat, q: nat, tails: seq<nat>)
    requires i < |a| && p <= q <= |b| && TailsHold(a, b, i, q, tails)
    requires forall x :: p <= x < q ==> a[i] != b[x]
    ensures TailsHold(a, b, i, p, tails)
  {
    forall j: nat | j <= |b| ensures PlaceOf(tails, j, Row(a, b, i, p, j)) {
      RowSkips(a, b, i, p, q, j);
    }
  }

  /** Putting the position j in its place widens the row by j. */
  lemma {:induction false} TailsWiden<T(!new)>(a: seq<T>, b: seq<T>, i: nat, j: nat, k: nat, tails: seq<nat>,
                                        next: seq<nat>)
    requires i < |a| && j < |b| && a[i] == b[j]
    requires TailsHold(a, b, i, j + 1, tails) && PlaceOf(tails, j, k)
    requires next == if k == |tails| then tails + [j] else tails[k := j]
    ensures TailsHold(a, b, i, j, next)
  {
    assert PlaceOf(tails, j, Row(a, b, i, j + 1, j));
    assert Row(a, b, i, j + 1, j) == Lcs(a, b, i, j);
    PlaceUnique(tails, j, k, Lcs(a, b, i, j));
    forall x: nat | x <= |b| ensures PlaceOf(next, x, Row(a, b, i, j, x)) {
      assert PlaceOf(tails, x, Row(a, b, i, j + 1, x));
      RowWidens(a, b, i, j, x);
    }
  }

  lemma PlaceUnique(s: seq<nat>, j: nat, k: nat, l: nat)
    requires PlaceOf(s, j, k) && PlaceOf(s, j, l)
    ensures k == l
  {
    var least := if k < l then k else l;
    assert least < |s| ==> s[least] < j || j <= s[least];
  }

  // ---------------------------------------------------------------------
  // The loops.
  // ---------------------------------------------------------------------

  /** The binary search that places a position among the tails. */
  method SearchInts(s: seq<nat>, j: nat) returns (k: nat)
    requires Rising(s)
    ensures PlaceOf(s, j, k)
  {
    var lo, hi := 0, |s|;
    while lo < hi
      invariant 0 <= lo <= hi <= |s|
      invariant forall x :: 0 <= x < lo ==> s[x] < j
      invariant forall x :: hi <= x < |s| ==> j <= s[x]
    {
      var mid := (lo + hi) / 2;
      if s[mid] < j { lo := mid + 1; } else { hi := mid; }
    }
    k := lo;
  }

  /** ps lists exactly the positions in [lo, |b|) that hold v, the last first. */
  ghost predicate Positions<T(!new)>(b: seq<T>, lo: nat, v: T, ps: seq<nat>) {
    && (forall x :: 0 <= x < |ps| ==> lo <= ps[x] < |b| && b[ps[x]] == v)
    && (forall x, y :: 0 <= x < y < |ps| ==> ps[y] < ps[x])
    && (forall j :: lo <= j < |b| && b[j] == v ==> j in ps)
  }

  function Hits<T>(at: map<T, seq<nat>>, v: T): seq<nat> {
    if v in at then at[v] else []
  }

  /** One entry further down, its own value's positions gain it and the others' stay. */
  lemma PositionsGrow<T(!new)>(b: seq<T>, j: nat, v: T, ps: seq<nat>)
    requires j < |b| && Positions(b, j + 1, v, ps)
    ensures Positions(b, j, v, if b[j] == v then ps + [j] else ps)
  {
    var next := if b[j] == v then ps + [j] else ps;
    forall x | j <= x < |b| && b[x] == v ensures x in next {
      if x == j {
        assert next[|ps|] == j;
      } else {
        var y :| 0 <= y < |ps| && ps[y] == x;
        assert next[y] == x;
      }
    }
  }

  /** Each identity's positions, gathered from the last entry down. */
  method PositionsOf(b: seq<Identity>) returns (at: map<Identity, seq<nat>>)
    ensures forall v :: Positions(b, 0, v, Hits(at, v))
  {
    at := map[];
    var j := |b|;
    while j > 0
      invariant 0 <= j <= |b|
      invariant forall v :: Positions(b, j, v, Hits(at, v))
    {
      j := j - 1;
      ghost var was := at;
      at := at[b[j] := Hits(at, b[j]) + [j]];
      forall v ensures Positions(b, j, v, Hits(at, v)) {
        PositionsGrow(b, j, v, Hits(was, v));
      }
    }
  }

  /** How many pairs of equal entries the two sequences hold. */
  ghost function PairsOf<T(!new)>(a: seq<T>, b: seq<T>): nat {
    if a == [] then 0 else PairsOf(a[..|a| - 1], b) + multiset(b)[a[|a| - 1]]
  }

  lemma {:induction false} PositionsCount<T(!new)>(b: seq<T>, v: T, ps: seq<nat>)
    requires Positions(b, 0, v, ps)
    ensures |ps| == multiset(b)[v]
    decreases |b|
  {
    if b == [] {
    } else {
      var n := |b| - 1;
      var front := b[..n];
      assert b == front + [b[n]];
      if b[n] == v {
        assert n in ps;
        var x :| 0 <= x < |ps| && ps[x] == n;
        assert ps[0] >= ps[x];
        assert ps[0] == n;
        var rest := ps[1..];
        assert Positions(front, 0, v, rest) by {
          forall j | 0 <= j < |front| && front[j] == v ensures j in rest {
            assert j in ps;
            var y :| 0 <= y < |ps| && ps[y] == j;
            assert rest[y - 1] == j;
          }
          forall y | 0 <= y < |rest| ensures rest[y] < n && front[rest[y]] == v {
            assert rest[y] == ps[y + 1] && ps[y + 1] < ps[0];
          }
        }
        PositionsCount(front, v, rest);
      } else {
        assert Positions(front, 0, v, ps) by {
          forall y | 0 <= y < |ps| ensures ps[y] < n {
            assert b[ps[y]] == v;
          }
        }
        PositionsCount(front, v, ps);
      }
    }
  }

  method CountPairs(a: seq<Identity>, b: seq<Identity>, at: map<Identity, seq<nat>>) returns (pairs: nat)
    requires forall v :: Positions(b, 0, v, Hits(at, v))
    ensures pairs == PairsOf(a, b)
  {
    pairs := 0;
    for i := 0 to |a|
      invariant pairs == PairsOf(a[..i], b)
    {
      assert a[..i + 1][..i] == a[..i];
      assert Positions(b, 0, a[i], Hits(at, a[i]));
      PositionsCount(b, a[i], Hits(at, a[i]));
      pairs := pairs + |Hits(at, a[i])|;
    }
    assert a[..|a|] == a;
  }

  /** One entry's matching positions, taken in falling order, turn one row's tails into the next's. */
  method TakeRow(ghost a: seq<Identity>, ghost b: seq<Identity>, ghost i: nat, ps: seq<nat>, tails: seq<nat>)
    returns (next: seq<nat>)
    requires i < |a| && Positions(b, 0, a[i], ps) && TailsDone(a, b, i, tails)
    ensures TailsDone(a, b, i + 1, next)
  {
    next := tails;
    RowBegins(a, b, i, next);
    ghost var p := |b|;
    for x := 0 to |ps|
      invariant 0 <= p <= |b|
      invariant p == if x == 0 then |b| else ps[x - 1]
      invariant TailsHold(a, b, i, p, next)
    {
      var j := ps[x];
      GapHoldsNone(b, a[i], ps, x, p);
      RowMoves(a, b, i, j + 1, p, next);
      next := Put(a, b, i, j, next);
      p := j;
    }
    RestHoldsNone(b, a[i], ps, p);
    RowMoves(a, b, i, 0, p, next);
    RowEnds(a, b, i, next);
  }

  /** One position put among the tails: at the end, or over the least tail not below it. */
  method Put(ghost a: seq<Identity>, ghost b: seq<Identity>, ghost i: nat, j: nat, tails: seq<nat>)
    returns (next: seq<nat>)
    requires i < |a| && j < |b| && a[i] == b[j] && TailsHold(a, b, i, j + 1, tails)
    ensures TailsHold(a, b, i, j, next)
  {
    var k := SearchInts(tails, j);
    if k == |tails| {
      next := tails + [j];
    } else {
      next := tails[k := j];
    }
    TailsWiden(a, b, i, j, k, tails, next);
  }

  /** The tails number the pairs of the longest matching. */
  method Tails(a: seq<Identity>, b: seq<Identity>, at: map<Identity, seq<nat>>) returns (tails: seq<nat>)
    requires forall v :: Positions(b, 0, v, Hits(at, v))
    ensures |tails| == Lcs(a, b, |a|, |b|)
  {
    tails := [];
    for i := 0 to |a|
      invariant TailsDone(a, b, i, tails)
    {
      assert Positions(b, 0, a[i], Hits(at, a[i]));
      tails := TakeRow(a, b, i, Hits(at, a[i]), tails);
    }
    assert PlaceOf(tails, |b|, |tails|);
    PlaceUnique(tails, |b|, |tails|, Lcs(a, b, |a|, |b|));
  }

  /** Between one listed position and the next lower one, no entry equals v. */
  lemma GapHoldsNone<T(!new)>(b: seq<T>, v: T, ps: seq<nat>, x: nat, p: nat)
    requires Positions(b, 0, v, ps) && x < |ps| && p == if x == 0 then |b| else ps[x - 1]
    ensures ps[x] < p && forall y :: ps[x] + 1 <= y < p ==> v != b[y]
  {
    assert forall z :: 0 <= z < |ps| ==> ps[z] <= ps[x] || p <= ps[z];
  }

  /** Below the last listed position, no entry equals v. */
  lemma RestHoldsNone<T(!new)>(b: seq<T>, v: T, ps: seq<nat>, p: nat)
    requires Positions(b, 0, v, ps) && p == if ps == [] then |b| else ps[|ps| - 1]
    ensures forall y :: 0 <= y < p ==> v != b[y]
  {
    assert forall z :: 0 <= z < |ps| ==> p <= ps[z];
  }

  // ---------------------------------------------------------------------
  // The verdict.
  // ---------------------------------------------------------------------

  /** An id that two entries of the list carry. */
  ghost predicate HasRepeatedId(list: seq<Message>) {
    exists i, j :: 0 <= i < j < |list| && list[i].hasID && list[j].hasID && list[i].id == list[j].id
  }

  method RepeatedId(list: seq<Message>) returns (r: bool)
    ensures r == HasRepeatedId(list)
  {
    var seen: set<nat> := {};
    for n := 0 to |list|
      invariant forall v :: v in seen <==> exists i :: 0 <= i < n && list[i].hasID && list[i].id == v
      invariant forall i, j :: 0 <= i < j < n && list[i].hasID && list[j].hasID ==> list[i].id != list[j].id
    {
      var e := list[n];
      if !e.hasID { continue; }
      if e.id in seen { return true; }
      seen := seen + {e.id};
    }
    return false;
  }

  /** Some matching that keeps both orders has as many pairs as were matched. */
  ghost predicate OrderKept(P: seq<Message>, N: seq<Message>, matched: int) {
    exists m :: |m| >= matched && Matching(Identities(P), Identities(N), |P|, |N|, m)
  }

  /** Why the order is not decided, or "" when it is. */
  ghost function OrderWhy(P: seq<Message>, N: seq<Message>): string {
    if HasRepeatedId(P) || HasRepeatedId(N) then REPEATED_ID
    else if PairsOf(Identities(P), Identities(N)) > MAX_ORDER_PAIRS then TOO_LARGE
    else ""
  }

  method OrderChanged(P: seq<Message>, N: seq<Message>, matched: nat) returns (changed: bool, why: string)
    ensures why == OrderWhy(P, N)
    ensures why == "" ==> changed == !OrderKept(P, N, matched)
    ensures why != "" ==> !changed
  {
    var p := RepeatedId(P);
    var n := RepeatedId(N);
    if p || n { return false, REPEATED_ID; }
    var a, b := Identities(P), Identities(N);
    var at := PositionsOf(b);
    var pairs := CountPairs(a, b, at);
    if pairs > MAX_ORDER_PAIRS { return false, TOO_LARGE; }
    var tails := Tails(a, b, at);
    changed, why := |tails| < matched, "";
    LongestDecides(P, N, matched);
  }

  /** The longest matching decides whether all that was matched can be matched in order. */
  lemma {:induction false} LongestDecides(P: seq<Message>, N: seq<Message>, matched: int)
    ensures OrderKept(P, N, matched) <==> matched <= Lcs(Identities(P), Identities(N), |P|, |N|)
  {
    var a, b := Identities(P), Identities(N);
    var m := LcsReached(a, b, |a|, |b|);
    if OrderKept(P, N, matched) {
      var w :| |w| >= matched && Matching(a, b, |P|, |N|, w);
      LcsBounds(a, b, |P|, |N|, w);
    }
  }
}
