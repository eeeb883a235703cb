/**
 The length of the union of time ranges, so that overlapping work counts once.
 */
module Spans {

  datatype Span = Span(from: int, to: int)

  /** A range missing its start, or ending before it, is left out. */
  predicate Kept(s: Span) {
    s.from != 0 && s.to >= s.from
  }

  /** The instants of a range: its start, and not its end. */
  ghost function Instants(lo: int, hi: int): (r: set<int>)
    ensures forall x :: x in r <==> lo <= x < hi
    decreases hi - lo
  {
    if lo < hi then Instants(lo, hi - 1) + {hi - 1} else {}
  }

  lemma {:induction false} InstantsCount(lo: int, hi: int)
    requires lo <= hi
    ensures |Instants(lo, hi)| == hi - lo
    decreases hi - lo
  {
    if lo < hi {
      InstantsCount(lo, hi - 1);
    }
  }

  /** The instants at least one of the ranges kept covers. */
  ghost function Covered(spans: seq<Span>): (c: set<int>)
    ensures forall x :: x in c <==>
              exists k :: 0 <= k < |spans| && Kept(spans[k]) && x in Instants(spans[k].from, spans[k].to)
  {
    if spans == [] then {}
    else
      var front, s := spans[..|spans| - 1], spans[|spans| - 1];
      assert forall k :: 0 <= k < |spans| ==> spans[k] == if k < |front| then front[k] else s;
      Covered(front) + if Kept(s) then Instants(s.from, s.to) else {}
  }

  /** An instant is covered when a range with a start takes it in: from its start, and before its end. */
  lemma CoveredIs(spans: seq<Span>, x: int)
    ensures x in Covered(spans) <==> exists s :: s in spans && s.from != 0 && s.from <= x < s.to
  {
    if x in Covered(spans) {
      var k :| 0 <= k < |spans| && Kept(spans[k]) && x in Instants(spans[k].from, spans[k].to);
      assert spans[k] in spans;
    }
  }

  lemma SameCovered(a: seq<Span>, b: seq<Span>)
    requires forall s :: Kept(s) ==> (s in a <==> s in b)
    ensures Covered(a) == Covered(b)
  {
    forall x | x in Covered(a) ensures x in Covered(b) {
      var k :| 0 <= k < |a| && Kept(a[k]) && x in Instants(a[k].from, a[k].to);
      assert a[k] in b;
    }
    forall x | x in Covered(b) ensures x in Covered(a) {
      var k :| 0 <= k < |b| && Kept(b[k]) && x in Instants(b[k].from, b[k].to);
      assert b[k] in a;
    }
  }

  ghost predicate ByStart(r: seq<Span>) {
    forall i, j :: 0 <= i < j < |r| ==> r[i].from <= r[j].from
  }

  /** The ranges kept, ordered by where they start. */
  method KeptByStart(spans: seq<Span>) returns (r: seq<Span>)
    ensures ByStart(r) && forall s :: s in r <==> s in spans && Kept(s)
  {
    r := [];
    for i := 0 to |spans|
      invariant ByStart(r) && forall s :: s in r <==> s in spans[..i] && Kept(s)
    {
      assert spans[..i + 1] == spans[..i] + [spans[i]];
      if Kept(spans[i]) { r := Insert(r, spans[i]); }
    }
    assert spans[..|spans|] == spans;
  }

  method Insert(r: seq<Span>, s: Span) returns (q: seq<Span>)
    requires ByStart(r)
    ensures ByStart(q) && forall x :: x in q <==> x in r || x == s
  {
    var k := |r|;
    while k > 0 && r[k - 1].from > s.from
      invariant 0 <= k <= |r|
      invariant forall j :: k <= j < |r| ==> s.from < r[j].from
    {
      k := k - 1;
    }
    q := r[..k] + [s] + r[k..];
    InsertHolds(r, k, s);
  }

  lemma InsertHolds(r: seq<Span>, k: nat, s: Span)
    requires k <= |r|
    ensures forall x :: x in r[..k] + [s] + r[k..] <==> x in r || x == s
  {
    assert r == r[..k] + r[k..];
  }

  /** Where the sweep is: c the instants covered, of which [start, end) are the run still open. */
  ghost predicate Swept(c: set<int>, total: int, start: int, end: int) {
    && start <= end
    && total + end - start == |c|
    && (forall x :: start <= x < end ==> x in c)
    && (forall x :: x in c ==> x < end)
  }

  /** A range past the open run closes it and opens another. */
  lemma {:induction false} SweepOpens(c: set<int>, total: int, start: int, end: int, s: Span)
    requires Swept(c, total, start, end) && Kept(s) && (c == {} || s.from > end)
    ensures Swept(c + Instants(s.from, s.to), total + end - start, s.from, s.to)
  {
    hide Instants;
    InstantsCount(s.from, s.to);
    assert c !! Instants(s.from, s.to);
  }

  /** A range that meets the open run can only lengthen it. */
  lemma {:induction false} SweepExtends(c: set<int>, total: int, start: int, end: int, s: Span)
    requires Swept(c, total, start, end) && Kept(s) && start <= s.from <= end
    ensures Swept(c + Instants(s.from, s.to), total, start, if s.to > end then s.to else end)
  {
    hide Instants;
    var more := if s.to > end then s.to else end;
    InstantsCount(end, more);
    assert c + Instants(s.from, s.to) == c + Instants(end, more);
    assert c !! Instants(end, more);
  }

  lemma {:induction false} CoveredSnoc(r: seq<Span>, n: nat)
    requires n < |r| && Kept(r[n])
    ensures Covered(r[..n + 1]) == Covered(r[..n]) + Instants(r[n].from, r[n].to)
  {
    hide Instants;
    assert r[..n + 1][..n] == r[..n];
  }

  method Sweep(r: seq<Span>) returns (total: int)
    requires ByStart(r) && forall i :: 0 <= i < |r| ==> Kept(r[i])
    ensures total == |Covered(r)|
  {
    hide Covered, Instants;
    var start, end := 0, 0;
    total := 0;
    CoveredNone();
    assert r[..0] == [];
    for i := 0 to |r|
      invariant Swept(Covered(r[..i]), total, start, end)
      invariant if i == 0 then total == start == end == 0 && Covered(r[..i]) == {} else start <= r[i - 1].from
    {
      var s := r[i];
      CoveredSnoc(r, i);
      if i == 0 || s.from > end {
        SweepOpens(Covered(r[..i]), total, start, end, s);
        total := total + end - start;
        start, end := s.from, s.to;
        continue;
      }
      SweepExtends(Covered(r[..i]), total, start, end, s);
      if s.to > end { end := s.to; }
    }
    if |r| > 0 { total := total + end - start; }
    assert r[..|r|] == r;
  }

  lemma CoveredNone()
    ensures Covered([]) == {}
  {
  }

  /** The total is the number of instants covered, each counted once, whatever the order of the ranges. */
  method Union(spans: seq<Span>) returns (total: int)
    ensures total == |Covered(spans)|
  {
    var r := KeptByStart(spans);
    assert forall i :: 0 <= i < |r| ==> r[i] in r;
    total := Sweep(r);
    SameCovered(r, spans);
  }
}
