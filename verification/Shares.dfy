/**
 What each target cost. A call several targets served is split between them in
 whole tokens, and still the targets, the unassigned and the unattributed calls
 add up to the conversation exactly.
 */
module Shares {
  import opened Costs
  import opened Ledger
  import opened Starters
  import opened RollUp
  import opened LedgerTotals
  import opened LedgerCompute
  import opened Serving

  // ---------------------------------------------------------------------
  // Splitting one call.
  // ---------------------------------------------------------------------

  /** Part j of a count split k ways: the remainder goes one each to the first parts. */
  function PartOf(v: nat, k: nat, j: nat): nat
    requires k > 0
  {
    v / k + if j < v % k then 1 else 0
  }

  function PartsTo(v: nat, k: nat, n: nat): nat
    requires k > 0
  {
    if n == 0 then 0 else PartsTo(v, k, n - 1) + PartOf(v, k, n - 1)
  }

  lemma {:induction false} PartsSoFar(v: nat, k: nat, n: nat)
    requires k > 0
    ensures PartsTo(v, k, n) == n * (v / k) + if n < v % k then n else v % k
  {
    if n > 0 {
      PartsSoFar(v, k, n - 1);
      assert n * (v / k) == (n - 1) * (v / k) + v / k;
    }
  }

  /** The k parts of a count are the count. */
  lemma PartsAreWhole(v: nat, k: nat)
    requires k > 0
    ensures PartsTo(v, k, k) == v
  {
    PartsSoFar(v, k, k);
    assert v == k * (v / k) + v % k;
  }

  function PartUsage(u: Usage, k: nat, j: nat): Usage
    requires k > 0
  {
    Usage(PartOf(u.input, k, j), PartOf(u.output, k, j), PartOf(u.cacheRead, k, j), PartOf(u.cacheWrite, k, j))
  }

  function IndexOf(ws: seq<string>, t: string): (j: nat)
    requires t in ws
    ensures j < |ws| && ws[j] == t && t !in ws[..j]
  {
    if ws[0] == t then 0 else 1 + IndexOf(ws[1..], t)
  }

  /** The share of a call that is target t's, one of those it served. */
  function ShareOf(c: Call, ws: seq<string>, t: string): Call
    requires t in ws
  {
    c.(usage := if c.usage.None? then None else Some(PartUsage(c.usage.value, |ws|, IndexOf(ws, t))),
       money := if c.money.None? then None else Some(c.money.value / |ws| as real))
  }

  // ---------------------------------------------------------------------
  // What adds up: tokens of each type, and money.
  // ---------------------------------------------------------------------

  datatype Value = Value(usage: Usage, money: real)

  const NO_VALUE := Value(NO_USAGE, 0.0)

  function AddValue(a: Value, b: Value): Value {
    Value(Add(a.usage, b.usage), a.money + b.money)
  }

  function ValueOf(c: Cost): Value {
    Value(c.usage, if c.money.None? then 0.0 else c.money.value)
  }

  lemma ValueAdds(a: Cost, b: Cost)
    ensures ValueOf(Plus(a, b)) == AddValue(ValueOf(a), ValueOf(b))
  {
  }

  lemma ValueMoves(a: Value, b: Value, c: Value, d: Value)
    ensures AddValue(AddValue(a, b), AddValue(c, d)) == AddValue(AddValue(a, c), AddValue(b, d))
    ensures AddValue(a, NO_VALUE) == a && AddValue(NO_VALUE, a) == a
    ensures AddValue(AddValue(a, b), c) == AddValue(AddValue(a, c), b)
  {
  }

  /** The values of the parts of a call, of the first n targets it served. */
  function SharesTo(c: Call, ws: seq<string>, n: nat): Value
    requires n <= |ws|
  {
    if n == 0 then NO_VALUE else AddValue(SharesTo(c, ws, n - 1), ValueOf(CostOf(ShareOf(c, ws, ws[n-1]))))
  }

  lemma IndexIs(ws: seq<string>, j: nat)
    requires Distinct(ws) && j < |ws|
    ensures IndexOf(ws, ws[j]) == j
  {
    var k := IndexOf(ws, ws[j]);
    assert ws[k] == ws[j];
  }

  /** The money of a call, or its share. */
  function MoneyShare(c: Call, k: nat): real
    requires k > 0
  {
    if c.money.None? then 0.0 else c.money.value / k as real
  }

  lemma ShareIs(c: Call, ws: seq<string>, j: nat)
    requires Distinct(ws) && j < |ws| && c.usage.Some?
    ensures ValueOf(CostOf(ShareOf(c, ws, ws[j]))) == Value(PartUsage(c.usage.value, |ws|, j), MoneyShare(c, |ws|))
  {
    hide PartUsage;
    IndexIs(ws, j);
  }

  lemma {:induction false} SharesSoFar(c: Call, ws: seq<string>, n: nat)
    requires Distinct(ws) && 0 < |ws| && n <= |ws| && c.usage.Some?
    ensures SharesTo(c, ws, n).usage ==
              Usage(PartsTo(c.usage.value.input, |ws|, n), PartsTo(c.usage.value.output, |ws|, n),
                                              PartsTo(c.usage.value.cacheRead, |ws|, n),
                                              PartsTo(c.usage.value.cacheWrite, |ws|, n))
    ensures SharesTo(c, ws, n).money == n as real * MoneyShare(c, |ws|)
  {
    hide PartOf, ShareOf, CostOf, ValueOf, IndexOf, MoneyShare, Distinct;
    if n > 0 {
      SharesSoFar(c, ws, n - 1);
      ShareIs(c, ws, n - 1);
      OneMore(n, MoneyShare(c, |ws|));
    }
  }

  lemma OneMore(n: nat, x: real)
    requires n > 0
    ensures n as real * x == (n - 1) as real * x + x
  {
    assert n as real == (n - 1) as real + 1.0;
  }

  lemma {:induction false} NoShares(c: Call, ws: seq<string>, n: nat)
    requires n <= |ws| && c.usage.None?
    ensures SharesTo(c, ws, n) == NO_VALUE
  {
    hide PartUsage, AddValue, IndexOf;
    if n > 0 {
      NoShares(c, ws, n - 1);
      assert ValueOf(CostOf(ShareOf(c, ws, ws[n-1]))) == NO_VALUE;
      ValueMoves(NO_VALUE, NO_VALUE, NO_VALUE, NO_VALUE);
    }
  }

  /** The shares of the targets a call served are the call. */
  lemma {:induction false} SharesAreWhole(c: Call, ws: seq<string>)
    requires Distinct(ws) && ws != []
    ensures SharesTo(c, ws, |ws|) == ValueOf(CostOf(c))
  {
    hide SharesTo, PartsTo, Distinct, PartOf;
    if c.usage.None? {
      NoShares(c, ws, |ws|);
    } else {
      var u := c.usage.value;
      SharesSoFar(c, ws, |ws|);
      PartsAreWhole(u.input, |ws|);
      PartsAreWhole(u.output, |ws|);
      PartsAreWhole(u.cacheRead, |ws|);
      PartsAreWhole(u.cacheWrite, |ws|);
      if c.money.Some? { Whole(c.money.value, |ws| as real); }
    }
  }

  lemma Whole(m: real, k: real)
    requires k != 0.0
    ensures k * (m / k) == m
  {
  }

  // ---------------------------------------------------------------------
  // One target's amount.
  // ---------------------------------------------------------------------

  function Who(who: map<nat, seq<string>>, i: nat): seq<string> {
    if i in who then who[i] else []
  }

  /** The calls as target t pays for them. */
  function SharesFor(calls: seq<Call>, who: map<nat, seq<string>>, t: string): (r: seq<Call>)
    ensures |r| == |calls|
    ensures forall i :: 0 <= i < |calls| ==>
              r[i] == if t in Who(who, i) then ShareOf(calls[i], Who(who, i), t) else calls[i]
  {
    seq(|calls|, i requires 0 <= i < |calls| => if t in Who(who, i) then ShareOf(calls[i], Who(who, i), t)
        else calls[i])
  }

  datatype Amount = Amount(usage: Usage, money: Option<real>, unknown: nat, outputUnknown: nat, unpriced: nat)

  function AmountIn(c: Cost): Amount {
    Amount(c.usage, c.money, c.unknown, c.outputUnknown, c.unpriced)
  }

  /** An amount with one more share in it. */
  function WithShare(a: Amount, c: Call, k: nat, j: nat): Amount
    requires k > 0
  {
    if c.usage.None? then a.(unknown := a.unknown + 1)
    else
      var b := a.(usage := Add(a.usage, PartUsage(c.usage.value, k, j)),
                  outputUnknown := a.outputUnknown + if c.outputUnknown then 1 else 0);
      if c.money.None? then b.(unpriced := b.unpriced + 1)
      else b.(money := Some((if b.money.None? then 0.0 else b.money.value) + c.money.value / k as real))
  }

  lemma WithShareAdds(cost: Cost, c: Call, ws: seq<string>, t: string)
    requires t in ws
    ensures AmountIn(Plus(cost, CostOf(ShareOf(c, ws, t)))) == WithShare(AmountIn(cost), c, |ws|, IndexOf(ws, t))
  {
    hide PartUsage, IndexOf;
  }

  lemma SumNext(calls: seq<Call>, idx: seq<nat>, n: nat)
    requires Indexes(calls, idx) && n < |idx|
    ensures Sum(calls, idx[..n+1]) == Plus(Sum(calls, idx[..n]), CostOf(calls[idx[n]]))
  {
    assert idx[..n+1][..n] == idx[..n];
  }

  /** Adds up a target's share of each of these calls. */
  method AmountFor(calls: seq<Call>, idx: seq<nat>, who: map<nat, seq<string>>, t: string) returns (a: Amount)
    requires Indexes(calls, idx) && forall k :: 0 <= k < |idx| ==> t in Who(who, idx[k])
    ensures a == AmountIn(Sum(SharesFor(calls, who, t), idx))
  {
    hide SharesFor, IndexOf, Sum, Plus, CostOf, ShareOf, Who, PartUsage;
    ghost var shares := SharesFor(calls, who, t);
    a := Amount(NO_USAGE, None, 0, 0, 0);
    SumOfNone(shares);
    for n := 0 to |idx|
      invariant a == AmountIn(Sum(shares, idx[..n]))
    {
      var i := idx[n];
      var c := calls[i];
      var ws := Who(who, i);
      SumNext(shares, idx, n);
      WithShareAdds(Sum(shares, idx[..n]), c, ws, t);
      if c.usage.None? {
        a := a.(unknown := a.unknown + 1);
        continue;
      }
      var k: nat, j: nat := 1, 0;
      if |ws| > 1 { k, j := |ws|, IndexOf(ws, t); }
      OnlyOne(ws, t);
      a := a.(usage := Add(a.usage, PartUsage(c.usage.value, k, j)),
              outputUnknown := a.outputUnknown + if c.outputUnknown then 1 else 0);
      if c.money.None? {
        a := a.(unpriced := a.unpriced + 1);
      } else {
        a := a.(money := Some((if a.money.None? then 0.0 else a.money.value) + c.money.value / k as real));
      }
    }
    assert idx[..|idx|] == idx;
  }

  lemma SumOfNone(calls: seq<Call>)
    ensures Sum(calls, []) == NOTHING
  {
  }

  lemma OnlyOne(ws: seq<string>, t: string)
    requires t in ws
    ensures |ws| >= 1 && (|ws| == 1 ==> IndexOf(ws, t) == 0)
  {
  }

  // ---------------------------------------------------------------------
  // Sums over all calls.
  // ---------------------------------------------------------------------

  /** The value of the calls before n that target t served, at its shares. */
  ghost function Spread(calls: seq<Call>, who: map<nat, seq<string>>, t: string, n: nat): Value
    requires n <= |calls|
  {
    if n == 0 then NO_VALUE else AddValue(Spread(calls, who, t, n - 1), ShareValue(calls, who, t, n - 1))
  }

  ghost function ShareValue(calls: seq<Call>, who: map<nat, seq<string>>, t: string, i: nat): Value
    requires i < |calls|
  {
    if t in Who(who, i) then ValueOf(CostOf(ShareOf(calls[i], Who(who, i), t))) else NO_VALUE
  }

  /** The calls before n that served target t. */
  ghost function ServedBefore(who: map<nat, seq<string>>, t: string, n: nat): (r: seq<nat>)
    ensures forall k :: 0 <= k < |r| ==> r[k] < n
    ensures forall k, l :: 0 <= k < l < |r| ==> r[k] < r[l]
    ensures forall i: nat :: i in r <==> i < n && t in Who(who, i)
  {
    hide Who;
    if n == 0 then [] else ServedBefore(who, t, n - 1) + if t in Who(who, n - 1) then [n - 1] else []
  }

  lemma ServedOnce(who: map<nat, seq<string>>, t: string, n: nat, i: nat)
    ensures multiset(ServedBefore(who, t, n))[i] == if i < n && t in Who(who, i) then 1 else 0
  {
    hide Who, ServedBefore;
    OnceInRising(ServedBefore(who, t, n), i);
  }

  lemma {:induction false} SpreadIsSum(calls: seq<Call>, who: map<nat, seq<string>>, t: string, n: nat)
    requires n <= |calls|
    ensures Indexes(SharesFor(calls, who, t), ServedBefore(who, t, n))
    ensures ValueOf(Sum(SharesFor(calls, who, t), ServedBefore(who, t, n))) == Spread(calls, who, t, n)
  {
    hide SharesFor, ShareOf, Who, CostOf, Plus, AddValue, ValueOf, Sum;
    var shares := SharesFor(calls, who, t);
    if n == 0 {
      SumOfNone(shares);
      assert ValueOf(NOTHING) == NO_VALUE by { NothingHasNoValue(); }
    } else {
      SpreadIsSum(calls, who, t, n - 1);
      var before := ServedBefore(who, t, n - 1);
      if t in Who(who, n - 1) {
        SumAppended(shares, before, n - 1);
        ValueAdds(Sum(shares, before), CostOf(shares[n - 1]));
      } else {
        assert before + [] == before;
        ValueMoves(ValueOf(Sum(shares, before)), NO_VALUE, NO_VALUE, NO_VALUE);
      }
    }
  }

  lemma NothingHasNoValue()
    ensures ValueOf(NOTHING) == NO_VALUE
  {
  }

  lemma SumAppended(calls: seq<Call>, idx: seq<nat>, i: nat)
    requires Indexes(calls, idx) && i < |calls|
    ensures Indexes(calls, idx + [i])
    ensures Sum(calls, idx + [i]) == Plus(Sum(calls, idx), CostOf(calls[i]))
  {
    assert (idx + [i])[..|idx|] == idx;
  }

  /** Any list that holds a target's calls once each costs the target what it served. */
  lemma ListIsSpread(calls: seq<Call>, who: map<nat, seq<string>>, t: string, idx: seq<nat>)
    requires forall i: nat :: multiset(idx)[i] == if i < |calls| && t in Who(who, i) then 1 else 0
    ensures Indexes(SharesFor(calls, who, t), idx)
    ensures ValueOf(Sum(SharesFor(calls, who, t), idx)) == Spread(calls, who, t, |calls|)
  {
    hide SharesFor, Spread, Sum, Who;
    SpreadIsSum(calls, who, t, |calls|);
    forall k | 0 <= k < |idx| ensures idx[k] < |calls| {
      assert idx[k] in multiset(idx);
    }
    var served: seq<nat> := ServedBefore(who, t, |calls|);
    forall i: nat { ServedOnce(who, t, |calls|, i); }
    SameOccurrences(idx, served);
    SumIgnoresOrder(SharesFor(calls, who, t), idx, served);
  }

  lemma SameOccurrences(a: seq<nat>, b: seq<nat>)
    requires forall i: nat :: multiset(a)[i] == multiset(b)[i]
    ensures multiset(a) == multiset(b)
  {
  }

  /** All the targets' shares of all the calls. */
  ghost function AllSpread(calls: seq<Call>, who: map<nat, seq<string>>, ts: seq<string>, n: nat): Value
    requires n <= |calls|
  {
    if ts == [] then NO_VALUE else AddValue(AllSpread(calls, who, ts[..|ts|-1], n), Spread(calls, who, ts[|ts|-1], n))
  }

  /** All the targets' shares of one call. */
  ghost function AllShares(calls: seq<Call>, who: map<nat, seq<string>>, ts: seq<string>, i: nat): Value
    requires i < |calls|
  {
    if ts == [] then NO_VALUE else AddValue(AllShares(calls, who, ts[..|ts|-1], i),
                                            ShareValue(calls, who, ts[|ts|-1], i))
  }

  /** Adding up by target, or by call, comes to the same. */
  lemma {:induction false} SpreadByCall(calls: seq<Call>, who: map<nat, seq<string>>, ts: seq<string>, n: nat)
    requires n < |calls|
    ensures AllSpread(calls, who, ts, n + 1) == AddValue(AllSpread(calls, who, ts, n), AllShares(calls, who, ts, n))
  {
    hide ShareValue, AddValue;
    if ts != [] {
      SpreadByCall(calls, who, ts[..|ts|-1], n);
      var before, t := ts[..|ts|-1], ts[|ts|-1];
      ValueMoves(AllSpread(calls, who, before, n), AllShares(calls, who, before, n),
                 Spread(calls, who, t, n), ShareValue(calls, who, t, n));
    } else {
      ValueMoves(NO_VALUE, NO_VALUE, NO_VALUE, NO_VALUE);
    }
  }

  lemma {:induction false} NothingSpread(calls: seq<Call>, who: map<nat, seq<string>>, ts: seq<string>)
    ensures AllSpread(calls, who, ts, 0) == NO_VALUE
  {
    hide ShareValue, AddValue;
    if ts != [] {
      NothingSpread(calls, who, ts[..|ts|-1]);
      ValueMoves(NO_VALUE, NO_VALUE, NO_VALUE, NO_VALUE);
    }
  }

  /** The shares, of call i, of the targets listed in ts among its first m. */
  ghost function SharesAmong(calls: seq<Call>, who: map<nat, seq<string>>, ts: seq<string>, i: nat, m: nat): Value
    requires i < |calls| && m <= |Who(who, i)|
  {
    if ts == [] then NO_VALUE
    else
      var t := ts[|ts|-1];
      AddValue(SharesAmong(calls, who, ts[..|ts|-1], i, m), if t in Who(who, i)[..m] then ShareValue(calls, who, t, i)
               else NO_VALUE)
  }

  lemma {:induction false} AmongNone(calls: seq<Call>, who: map<nat, seq<string>>, ts: seq<string>, i: nat)
    requires i < |calls|
    ensures SharesAmong(calls, who, ts, i, 0) == NO_VALUE
  {
    hide ShareValue, AddValue, Who;
    if ts != [] {
      AmongNone(calls, who, ts[..|ts|-1], i);
      ValueMoves(NO_VALUE, NO_VALUE, NO_VALUE, NO_VALUE);
    }
  }

  lemma {:induction false} AmongAll(calls: seq<Call>, who: map<nat, seq<string>>, ts: seq<string>, i: nat)
    requires i < |calls|
    ensures SharesAmong(calls, who, ts, i, |Who(who, i)|) == AllShares(calls, who, ts, i)
  {
    hide ShareOf;
    if ts != [] {
      AmongAll(calls, who, ts[..|ts|-1], i);
      assert Who(who, i)[..|Who(who, i)|] == Who(who, i);
    }
  }

  lemma {:induction false} AmongNext(calls: seq<Call>, who: map<nat, seq<string>>, ts: seq<string>, i: nat, m: nat)
    requires i < |calls| && m < |Who(who, i)| && Distinct(Who(who, i)) && Distinct(ts)
    ensures SharesAmong(calls, who, ts, i, m + 1) ==
            AddValue(SharesAmong(calls, who, ts, i, m), if Who(who, i)[m] in ts
                     then ShareValue(calls, who, Who(who, i)[m], i) else NO_VALUE)
  {
    hide ShareValue, AddValue, Who;
    var w := Who(who, i)[m];
    if ts == [] {
      ValueMoves(NO_VALUE, NO_VALUE, NO_VALUE, NO_VALUE);
    } else {
      var n := |ts| - 1;
      AmongNext(calls, who, ts[..n], i, m);
      LastOrNot(Who(who, i), m, ts[n]);
      assert ts == ts[..n] + [ts[n]];
      var before := SharesAmong(calls, who, ts[..n], i, m);
      if ts[n] == w {
        assert w !in ts[..n];
        ValueMoves(before, ShareValue(calls, who, w, i), NO_VALUE, NO_VALUE);
      } else {
        var here := if ts[n] in Who(who, i)[..m] then ShareValue(calls, who, ts[n], i) else NO_VALUE;
        var added := if w in ts[..n] then ShareValue(calls, who, w, i) else NO_VALUE;
        ValueMoves(before, added, here, NO_VALUE);
      }
    }
  }

  lemma LastOrNot(ws: seq<string>, m: nat, t: string)
    requires m < |ws| && Distinct(ws)
    ensures t in ws[..m+1] <==> t in ws[..m] || t == ws[m]
    ensures ws[m] !in ws[..m]
  {
    assert ws[..m+1] == ws[..m] + [ws[m]];
  }

  lemma {:induction false} AmongIsShares(calls: seq<Call>, who: map<nat, seq<string>>, ts: seq<string>, i: nat, m: nat)
    requires i < |calls| && m <= |Who(who, i)| && Distinct(Who(who, i)) && Distinct(ts)
    requires forall t :: t in Who(who, i) ==> t in ts
    ensures SharesAmong(calls, who, ts, i, m) == SharesTo(calls[i], Who(who, i), m)
  {
    hide ShareOf, SharesAmong;
    if m == 0 {
      AmongNone(calls, who, ts, i);
    } else {
      AmongIsShares(calls, who, ts, i, m - 1);
      AmongNext(calls, who, ts, i, m - 1);
    }
  }

  /** All the targets' shares of a call are the call, when it served any. */
  lemma CallIsShared(calls: seq<Call>, who: map<nat, seq<string>>, ts: seq<string>, i: nat)
    requires i < |calls| && Distinct(Who(who, i)) && Distinct(ts)
    requires forall t :: t in Who(who, i) ==> t in ts
    ensures AllShares(calls, who, ts, i) == if Who(who, i) == [] then NO_VALUE else ValueOf(CostOf(calls[i]))
  {
    hide ShareOf, SharesAmong, SharesTo;
    AmongAll(calls, who, ts, i);
    AmongIsShares(calls, who, ts, i, |Who(who, i)|);
    if Who(who, i) == [] {
      AmongNone(calls, who, ts, i);
    } else {
      SharesAreWhole(calls[i], Who(who, i));
    }
  }

  /** The calls before n that served some target. */
  ghost function AssignedBefore(who: map<nat, seq<string>>, n: nat): (r: seq<nat>)
    ensures forall k :: 0 <= k < |r| ==> r[k] < n
    ensures forall k, l :: 0 <= k < l < |r| ==> r[k] < r[l]
    ensures forall i: nat :: i in r <==> i < n && Who(who, i) != []
  {
    hide Who;
    if n == 0 then [] else AssignedBefore(who, n - 1) + if Who(who, n - 1) != [] then [n - 1] else []
  }

  lemma AssignedOnce(who: map<nat, seq<string>>, n: nat, i: nat)
    ensures multiset(AssignedBefore(who, n))[i] == if i < n && Who(who, i) != [] then 1 else 0
  {
    hide Who, AssignedBefore;
    OnceInRising(AssignedBefore(who, n), i);
  }

  /** Each call's targets are among these, each once. */
  ghost predicate AllAmong(calls: seq<Call>, who: map<nat, seq<string>>, ts: seq<string>) {
    forall i :: 0 <= i < |calls| ==> Distinct(Who(who, i)) && forall t :: t in Who(who, i) ==> t in ts
  }

  /** The targets' amounts add up to the calls that served any of them. */
  lemma {:induction false} TargetsAddUp(calls: seq<Call>, who: map<nat, seq<string>>, ts: seq<string>, n: nat)
    requires n <= |calls| && Distinct(ts) && AllAmong(calls, who, ts)
    ensures Indexes(calls, AssignedBefore(who, n))
    ensures AllSpread(calls, who, ts, n) == ValueOf(Sum(calls, AssignedBefore(who, n)))
  {
    hide AllShares, AllSpread, Who, CostOf, Plus, AddValue, ValueOf, Sum, Distinct, AllAmong, AssignedBefore;
    if n == 0 {
      NothingSpread(calls, who, ts);
      NoneAssigned(who);
      SumOfNone(calls);
      NothingHasNoValue();
    } else {
      TargetsAddUp(calls, who, ts, n - 1);
      SpreadByCall(calls, who, ts, n - 1);
      AmongAt(calls, who, ts, n - 1);
      CallIsShared(calls, who, ts, n - 1);
      AssignedNext(calls, who, n - 1);
    }
  }

  lemma NoneAssigned(who: map<nat, seq<string>>)
    ensures AssignedBefore(who, 0) == []
  {
  }

  lemma AmongAt(calls: seq<Call>, who: map<nat, seq<string>>, ts: seq<string>, i: nat)
    requires AllAmong(calls, who, ts) && i < |calls|
    ensures Distinct(Who(who, i)) && forall t :: t in Who(who, i) ==> t in ts
  {
  }

  lemma AssignedNext(calls: seq<Call>, who: map<nat, seq<string>>, n: nat)
    requires n < |calls|
    ensures ValueOf(Sum(calls, AssignedBefore(who, n + 1))) ==
            AddValue(ValueOf(Sum(calls, AssignedBefore(who, n))), if Who(who, n) == [] then NO_VALUE
                     else ValueOf(CostOf(calls[n])))
  {
    hide Who, CostOf, Plus, AddValue, ValueOf, Sum;
    var before := AssignedBefore(who, n);
    if Who(who, n) != [] {
      SumAppended(calls, before, n);
      ValueAdds(Sum(calls, before), CostOf(calls[n]));
    } else {
      assert before + [] == before;
      ValueMoves(ValueOf(Sum(calls, before)), NO_VALUE, NO_VALUE, NO_VALUE);
    }
  }
}
