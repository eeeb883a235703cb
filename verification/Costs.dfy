/**
 What a list of model calls adds up to: token counts, money, and how much of it
 is unknown. Costs form a commutative sum, so a set of calls costs the same in
 whatever order, and however it is split, it is added up.
 */
module Costs {

  datatype Option<T> = None | Some(value: T)

  datatype Usage = Usage(input: nat, output: nat, cacheRead: nat, cacheWrite: nat)

  const NO_USAGE := Usage(0, 0, 0, 0)

  function Add(a: Usage, b: Usage): Usage {
    Usage(a.input + b.input, a.output + b.output, a.cacheRead + b.cacheRead, a.cacheWrite + b.cacheWrite)
  }

  function Tokens(u: Usage): nat {
    u.input + u.output + u.cacheRead + u.cacheWrite
  }

  /** The one place a call is counted: the talk that contains it, or its stream's calls that no talk contains. */
  datatype Owner = Talk(id: string) | Loose(stream: string)

  /** A call as it is counted; usage is None where it is unknown, and money is None where the call is not priced. */
  datatype Call = Call(id: string, owner: Owner, order: nat, at: int,
                       usage: Option<Usage>, outputUnknown: bool, money: Option<real>)

  datatype Cost = Cost(calls: nat, unknown: nat, outputUnknown: nat, usage: Usage,
                       unpriced: nat, money: Option<real>, from: int, until: nat)

  const NOTHING := Cost(0, 0, 0, NO_USAGE, 0, None, 0, 0)

  /** The earlier of two times, where 0 is no time. */
  function Earlier(a: int, b: int): int {
    if a == 0 || (b != 0 && b < a) then b else a
  }

  function PlusMoney(a: Option<real>, b: Option<real>): Option<real> {
    if a.None? then b else if b.None? then a else Some(a.value + b.value)
  }

  function Plus(a: Cost, b: Cost): Cost {
    Cost(a.calls + b.calls, a.unknown + b.unknown, a.outputUnknown + b.outputUnknown, Add(a.usage, b.usage),
         a.unpriced + b.unpriced, PlusMoney(a.money, b.money), Earlier(a.from, b.from),
         if a.until > b.until then a.until else b.until)
  }

  /** What one call costs. */
  function CostOf(c: Call): Cost {
    var until: nat := if c.at > 0 then c.at else 0;
    if c.usage.None? then Cost(1, 1, 0, NO_USAGE, 0, None, c.at, until)
    else Cost(1, 0, if c.outputUnknown then 1 else 0, c.usage.value,
              if c.money.None? then 1 else 0, c.money, c.at, until)
  }

  predicate Indexes(calls: seq<Call>, idx: seq<nat>) {
    forall k :: 0 <= k < |idx| ==> idx[k] < |calls|
  }

  /** What the calls at these indexes cost together. */
  function Sum(calls: seq<Call>, idx: seq<nat>): Cost
    requires Indexes(calls, idx)
  {
    if idx == [] then NOTHING else Plus(Sum(calls, idx[..|idx|-1]), CostOf(calls[idx[|idx|-1]]))
  }

  lemma PlusMoves(a: Cost, b: Cost, c: Cost)
    ensures Plus(a, b) == Plus(b, a)
    ensures Plus(Plus(a, b), c) == Plus(a, Plus(b, c))
    ensures Plus(a, NOTHING) == a
  {
  }

  lemma {:induction false} SumOfBoth(calls: seq<Call>, x: seq<nat>, y: seq<nat>)
    requires Indexes(calls, x) && Indexes(calls, y)
    ensures Indexes(calls, x + y)
    ensures Sum(calls, x + y) == Plus(Sum(calls, x), Sum(calls, y))
  {
    if y == [] {
      assert x + y == x;
      PlusMoves(Sum(calls, x), NOTHING, NOTHING);
    } else {
      var n := |y| - 1;
      assert (x + y)[..|x + y| - 1] == x + y[..n];
      SumOfBoth(calls, x, y[..n]);
      PlusMoves(Sum(calls, x), Sum(calls, y[..n]), CostOf(calls[y[n]]));
    }
  }

  /** However the calls are ordered, they add up to the same cost. */
  lemma {:induction false} SumIgnoresOrder(calls: seq<Call>, x: seq<nat>, y: seq<nat>)
    requires Indexes(calls, x) && Indexes(calls, y)
    requires multiset(x) == multiset(y)
    ensures Sum(calls, x) == Sum(calls, y)
    decreases |x|
  {
    assert |multiset(x)| == |x| && |multiset(y)| == |y|;
    if x != [] {
      var n := |x| - 1;
      var j := WithoutLast(x, y);
      SumIgnoresOrder(calls, x[..n], y[..j] + y[j+1..]);
      SumTakenOut(calls, y, j);
    }
  }

  lemma WithoutLast(x: seq<nat>, y: seq<nat>) returns (j: nat)
    requires x != [] && multiset(x) == multiset(y)
    ensures j < |y| && y[j] == x[|x|-1] && multiset(x[..|x|-1]) == multiset(y[..j] + y[j+1..])
  {
    var n := |x| - 1;
    assert x[n] in multiset(y);
    j :| 0 <= j < |y| && y[j] == x[n];
    assert x == x[..n] + [x[n]];
    assert y == y[..j] + [y[j]] + y[j+1..];
    assert multiset(x) == multiset(x[..n]) + multiset{x[n]};
    assert multiset(y) == multiset(y[..j] + y[j+1..]) + multiset{y[j]};
    assert multiset(x[..n]) == multiset(x) - multiset{x[n]};
    assert multiset(y[..j] + y[j+1..]) == multiset(y) - multiset{y[j]};
  }

  lemma SumTakenOut(calls: seq<Call>, y: seq<nat>, j: nat)
    requires Indexes(calls, y) && j < |y|
    ensures Indexes(calls, y[..j] + y[j+1..])
    ensures Sum(calls, y) == Plus(Sum(calls, y[..j] + y[j+1..]), CostOf(calls[y[j]]))
  {
    assert y == (y[..j] + [y[j]]) + y[j+1..];
    SumOfBoth(calls, y[..j], y[j+1..]);
    SumOfBoth(calls, y[..j] + [y[j]], y[j+1..]);
    SumOfBoth(calls, y[..j], [y[j]]);
    assert [y[j]][..0] == [];
    assert Sum(calls, [y[j]]) == Plus(NOTHING, CostOf(calls[y[j]]));
    Swap(Sum(calls, y[..j]), Sum(calls, y[j+1..]), CostOf(calls[y[j]]));
  }

  lemma Swap(a: Cost, b: Cost, c: Cost)
    ensures Plus(Plus(a, b), c) == Plus(Plus(a, Plus(NOTHING, c)), b)
  {
  }

  /** Adds up the calls at these indexes as the ledger does, one after another. */
  method SumUp(calls: seq<Call>, idx: seq<nat>) returns (c: Cost)
    requires Indexes(calls, idx)
    ensures c == Sum(calls, idx)
  {
    var n, unknown, outputUnknown, usage, unpriced := 0, 0, 0, NO_USAGE, 0;
    var money: Option<real> := None;
    var from: int := 0;
    var until: nat := 0;
    for k := 0 to |idx|
      invariant Cost(n, unknown, outputUnknown, usage, unpriced, money, from, until) == Sum(calls, idx[..k])
    {
      assert idx[..k+1][..k] == idx[..k];
      var call := calls[idx[k]];
      n := n + 1;
      if call.at != 0 && (from == 0 || call.at < from) { from := call.at; }
      if call.at != 0 && call.at > until { until := call.at; }
      if call.usage.None? {
        unknown := unknown + 1;
      } else {
        if call.outputUnknown { outputUnknown := outputUnknown + 1; }
        usage := Add(usage, call.usage.value);
        if call.money.None? {
          unpriced := unpriced + 1;
        } else {
          money := Some((if money.None? then 0.0 else money.value) + call.money.value);
        }
      }
    }
    assert idx[..|idx|] == idx;
    c := Cost(n, unknown, outputUnknown, usage, unpriced, money, from, until);
  }

  // ---------------------------------------------------------------------
  // What a cost says.
  // ---------------------------------------------------------------------

  /** What of these calls has a property, counted. */
  ghost function HowMany(calls: seq<Call>, idx: seq<nat>, has: Call -> bool): nat
    requires Indexes(calls, idx)
  {
    if idx == [] then 0
    else HowMany(calls, idx[..|idx|-1], has) + if has(calls[idx[|idx|-1]]) then 1 else 0
  }

  /** Every call is counted, and so are those whose usage, whose output and whose price are not known. */
  lemma {:induction false} SumCounts(calls: seq<Call>, idx: seq<nat>)
    requires Indexes(calls, idx)
    ensures Sum(calls, idx).calls == |idx|
    ensures Sum(calls, idx).unknown == HowMany(calls, idx, (c: Call) => c.usage == None)
    ensures Sum(calls, idx).outputUnknown == HowMany(calls, idx, (c: Call) => c.usage != None && c.outputUnknown)
    ensures Sum(calls, idx).unpriced == HowMany(calls, idx, (c: Call) => c.usage != None && c.money == None)
  {
    if idx != [] { SumCounts(calls, idx[..|idx|-1]); }
  }

  /** One token type of what a call used. */
  ghost function Amounts(calls: seq<Call>, idx: seq<nat>, part: Usage -> nat): nat
    requires Indexes(calls, idx)
  {
    if idx == [] then 0
    else
      var c := calls[idx[|idx|-1]];
      Amounts(calls, idx[..|idx|-1], part) + if c.usage == None then 0 else part(c.usage.value)
  }

  /** Each token type is added up on its own, and money where some call was priced. */
  lemma {:induction false} SumAmounts(calls: seq<Call>, idx: seq<nat>)
    requires Indexes(calls, idx)
    ensures Sum(calls, idx).usage ==
              Usage(Amounts(calls, idx, (u: Usage) => u.input), Amounts(calls, idx, (u: Usage) => u.output),
                                           Amounts(calls, idx, (u: Usage) => u.cacheRead),
                                           Amounts(calls, idx, (u: Usage) => u.cacheWrite))
    ensures Sum(calls, idx).money == None <==>
              forall k :: 0 <= k < |idx| ==> calls[idx[k]].usage == None || calls[idx[k]].money == None
    ensures Sum(calls, idx).money != None ==> Sum(calls, idx).money == Some(MoneyOf(calls, idx))
  {
    if idx != [] {
      var n := |idx| - 1;
      SumAmounts(calls, idx[..n]);
      assert forall k :: 0 <= k < n ==> idx[..n][k] == idx[k];
      if Sum(calls, idx[..n]).money == None { NoMoney(calls, idx[..n]); }
    }
  }

  /** The tokens of a sum are those of its calls, of all four types. */
  lemma {:induction false} TokensAddUp(calls: seq<Call>, idx: seq<nat>)
    requires Indexes(calls, idx)
    ensures Tokens(Sum(calls, idx).usage) ==
            Amounts(calls, idx, (u: Usage) => u.input + u.output + u.cacheRead + u.cacheWrite)
  {
    if idx != [] { TokensAddUp(calls, idx[..|idx|-1]); }
  }

  ghost function MoneyOf(calls: seq<Call>, idx: seq<nat>): real
    requires Indexes(calls, idx)
  {
    if idx == [] then 0.0
    else
      var c := calls[idx[|idx|-1]];
      MoneyOf(calls, idx[..|idx|-1]) + if c.usage == None || c.money == None then 0.0 else c.money.value
  }

  lemma {:induction false} NoMoney(calls: seq<Call>, idx: seq<nat>)
    requires Indexes(calls, idx) && forall k :: 0 <= k < |idx| ==>
               calls[idx[k]].usage == None || calls[idx[k]].money == None
    ensures MoneyOf(calls, idx) == 0.0
  {
    if idx != [] { NoMoney(calls, idx[..|idx|-1]); }
  }

  /** A cost runs from the earliest to the latest of the times its calls were made at; times of 0 say nothing. */
  lemma {:induction false} SumTimes(calls: seq<Call>, idx: seq<nat>)
    requires Indexes(calls, idx)
    ensures Sum(calls, idx).from == 0 <==> forall k :: 0 <= k < |idx| ==> calls[idx[k]].at == 0
    ensures forall k :: 0 <= k < |idx| && calls[idx[k]].at != 0 ==>
              Sum(calls, idx).from <= calls[idx[k]].at <= Sum(calls, idx).until
    ensures Sum(calls, idx).from != 0 ==> exists k :: 0 <= k < |idx| && calls[idx[k]].at == Sum(calls, idx).from
    ensures Sum(calls, idx).until != 0 ==> exists k :: 0 <= k < |idx| && calls[idx[k]].at == Sum(calls, idx).until
  {
    if idx != [] {
      var n := |idx| - 1;
      SumTimes(calls, idx[..n]);
      assert forall k :: 0 <= k < n ==> idx[..n][k] == idx[k];
      assert idx[n] == idx[|idx|-1];
    }
  }
}
