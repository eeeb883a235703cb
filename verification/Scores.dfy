/** The scores of a run, taken from exact shares: each is a share of a whole. */
module Scores {
  import opened Costs
  import opened Ledger
  import opened Starters
  import opened LedgerCompute
  import opened Serving
  import opened Shares
  import opened CloseCost
  import opened WorkLabels

  /** The same amount as money and as tokens. */
  datatype Exact = Exact(money: real, tokens: real)

  function Both(a: Exact, b: Exact): Exact {
    Exact(a.money + b.money, a.tokens + b.tokens)
  }

  predicate AtMost(a: Exact, b: Exact) {
    a.money <= b.money && a.tokens <= b.tokens
  }

  const NO_EXACT := Exact(0.0, 0.0)

  /** A target's exact share of a call: an equal fraction for each target the call served. */
  function ExactShare(c: Call, k: nat): Exact
    requires k > 0
  {
    if c.usage.None? then NO_EXACT
    else Exact(if c.money.None? then 0.0 else c.money.value / k as real, Tokens(c.usage.value) as real / k as real)
  }

  /** How many ways a call is split; a call with no targets is not split. */
  function Ways(who: map<nat, seq<string>>, i: nat): nat
    ensures Ways(who, i) > 0
  {
    if |Who(who, i)| == 0 then 1 else |Who(who, i)|
  }

  function ExactOf(calls: seq<Call>, who: map<nat, seq<string>>, idx: seq<nat>): Exact
    requires Indexes(calls, idx)
  {
    if idx == [] then NO_EXACT
    else
      var n := |idx| - 1;
      Both(ExactOf(calls, who, idx[..n]), ExactShare(calls[idx[n]], Ways(who, idx[n])))
  }

  /** No call was priced below nothing. */
  ghost predicate Priced(calls: seq<Call>) {
    forall i :: 0 <= i < |calls| && calls[i].money.Some? ==> calls[i].money.value >= 0.0
  }

  lemma ShareIsPositive(c: Call, k: nat)
    requires k > 0 && (c.money.Some? ==> c.money.value >= 0.0)
    ensures AtMost(NO_EXACT, ExactShare(c, k))
  {
    if c.usage.Some? {
      Divided(Tokens(c.usage.value) as real, k as real);
      if c.money.Some? { Divided(c.money.value, k as real); }
    }
  }

  lemma Divided(x: real, k: real)
    requires x >= 0.0 && k > 0.0
    ensures x / k >= 0.0
  {
  }

  /** What a target brings to the scores. */
  datatype TargetAmounts = TargetAmounts(cost: Exact, avoidable: Exact, unreviewed: Exact)

  ghost predicate Within(a: TargetAmounts) {
    && AtMost(NO_EXACT, a.avoidable) && AtMost(NO_EXACT, a.unreviewed)
    && AtMost(Both(a.avoidable, a.unreviewed), a.cost)
  }

  lemma WithinGrows(a: TargetAmounts, x: Exact, first: bool, second: bool)
    requires Within(a) && AtMost(NO_EXACT, x) && !(first && second)
    ensures Within(TargetAmounts(Both(a.cost, x), if first then Both(a.avoidable, x) else a.avoidable,
                                 if second then Both(a.unreviewed, x) else a.unreviewed))
  {
  }

  lemma ItemsIndexes(r: Reading, items: seq<Item>)
    requires Known(r, items)
    ensures Indexes(r.l.calls, CallsOfItems(items))
  {
  }

  lemma NoItems(r: Reading, target: string)
    ensures CallsOfItems([]) == [] && Chosen(r, target, [], 0) == [] && Chosen(r, target, [], 1) == []
    ensures Within(TargetAmounts(NO_EXACT, NO_EXACT, NO_EXACT))
  {
  }

  /** What was avoidable and what was not reviewed are, together, no more than the whole. */
  lemma {:induction false} ListsWithin(r: Reading, who: map<nat, seq<string>>, target: string, items: seq<Item>)
    requires Known(r, items) && Priced(r.l.calls)
    ensures Indexes(r.l.calls, CallsOfItems(items))
    ensures Within(TargetAmounts(ExactOf(r.l.calls, who, CallsOfItems(items)),
                                 ExactOf(r.l.calls, who, Chosen(r, target, items, 0)),
                                 ExactOf(r.l.calls, who, Chosen(r, target, items, 1))))
  {
    hide LabelFor, ExactShare, Ways, OnList, Chosen, ExactOf, Within, AtMost, Both, CallsOfItems;
    ItemsIndexes(r, items);
    if items == [] {
      NoItems(r, target);
      assert ExactOf(r.l.calls, who, []) == NO_EXACT by { NothingExact(r.l.calls, who); }
    } else {
      var n := |items| - 1;
      var i := items[n].call;
      ListsWithin(r, who, target, items[..n]);
      ShareIsPositive(r.l.calls[i], Ways(who, i));
      ItemsNext(items);
      ExactNext(r.l.calls, who, CallsOfItems(items[..n]), i);
      ChosenNext(r, who, target, items, 0);
      ChosenNext(r, who, target, items, 1);
      var given := LabelFor(r, target, items[n].talk, i);
      NotBoth(given);
      WithinGrows(TargetAmounts(ExactOf(r.l.calls, who, CallsOfItems(items[..n])),
                                ExactOf(r.l.calls, who, Chosen(r, target, items[..n], 0)),
                                ExactOf(r.l.calls, who, Chosen(r, target, items[..n], 1))),
                  ExactShare(r.l.calls[i], Ways(who, i)), OnList(given, 0), OnList(given, 1));
    }
  }

  lemma NothingExact(calls: seq<Call>, who: map<nat, seq<string>>)
    ensures ExactOf(calls, who, []) == NO_EXACT
  {
  }

  lemma ItemsNext(items: seq<Item>)
    requires items != []
    ensures CallsOfItems(items) == CallsOfItems(items[..|items|-1]) + [items[|items|-1].call]
  {
  }

  lemma NotBoth(given: (Work, Cause))
    ensures !(OnList(given, 0) && OnList(given, 1))
  {
  }

  lemma ExactNext(calls: seq<Call>, who: map<nat, seq<string>>, idx: seq<nat>, i: nat)
    requires Indexes(calls, idx) && i < |calls|
    ensures Indexes(calls, idx + [i])
    ensures ExactOf(calls, who, idx + [i]) == Both(ExactOf(calls, who, idx), ExactShare(calls[i], Ways(who, i)))
  {
    assert (idx + [i])[..|idx|] == idx;
  }

  lemma {:induction false} ChosenNext(r: Reading, who: map<nat, seq<string>>, target: string, items: seq<Item>,
                                      list: nat)
    requires Known(r, items) && items != []
    ensures ExactOf(r.l.calls, who, Chosen(r, target, items, list)) ==
            if OnList(LabelFor(r, target, items[|items|-1].talk, items[|items|-1].call), list)
            then Both(ExactOf(r.l.calls, who, Chosen(r, target, items[..|items|-1], list)),
                      ExactShare(r.l.calls[items[|items|-1].call], Ways(who, items[|items|-1].call)))
            else ExactOf(r.l.calls, who, Chosen(r, target, items[..|items|-1], list))
  {
    hide LabelFor, OnList, ExactShare, Ways;
    var n := |items| - 1;
    var before := Chosen(r, target, items[..n], list);
    ExactNext(r.l.calls, who, before, items[n].call);
    assert before + [] == before;
  }

  datatype Level = Achieved | Partly | NotAchieved | CannotVerify | Unjudged

  /**
   What a judgement says of a target: its level, and of its criteria how many were met and how many
   claims contradicted.
   */
  datatype Verdict = Verdict(level: Level, criteria: Option<(nat, nat)>, contradicted: nat)

  /** A target's score: a contradicted claim counts as one more criterion not met. */
  function RecordScore(v: Verdict): Option<real> {
    match v.level
    case Achieved => Some(1.0)
    case NotAchieved => Some(0.0)
    case Partly =>
      if v.criteria.Some? && v.criteria.value.1 > 0
      then Some(v.criteria.value.0 as real / (v.criteria.value.1 + v.contradicted) as real) else Some(0.5)
    case _ => None
  }

  lemma ScoreIsShare(v: Verdict)
    requires v.criteria.Some? ==> v.criteria.value.0 <= v.criteria.value.1
    ensures RecordScore(v).Some? ==> 0.0 <= RecordScore(v).value <= 1.0
  {
    if v.level == Partly && v.criteria.Some? && v.criteria.value.1 > 0 {
      ShareOfWhole(v.criteria.value.0 as real, (v.criteria.value.1 + v.contradicted) as real);
    }
  }

  lemma ShareOfWhole(a: real, b: real)
    requires 0.0 <= a <= b && b > 0.0
    ensures 0.0 <= a / b <= 1.0
  {
  }

  datatype Score = Score(judged: nat, achievement: Option<real>, delivered: Option<real>, reviewed: Option<real>,
                         efficiency: Option<real>)

  predicate IsShare(x: Option<real>) {
    x.Some? ==> 0.0 <= x.value <= 1.0
  }

  /** What the scores are taken from. */
  datatype Sums = Sums(value: real, judged: nat, cost: Exact, delivered: Exact, avoidable: Exact, unreviewed: Exact,
                       unpriced: bool)

  const NO_SUMS := Sums(0.0, 0, NO_EXACT, NO_EXACT, NO_EXACT, NO_EXACT, false)

  /** An amount in the unit the run is scored in. */
  function InUnit(s: Sums, x: Exact): real {
    if s.unpriced then x.tokens else x.money
  }

  /** The part of a whole, where there is a whole. */
  function PartOfWhole(part: real, whole: real): Option<real> {
    if whole > 0.0 then Some(part / whole) else None
  }

  /**
   Of what was judged, what was achieved; of the cost, what went into achieved targets,
   and what was reviewed; and of what was reviewed, what was not avoidable.
   */
  function ScoreOf(s: Sums, labeled: bool): Score {
    var total, reviewed := InUnit(s, s.cost), InUnit(s, s.cost) - InUnit(s, s.unreviewed);
    Score(s.judged,
          PartOfWhole(s.value, s.judged as real),
          PartOfWhole(InUnit(s, s.delivered), total),
          if labeled then PartOfWhole(reviewed, total) else None,
          if labeled && total > 0.0 && reviewed > 0.0 then Some(1.0 - InUnit(s, s.avoidable) / reviewed) else None)
  }

  /** A target as it is scored. */
  datatype Outcome = Outcome(target: Target, verdict: Verdict, standing: bool, amount: Amount)

  predicate HasUnpriced(a: Amount) {
    a.unpriced > 0 || a.unknown > 0 || (a.money.None? && Tokens(a.usage) > 0)
  }

  predicate Judged(o: Outcome) {
    o.standing && RecordScore(o.verdict).Some?
  }

  /** The sums with one more target. */
  ghost function WithTarget(s: Sums, o: Outcome, a: TargetAmounts): Sums {
    Sums(s.value + (if Judged(o) then RecordScore(o.verdict).value else 0.0), s.judged + (if Judged(o) then 1 else 0),
         Both(s.cost, a.cost), if o.verdict.level == Achieved then Both(s.delivered, a.cost) else s.delivered,
         Both(s.avoidable, a.avoidable), Both(s.unreviewed, a.unreviewed), s.unpriced || HasUnpriced(o.amount))
  }

  /** Sums in order: what was achieved is no more than what was judged, and every part of the cost fits in it. */
  ghost predicate SumsFit(s: Sums) {
    && 0.0 <= s.value <= s.judged as real
    && Within(TargetAmounts(s.cost, s.avoidable, s.unreviewed))
    && AtMost(NO_EXACT, s.delivered) && AtMost(s.delivered, s.cost)
  }

  lemma NoSumsFit()
    ensures SumsFit(NO_SUMS)
  {
  }

  lemma AddedFit(s: Sums, o: Outcome, a: TargetAmounts)
    requires SumsFit(s) && Within(a)
    requires o.verdict.criteria.Some? ==> o.verdict.criteria.value.0 <= o.verdict.criteria.value.1
    ensures SumsFit(WithTarget(s, o, a))
  {
    hide HasUnpriced, RecordScore;
    ScoreIsShare(o.verdict);
  }

  lemma PartIsShare(part: real, whole: real)
    requires 0.0 <= part <= whole
    ensures IsShare(PartOfWhole(part, whole))
  {
    if whole > 0.0 { ShareOfWhole(part, whole); }
  }

  /** Sums in order give scores from 0 to 1. */
  lemma ScoresAreShares(s: Sums, labeled: bool)
    requires SumsFit(s)
    ensures var x := ScoreOf(s, labeled);
            IsShare(x.achievement) && IsShare(x.delivered) && IsShare(x.reviewed) && IsShare(x.efficiency)
  {
    hide PartOfWhole;
    var total, unread, spare := InUnit(s, s.cost), InUnit(s, s.unreviewed), InUnit(s, s.avoidable);
    PartIsShare(s.value, s.judged as real);
    PartIsShare(InUnit(s, s.delivered), total);
    PartIsShare(total - unread, total);
    if total - unread > 0.0 { ShareOfWhole(spare, total - unread); }
  }

  /** Gathers the targets' outcomes into the run's scores. */
  class ScoreSum {
    var value: real
    var judged: nat
    var cost: Exact
    var delivered: Exact
    var avoidable: Exact
    var unreviewed: Exact
    var unpriced: bool

    ghost predicate Valid()
      reads this
    {
      SumsFit(State())
    }

    ghost function State(): Sums
      reads this
    {
      Sums(value, judged, cost, delivered, avoidable, unreviewed, unpriced)
    }

    constructor ()
      ensures Valid() && State() == NO_SUMS
    {
      hide SumsFit;
      NoSumsFit();
      value, judged, unpriced := 0.0, 0, false;
      cost, delivered, avoidable, unreviewed := NO_EXACT, NO_EXACT, NO_EXACT, NO_EXACT;
    }

    /** Adds one target; a cancelled or replaced one counts in the costs, not in the achievement. */
    method AddTarget(o: Outcome, a: TargetAmounts)
      requires Valid() && Within(a)
      requires o.verdict.criteria.Some? ==> o.verdict.criteria.value.0 <= o.verdict.criteria.value.1
      modifies this
      ensures Valid() && State() == WithTarget(old(State()), o, a)
    {
      hide SumsFit, Within, RecordScore, HasUnpriced;
      AddedFit(State(), o, a);
      var v := o.verdict;
      if o.standing && RecordScore(v).Some? {
        value, judged := value + RecordScore(v).value, judged + 1;
      }
      if HasUnpriced(o.amount) { unpriced := true; }
      cost := Both(cost, a.cost);
      if v.level == Achieved { delivered := Both(delivered, a.cost); }
      avoidable := Both(avoidable, a.avoidable);
      unreviewed := Both(unreviewed, a.unreviewed);
    }

    /** The run's scores, in money when every call was priced and in tokens otherwise. */
    method Scored(labeled: bool) returns (s: Score)
      requires Valid()
      ensures s == ScoreOf(State(), labeled)
      ensures IsShare(s.achievement) && IsShare(s.delivered) && IsShare(s.reviewed) && IsShare(s.efficiency)
    {
      ScoresAreShares(State(), labeled);
      s := Score(judged, None, None, None, None);
      var total := if unpriced then cost.tokens else cost.money;
      if judged > 0 {
        s := s.(achievement := Some(value / judged as real));
      }
      if total > 0.0 {
        s := s.(delivered := Some((if unpriced then delivered.tokens else delivered.money) / total));
        if labeled {
          var reviewed := total - if unpriced then unreviewed.tokens else unreviewed.money;
          s := s.(reviewed := Some(reviewed / total));
          if reviewed > 0.0 {
            s := s.(efficiency := Some(1.0 - (if unpriced then avoidable.tokens else avoidable.money) / reviewed));
          }
        }
      }
    }
  }

  function ItemsIn(tk: string, idx: seq<nat>): seq<Item> {
    seq(|idx|, j requires 0 <= j < |idx| => Item(tk, idx[j]))
  }

  /** A target's calls as items, talk by talk. */
  function ItemsOf(l: LedgerOf, who: map<nat, seq<string>>, t: string, tks: seq<string>): seq<Item> {
    if tks == [] then []
    else
      var tk := tks[|tks|-1];
      ItemsOf(l, who, t, tks[..|tks|-1]) + ItemsIn(tk, Kept(who, t, CallsOf(l, tk)))
  }

  lemma {:induction false} ItemsAreMine(l: LedgerOf, who: map<nat, seq<string>>, t: string, tks: seq<string>)
    ensures CallsOfItems(ItemsOf(l, who, t, tks)) == MineOf(l, who, t, tks)
  {
    hide CallsOf, Kept;
    if tks != [] {
      ItemsAreMine(l, who, t, tks[..|tks|-1]);
    }
  }

  /**
   A target's groups hold each of its calls in one group, and its avoidable and unreviewed amounts fit
   in its cost.
   */
  lemma {:induction false} TargetWork(r: Reading, who: map<nat, seq<string>>, t: Target, groups: seq<Group>,
                                      index: map<Key, nat>)
    requires forall tk, i :: i in CallsOf(r.l, tk) ==> i < |r.l.calls|
    requires Known(r, ItemsOf(r.l, who, t.id, t.talks)) && Priced(r.l.calls)
    requires Grouped(r, who, t.id, ItemsOf(r.l, who, t.id, t.talks), groups, index)
    ensures multiset(AllGroups(groups)) == multiset(MineOf(r.l, who, t.id, t.talks))
    ensures Indexes(r.l.calls, MineOf(r.l, who, t.id, t.talks))
    ensures Within(TargetAmounts(ExactOf(r.l.calls, who, MineOf(r.l, who, t.id, t.talks)),
                                 ExactOf(r.l.calls, who, Chosen(r, t.id, ItemsOf(r.l, who, t.id, t.talks), 0)),
                                 ExactOf(r.l.calls, who, Chosen(r, t.id, ItemsOf(r.l, who, t.id, t.talks), 1))))
  {
    hide Grouped, Chosen, ExactOf, MineOf, ItemsOf, CallsOfItems, AllGroups, Priced, CallsOf, Known;
    ItemsAreMine(r.l, who, t.id, t.talks);
    GroupsPartition(r, who, t.id, ItemsOf(r.l, who, t.id, t.talks), groups, index);
    ListsWithin(r, who, t.id, ItemsOf(r.l, who, t.id, t.talks));
  }

  // ---------------------------------------------------------------------
  // A run's scores.
  // ---------------------------------------------------------------------

  ghost predicate CallsKnown(l: LedgerOf) {
    forall tk, i :: i in CallsOf(l, tk) ==> i < |l.calls|
  }

  lemma MineKnown(r: Reading, who: map<nat, seq<string>>, t: string, tks: seq<string>)
    requires CallsKnown(r.l)
    ensures Known(r, ItemsOf(r.l, who, t, tks)) && Indexes(r.l.calls, MineOf(r.l, who, t, tks))
  {
    hide CallsOf, MineOf;
    var mine := MineOf(r.l, who, t, tks);
    forall k | 0 <= k < |mine| ensures mine[k] < |r.l.calls| {
      assert mine[k] in mine;
    }
    ItemsAreMine(r.l, who, t, tks);
    var items := ItemsOf(r.l, who, t, tks);
    assert forall k :: 0 <= k < |items| ==> CallsOfItems(items)[k] == items[k].call;
  }

  /** What a target brings: what it cost, and of that what was avoidable and what was not reviewed. */
  ghost function AmountsOf(r: Reading, who: map<nat, seq<string>>, t: Target): TargetAmounts
    requires CallsKnown(r.l)
  {
    MineKnown(r, who, t.id, t.talks);
    var items := ItemsOf(r.l, who, t.id, t.talks);
    TargetAmounts(ExactOf(r.l.calls, who, MineOf(r.l, who, t.id, t.talks)),
                  ExactOf(r.l.calls, who, Chosen(r, t.id, items, 0)),
                  ExactOf(r.l.calls, who, Chosen(r, t.id, items, 1)))
  }

  /** The sums over these targets. */
  ghost function SumsOf(r: Reading, who: map<nat, seq<string>>, os: seq<Outcome>): Sums
    requires CallsKnown(r.l)
  {
    if os == [] then NO_SUMS
    else
      var o := os[|os|-1];
      WithTarget(SumsOf(r, who, os[..|os|-1]), o, AmountsOf(r, who, o.target))
  }

  predicate VerdictsFit(os: seq<Outcome>) {
    forall k :: 0 <= k < |os| && os[k].verdict.criteria.Some? ==>
      os[k].verdict.criteria.value.0 <= os[k].verdict.criteria.value.1
  }

  /** Adds up exact shares of these calls. */
  method AddExact(calls: seq<Call>, who: map<nat, seq<string>>, idx: seq<nat>) returns (x: Exact)
    requires Indexes(calls, idx)
    ensures x == ExactOf(calls, who, idx)
  {
    hide ExactShare, Ways;
    x := NO_EXACT;
    for n := 0 to |idx|
      invariant x == ExactOf(calls, who, idx[..n])
    {
      assert idx[..n+1] == idx[..n] + [idx[n]];
      ExactNext(calls, who, idx[..n], idx[n]);
      x := Both(x, ExactShare(calls[idx[n]], Ways(who, idx[n])));
    }
    assert idx[..|idx|] == idx;
  }

  /** These groups hold each of the target's calls once, and no other. */
  ghost predicate OwnGroups(l: LedgerOf, who: map<nat, seq<string>>, t: Target, groups: seq<Group>) {
    multiset(AllGroups(groups)) == multiset(MineOf(l, who, t.id, t.talks))
  }

  /** Labels every target's calls and takes the run's scores. */
  method ScoreRun(r: Reading, who: map<nat, seq<string>>, os: seq<Outcome>, labeled: bool)
    returns (score: Score, groups: seq<seq<Group>>)
    requires CallsKnown(r.l) && Priced(r.l.calls) && VerdictsFit(os)
    ensures score == ScoreOf(SumsOf(r, who, os), labeled)
    ensures IsShare(score.achievement) && IsShare(score.delivered) && IsShare(score.reviewed)
    ensures IsShare(score.efficiency)
    ensures |groups| == |os|
    ensures forall k :: 0 <= k < |os| ==> OwnGroups(r.l, who, os[k].target, groups[k])
  {
    hide Priced, RecordScore, Within, HasUnpriced, CallsKnown, OwnGroups, SumsOf, AmountsOf, WithTarget, ScoreOf,
      SumsFit,
      IsShare;
    NothingSummed(r, who);
    var sum := new ScoreSum();
    groups := [];
    for k := 0 to |os|
      invariant sum.Valid() && |groups| == k && fresh(sum)
      invariant sum.State() == SumsOf(r, who, os[..k])
      invariant forall j :: 0 <= j < k ==> OwnGroups(r.l, who, os[j].target, groups[j])
    {
      var o := os[k];
      SumsNext(r, who, os, k);
      var a, labels := WorkOf(r, who, o.target);
      groups := groups + [labels];
      sum.AddTarget(o, a);
    }
    assert os[..|os|] == os;
    score := sum.Scored(labeled);
  }

  lemma SumsNext(r: Reading, who: map<nat, seq<string>>, os: seq<Outcome>, k: nat)
    requires CallsKnown(r.l) && k < |os|
    ensures SumsOf(r, who, os[..k+1]) == WithTarget(SumsOf(r, who, os[..k]), os[k], AmountsOf(r, who, os[k].target))
  {
    hide AmountsOf, WithTarget, CallsKnown;
    assert os[..k+1][..k] == os[..k];
  }

  /** One target's groups and amounts. */
  method WorkOf(r: Reading, who: map<nat, seq<string>>, t: Target) returns (a: TargetAmounts, groups: seq<Group>)
    requires CallsKnown(r.l) && Priced(r.l.calls)
    ensures a == AmountsOf(r, who, t) && Within(a)
    ensures OwnGroups(r.l, who, t, groups)
  {
    hide Grouped, Chosen, ExactOf, AllGroups, Priced, CallsOf, Known, Within, AtMost, Kept;
    MineKnown(r, who, t.id, t.talks);
    var items := Items(r.l, who, t.id, t.talks);
    ghost var index;
    var avoidable, unreviewed, bySubtasks, unknown;
    groups, index, avoidable, unreviewed, bySubtasks, unknown := LabelCalls(r, who, t.id, items);
    TargetWork(r, who, t, groups, index);
    ItemsAreMine(r.l, who, t.id, t.talks);
    var cost := AddExact(r.l.calls, who, CallsOfItems(items));
    var spare := AddExact(r.l.calls, who, avoidable);
    var unread := AddExact(r.l.calls, who, unreviewed);
    a := TargetAmounts(cost, spare, unread);
  }

  /** A target's calls, gathered talk by talk. */
  method Items(l: LedgerOf, who: map<nat, seq<string>>, t: string, tks: seq<string>) returns (items: seq<Item>)
    ensures items == ItemsOf(l, who, t, tks)
  {
    hide CallsOf, Who, Kept;
    items := [];
    for n := 0 to |tks|
      invariant items == ItemsOf(l, who, t, tks[..n])
    {
      assert tks[..n+1][..n] == tks[..n];
      var idx := CallsOf(l, tks[n]);
      ghost var before := items;
      assert idx[..0] == [] && Kept(who, t, []) == [] by { NothingMine(l, who, t, []); }
      for k := 0 to |idx|
        invariant items == before + ItemsIn(tks[n], Kept(who, t, idx[..k]))
      {
        KeptNext(who, t, idx, k);
        if t in Who(who, idx[k]) { items := items + [Item(tks[n], idx[k])]; }
      }
      assert idx[..|idx|] == idx;
    }
    assert tks[..|tks|] == tks;
  }

  // ---------------------------------------------------------------------
  // What the scores measure.
  // ---------------------------------------------------------------------

  /** The calls with their tokens for money. */
  ghost function InTokens(calls: seq<Call>): (r: seq<Call>)
    ensures |r| == |calls|
    ensures forall i :: 0 <= i < |calls| ==>
              r[i] == calls[i].(money := if calls[i].usage.Some? then Some(Tokens(calls[i].usage.value) as real)
                                else None)
  {
    seq(|calls|, i requires 0 <= i < |calls| =>
      calls[i].(money := if calls[i].usage.Some? then Some(Tokens(calls[i].usage.value) as real) else None))
  }

  /** A target's exact amount is its share of each call, in money, and in tokens taken for money. */
  lemma {:induction false} ExactIsShares(calls: seq<Call>, who: map<nat, seq<string>>, t: string, idx: seq<nat>)
    requires Indexes(calls, idx) && forall k :: 0 <= k < |idx| ==> t in Who(who, idx[k])
    ensures ExactOf(calls, who, idx) == Exact(ValueOf(Sum(SharesFor(calls, who, t), idx)).money,
                                              ValueOf(Sum(SharesFor(InTokens(calls), who, t), idx)).money)
  {
    hide Who, SharesFor, PartUsage, IndexOf;
    if idx != [] {
      var n := |idx| - 1;
      ExactIsShares(calls, who, t, idx[..n]);
      ExactShares(calls[idx[n]], who, t, idx[n]);
      ValueAdds(Sum(SharesFor(calls, who, t), idx[..n]), CostOf(SharesFor(calls, who, t)[idx[n]]));
      ValueAdds(Sum(SharesFor(InTokens(calls), who, t), idx[..n]), CostOf(SharesFor(InTokens(calls), who, t)[idx[n]]));
    }
  }

  lemma ExactShares(c: Call, who: map<nat, seq<string>>, t: string, i: nat)
    requires t in Who(who, i)
    ensures var inTokens := c.(money := if c.usage.Some? then Some(Tokens(c.usage.value) as real) else None);
            ExactShare(c, Ways(who, i)) == Exact(ValueOf(CostOf(ShareOf(c, Who(who, i), t))).money,
                                                 ValueOf(CostOf(ShareOf(inTokens, Who(who, i), t))).money)
  {
    hide PartUsage, IndexOf;
  }

  /** What these calls cost, whole. */
  ghost function Whole(calls: seq<Call>, idx: seq<nat>): Exact
    requires Indexes(calls, idx)
  {
    Exact(ValueOf(Sum(calls, idx)).money, Tokens(Sum(calls, idx).usage) as real)
  }

  lemma {:induction false} WholeInTokens(calls: seq<Call>, idx: seq<nat>)
    requires Indexes(calls, idx)
    ensures ValueOf(Sum(InTokens(calls), idx)).money == Tokens(Sum(calls, idx).usage) as real
  {
    if idx != [] {
      WholeInTokens(calls, idx[..|idx|-1]);
    }
  }

  function TargetsOf(os: seq<Outcome>): (ts: seq<Target>)
    ensures |ts| == |os| && forall k :: 0 <= k < |os| ==> ts[k] == os[k].target
  {
    seq(|os|, k requires 0 <= k < |os| => os[k].target)
  }

  /** What a target's calls cost it is its spread over all calls. */
  lemma OneSpread(r: Reading, talks: seq<Tree>, loose: seq<Tree>, inputs: seq<Input>, who: map<nat, seq<string>>,
                  ts: seq<Target>, k: nat)
    requires Sound(r.l, talks, loose) && DistinctTargets(ts) && WhoRight(r.l, ts, inputs, who) && CallsKnown(r.l)
    requires k < |ts|
    ensures Indexes(r.l.calls, MineOf(r.l, who, ts[k].id, ts[k].talks))
    ensures ExactOf(r.l.calls, who, MineOf(r.l, who, ts[k].id, ts[k].talks)) ==
            Exact(Spread(r.l.calls, who, ts[k].id, |r.l.calls|).money,
                  Spread(InTokens(r.l.calls), who, ts[k].id, |r.l.calls|).money)
  {
    hide Sound, CallsOf, CallsKnown, WhoRight, DistinctTargets, Sum, Spread, Who, MineOf, SharesFor, ExactOf;
    var calls, t := r.l.calls, ts[k];
    MineIsServed(r.l, talks, loose, ts, inputs, who, k);
    MineKnown(r, who, t.id, t.talks);
    var mine := MineOf(r.l, who, t.id, t.talks);
    ListIsSpread(calls, who, t.id, mine);
    ListIsSpread(InTokens(calls), who, t.id, mine);
    MineServed(r.l, who, t.id, t.talks);
    ExactIsShares(calls, who, t.id, mine);
  }

  lemma CostNext(r: Reading, who: map<nat, seq<string>>, os: seq<Outcome>, n: nat)
    requires CallsKnown(r.l) && n < |os|
    ensures Indexes(r.l.calls, MineOf(r.l, who, os[n].target.id, os[n].target.talks))
    ensures SumsOf(r, who, os[..n+1]).cost ==
            Both(SumsOf(r, who, os[..n]).cost, ExactOf(r.l.calls, who,
                                                       MineOf(r.l, who, os[n].target.id, os[n].target.talks)))
  {
    hide CallsKnown, MineOf, ExactOf, Chosen, RecordScore, HasUnpriced, CallsOf;
    MineKnown(r, who, os[n].target.id, os[n].target.talks);
    assert os[..n+1][..n] == os[..n];
  }

  lemma SpreadNext(calls: seq<Call>, who: map<nat, seq<string>>, ids: seq<string>, n: nat)
    requires n < |ids|
    ensures AllSpread(calls, who, ids[..n+1], |calls|) ==
            AddValue(AllSpread(calls, who, ids[..n], |calls|), Spread(calls, who, ids[n], |calls|))
  {
    hide Spread;
    assert ids[..n+1][..n] == ids[..n];
  }

  lemma {:induction false} CostIsSpread(r: Reading, talks: seq<Tree>, loose: seq<Tree>, inputs: seq<Input>,
                                        who: map<nat, seq<string>>, os: seq<Outcome>, n: nat)
    requires Sound(r.l, talks, loose) && DistinctTargets(TargetsOf(os)) && WhoRight(r.l, TargetsOf(os), inputs, who)
    requires CallsKnown(r.l) && n <= |os|
    ensures var ids := Targets(TargetsOf(os))[..n];
            SumsOf(r, who, os[..n]).cost == Exact(AllSpread(r.l.calls, who, ids, |r.l.calls|).money,
                                                  AllSpread(InTokens(r.l.calls), who, ids, |r.l.calls|).money)
  {
    hide Sound, CallsOf, CallsKnown, WhoRight, DistinctTargets, Spread, Who, MineOf, ExactOf, SumsOf;
    var ids := Targets(TargetsOf(os));
    if n == 0 {
      NothingSummed(r, who);
      assert AllSpread(r.l.calls, who, ids[..0], |r.l.calls|) == NO_VALUE;
    } else {
      var m: nat := n - 1;
      CostIsSpread(r, talks, loose, inputs, who, os, m);
      CostNext(r, who, os, m);
      OneSpread(r, talks, loose, inputs, who, TargetsOf(os), m);
      SpreadNext(r.l.calls, who, ids, m);
      SpreadNext(InTokens(r.l.calls), who, ids, m);
    }
  }

  lemma NothingSummed(r: Reading, who: map<nat, seq<string>>)
    requires CallsKnown(r.l)
    ensures SumsOf(r, who, []) == NO_SUMS
  {
  }

  lemma MineServed(l: LedgerOf, who: map<nat, seq<string>>, t: string, tks: seq<string>)
    ensures forall k :: 0 <= k < |MineOf(l, who, t, tks)| ==> t in Who(who, MineOf(l, who, t, tks)[k])
  {
    hide Who, CallsOf;
    forall k | 0 <= k < |MineOf(l, who, t, tks)| ensures t in Who(who, MineOf(l, who, t, tks)[k]) {
      assert MineOf(l, who, t, tks)[k] in MineOf(l, who, t, tks);
    }
  }

  /**
   The cost the scores are shares of is the whole cost of the calls that served any target, each once,
   in money and in tokens.
   */
  lemma {:induction false} ScoresMeasureServed(r: Reading, talks: seq<Tree>, loose: seq<Tree>, inputs: seq<Input>,
                                               who: map<nat, seq<string>>, os: seq<Outcome>)
    requires Sound(r.l, talks, loose) && DistinctTargets(TargetsOf(os)) && WhoRight(r.l, TargetsOf(os), inputs, who)
    requires CallsKnown(r.l)
    ensures Indexes(r.l.calls, AssignedBefore(who, |r.l.calls|))
    ensures SumsOf(r, who, os).cost == Whole(r.l.calls, AssignedBefore(who, |r.l.calls|))
  {
    hide Sound, CallsOf, CallsKnown, WhoRight, DistinctTargets, Sum, Who, AllSpread, AssignedBefore, SumsOf, AllAmong;
    var calls, ts := r.l.calls, Targets(TargetsOf(os));
    assert os[..|os|] == os && ts[..|os|] == ts;
    CostIsSpread(r, talks, loose, inputs, who, os, |os|);
    AllWho(r.l, talks, loose, TargetsOf(os), inputs, who);
    AlsoAmong(calls, InTokens(calls), who, ts);
    TargetsAddUp(calls, who, ts, |calls|);
    TargetsAddUp(InTokens(calls), who, ts, |calls|);
    WholeInTokens(calls, AssignedBefore(who, |calls|));
  }

  lemma AlsoAmong(calls: seq<Call>, others: seq<Call>, who: map<nat, seq<string>>, ts: seq<string>)
    requires AllAmong(calls, who, ts) && |others| == |calls|
    ensures AllAmong(others, who, ts)
  {
  }

  // ---------------------------------------------------------------------
  // What the achievement says.
  // ---------------------------------------------------------------------

  /**
   A verdict in full or in part, or none: what was achieved counts one, what was not nothing, and what
   cannot be said is not judged.
   */
  lemma VerdictCounts(v: Verdict)
    ensures v.level == Achieved ==> RecordScore(v) == Some(1.0)
    ensures v.level == NotAchieved ==> RecordScore(v) == Some(0.0)
    ensures v.level == CannotVerify || v.level == Unjudged ==> RecordScore(v) == None
    ensures v.level == Partly ==> RecordScore(v).Some?
  {
  }

  /** Partly met: of the criteria and the claims against it, the part met; half where there are no criteria. */
  lemma PartlyCounts(v: Verdict)
    requires v.level == Partly
    ensures v.criteria.None? || v.criteria.value.1 == 0 ==> RecordScore(v) == Some(0.5)
    ensures v.criteria.Some? && v.criteria.value.1 > 0 ==>
              RecordScore(v).Some? &&
              RecordScore(v).value * (v.criteria.value.1 + v.contradicted) as real == v.criteria.value.0 as real
  {
    if v.criteria.Some? && v.criteria.value.1 > 0 {
      WholeAgain(v.criteria.value.0 as real, (v.criteria.value.1 + v.contradicted) as real);
    }
  }

  lemma WholeAgain(a: real, b: real)
    requires b > 0.0
    ensures a / b * b == a
  {
  }

  /** One more claim contradicted, or one criterion less met, never scores more. */
  lemma WorseIsLess(v: Verdict, w: Verdict)
    requires v.level == Partly && w.level == Partly && v.criteria.Some? && w.criteria.Some?
    requires v.criteria.value.1 == w.criteria.value.1 > 0
    requires w.criteria.value.0 <= v.criteria.value.0 && w.contradicted >= v.contradicted
    ensures RecordScore(w).Some? && RecordScore(v).Some? && RecordScore(w).value <= RecordScore(v).value
  {
    var n, less, more := v.criteria.value.1, (v.criteria.value.1 + v.contradicted) as real,
      (w.criteria.value.1 + w.contradicted) as real;
    Divides(w.criteria.value.0 as real, v.criteria.value.0 as real, more, less);
  }

  lemma Divides(a: real, b: real, c: real, d: real)
    requires 0.0 <= a <= b && c >= d > 0.0
    ensures a / c <= b / d
  {
    WholeAgain(a, c);
    WholeAgain(b, d);
    Grows(a / c, c, d);
    if a / c > b / d { Above(a / c, b / d, d); }
  }

  lemma Grows(x: real, c: real, d: real)
    requires c >= d > 0.0 && x * c >= 0.0
    ensures x * c >= x * d
  {
    if x < 0.0 { Negative(x, c); }
    assert x * c - x * d == x * (c - d);
    if c > d && x > 0.0 { assert x * (c - d) > 0.0; }
  }

  lemma Negative(x: real, c: real)
    requires x < 0.0 && c > 0.0
    ensures x * c < 0.0
  {
  }

  lemma Above(x: real, y: real, d: real)
    requires x > y && d > 0.0
    ensures x * d > y * d
  {
    assert x * d - y * d == (x - y) * d;
    assert (x - y) * d > 0.0;
  }

  /** How many of these targets stand and were judged. */
  function JudgedOf(os: seq<Outcome>): nat {
    if os == [] then 0 else JudgedOf(os[..|os|-1]) + if Judged(os[|os|-1]) then 1 else 0
  }

  /** What they score together. */
  function ValuesOf(os: seq<Outcome>): real {
    if os == [] then 0.0
    else ValuesOf(os[..|os|-1]) + if Judged(os[|os|-1]) then RecordScore(os[|os|-1].verdict).value else 0.0
  }

  lemma {:induction false} JudgedCounted(r: Reading, who: map<nat, seq<string>>, os: seq<Outcome>)
    requires CallsKnown(r.l)
    ensures SumsOf(r, who, os).judged == JudgedOf(os) && SumsOf(r, who, os).value == ValuesOf(os)
  {
    hide CallsKnown, AmountsOf, RecordScore, HasUnpriced, Judged;
    if os != [] { JudgedCounted(r, who, os[..|os|-1]); }
  }

  predicate Between(os: seq<Outcome>, low: real, high: real) {
    forall k :: 0 <= k < |os| && Judged(os[k]) ==> low <= RecordScore(os[k].verdict).value <= high
  }

  lemma {:induction false} ValuesBetween(os: seq<Outcome>, low: real, high: real)
    requires Between(os, low, high)
    ensures low * JudgedOf(os) as real <= ValuesOf(os) <= high * JudgedOf(os) as real
  {
    hide RecordScore;
    if os != [] {
      var n := |os| - 1;
      ValuesBetween(os[..n], low, high);
      OneMore(low, JudgedOf(os[..n]));
      OneMore(high, JudgedOf(os[..n]));
    }
  }

  lemma OneMore(x: real, k: nat)
    ensures x * (k + 1) as real == x * k as real + x
  {
    assert (k + 1) as real == k as real + 1.0;
  }

  /** A run's achievement lies between the least and the greatest score of its targets that stand and were judged. */
  lemma AchievementBetween(r: Reading, who: map<nat, seq<string>>, os: seq<Outcome>, labeled: bool, low: real,
                           high: real)
    requires CallsKnown(r.l) && JudgedOf(os) > 0 && Between(os, low, high)
    ensures var a := ScoreOf(SumsOf(r, who, os), labeled).achievement; a.Some? && low <= a.value <= high
  {
    hide CallsKnown, SumsOf, Between, ValuesOf, JudgedOf;
    JudgedCounted(r, who, os);
    ValuesBetween(os, low, high);
    MeanBetween(ValuesOf(os), JudgedOf(os) as real, low, high);
  }

  /** A run whose targets were all achieved scores one, and one whose targets were all not achieved scores nothing. */
  lemma AchievementIs(r: Reading, who: map<nat, seq<string>>, os: seq<Outcome>, labeled: bool, level: Level)
    requires CallsKnown(r.l) && JudgedOf(os) > 0 && (level == Achieved || level == NotAchieved)
    requires forall k :: 0 <= k < |os| && Judged(os[k]) ==> os[k].verdict.level == level
    ensures ScoreOf(SumsOf(r, who, os), labeled).achievement == Some(if level == Achieved then 1.0 else 0.0)
  {
    hide CallsKnown, SumsOf, RecordScore, ScoreOf;
    var all := if level == Achieved then 1.0 else 0.0;
    forall k | 0 <= k < |os| && Judged(os[k])
      ensures RecordScore(os[k].verdict).value == all
    {
      VerdictCounts(os[k].verdict);
    }
    AchievementBetween(r, who, os, labeled, all, all);
  }

  lemma MeanBetween(v: real, n: real, low: real, high: real)
    requires n > 0.0 && low * n <= v <= high * n
    ensures low <= v / n <= high
  {
    WholeAgain(v, n);
    if v / n < low { Above(low, v / n, n); }
    if v / n > high { Above(v / n, high, n); }
  }

  lemma {:induction false} SomeCounted(calls: seq<Call>, idx: seq<nat>, has: Call -> bool)
    requires Indexes(calls, idx)
    ensures HowMany(calls, idx, has) > 0 <==> exists k :: 0 <= k < |idx| && has(calls[idx[k]])
  {
    if idx != [] {
      var n := |idx| - 1;
      SomeCounted(calls, idx[..n], has);
      if k :| 0 <= k < |idx[..n]| && has(calls[idx[..n][k]]) { assert has(calls[idx[k]]); }
      if k :| 0 <= k < |idx| && has(calls[idx[k]]) { assert k < n ==> has(calls[idx[..n][k]]); }
    }
  }

  /** A target is scored in tokens exactly when a call it pays for has no usage or no price. */
  lemma {:induction false} UnpricedWhen(calls: seq<Call>, idx: seq<nat>)
    requires Indexes(calls, idx)
    ensures HasUnpriced(AmountIn(Sum(calls, idx))) <==>
            exists k :: 0 <= k < |idx| && (calls[idx[k]].usage == None || calls[idx[k]].money == None)
  {
    hide Sum;
    var unknown, unpriced := (c: Call) => c.usage == None, (c: Call) => c.usage != None && c.money == None;
    SumCounts(calls, idx);
    SumAmounts(calls, idx);
    SomeCounted(calls, idx, unknown);
    SomeCounted(calls, idx, unpriced);
    assert forall k :: 0 <= k < |idx| ==>
      (calls[idx[k]].usage == None || calls[idx[k]].money == None <==>
       unknown(calls[idx[k]]) || unpriced(calls[idx[k]]));
    if idx == [] { NothingAmounts(calls); }
  }

  lemma NothingAmounts(calls: seq<Call>)
    ensures Sum(calls, []) == NOTHING
  {
  }
}
