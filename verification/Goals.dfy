/**
 Goals settled over the parts of a scan. A goal groups targets that serve one
 result; relations say how each input relates to goals other inputs started.
 Whatever an evaluator answers, what is kept after each part is consistent.
 */
module Goals {

  datatype Kind = New | Continue | Adjust | Return | Unclear | NotPerson | Strange

  /** How an input, known by its place among the recorded inputs, relates to a goal; goal is "" for none. */
  datatype Relation = Relation(kind: Kind, goal: string, follows: int, request: string, statement: string)

  datatype Goal = Goal(id: string, members: seq<string>, main: string, mainCites: nat)

  const NO_RELATION := Relation(Unclear, "", -1, "", "")

  // ---------------------------------------------------------------------
  // Ids.
  // ---------------------------------------------------------------------

  const DIGITS := "0123456789"

  function Decimal(n: nat): (s: string)
    ensures s != []
  {
    if n < 10 then [DIGITS[n]] else Decimal(n / 10) + [DIGITS[n % 10]]
  }

  function DigitOf(c: char): nat {
    if c == '1' then 1 else if c == '2' then 2 else if c == '3' then 3 else if c == '4' then 4 else if c == '5' then 5
    else if c == '6' then 6 else if c == '7' then 7 else if c == '8' then 8 else if c == '9' then 9 else 0
  }

  function ValueOf(s: string): nat {
    if s == [] then 0 else 10 * ValueOf(s[..|s|-1]) + DigitOf(s[|s|-1])
  }

  lemma {:induction false} DecimalBack(n: nat)
    ensures ValueOf(Decimal(n)) == n
  {
    if n < 10 {
      assert [DIGITS[n]][..0] == [];
    } else {
      DecimalBack(n / 10);
      assert Decimal(n)[..|Decimal(n)|-1] == Decimal(n / 10);
    }
  }

  /** The id of the nth goal, counted from 1. */
  function IdOf(n: nat): string {
    "g" + Decimal(n)
  }

  lemma IdsDiffer(m: nat, n: nat)
    ensures IdOf(m) == IdOf(n) <==> m == n
    ensures IdOf(m) != ""
  {
    DecimalBack(m);
    DecimalBack(n);
    assert IdOf(m)[1..] == Decimal(m) && IdOf(n)[1..] == Decimal(n);
  }

  // ---------------------------------------------------------------------
  // What is consistent.
  // ---------------------------------------------------------------------

  type Settled = map<int, seq<Relation>>

  /** An input has a relation to a goal. */
  predicate ActsOn(s: Settled, node: int, goal: string) {
    node in s && exists i :: 0 <= i < |s[node]| && s[node][i].goal == goal
  }

  predicate Starts(s: Settled, node: int, i: int, goal: string) {
    node in s && 0 <= i < |s[node]| && s[node][i].kind == New && s[node][i].goal == goal
  }

  /**
   A relation names a goal there is, or none, and follows an earlier input of that goal; a return is to
   one the input just before left.
   */
  predicate RelationOk(names: set<string>, s: Settled, node: int, r: Relation) {
    match r.kind
    case Unclear => r.goal == ""
    case NotPerson => r.goal == ""
    case Strange => false
    case New => r.goal in names
    case Continue => r.goal in names && r.follows < node && ActsOn(s, r.follows, r.goal)
    case Adjust => r.goal in names && r.follows < node && ActsOn(s, r.follows, r.goal)
    case Return => r.goal in names && r.follows < node && ActsOn(s, r.follows, r.goal) && !ActsOn(s, node - 1, r.goal)
  }

  /** One input, by one relation, started a goal, and no earlier input relates to it. */
  ghost predicate StartedOnce(s: Settled, goal: string) {
    exists n, i :: StartsFirst(s, goal, n, i)
  }

  ghost predicate StartsFirst(s: Settled, goal: string, n: int, i: int) {
    && Starts(s, n, i, goal)
    && (forall m, j :: Starts(s, m, j, goal) ==> m == n && j == i)
    && (forall m :: ActsOn(s, m, goal) ==> n <= m)
  }

  ghost predicate RelationsOk(names: set<string>, s: Settled) {
    && (forall n, i :: n in s && 0 <= i < |s[n]| ==> RelationOk(names, s, n, s[n][i]))
    && (forall g :: g in names ==> g != "" && StartedOnce(s, g))
  }

  // ---------------------------------------------------------------------
  // Settling one input's relations.
  // ---------------------------------------------------------------------

  /** No goal, no earlier input: of what was given, just the request. */
  function Unclaimed(r: Relation): Relation {
    Relation(Unclear, "", -1, r.request, "")
  }

  /** What is kept of a relation an input was given, when these keys were started before it. */
  function Kept(keys: set<string>, started: set<string>, s: Settled, node: int, r: Relation): Relation {
    match r.kind
    case Unclear => Unclaimed(r)
    case New => if r.goal in keys && r.goal !in started then r.(follows := -1) else Unclaimed(r)
    case Adjust => if r.goal != "" && ActsOn(s, r.follows, r.goal) then r else Unclaimed(r)
    case Continue => if r.goal != "" && ActsOn(s, r.follows, r.goal) then r.(statement := "") else Unclaimed(r)
    case Return =>
      if r.goal != "" && ActsOn(s, r.follows, r.goal)
      then r.(kind := if ActsOn(s, node - 1, r.goal) then Continue else Return, statement := "")
      else Unclaimed(r)
    case _ => Unclaimed(r)
  }

  /** The goals these relations start. */
  function StartedBy(rs: seq<Relation>): set<string> {
    set i | 0 <= i < |rs| && rs[i].kind == New :: rs[i].goal
  }

  /** Relations settled for one input, given what was settled before it. */
  ghost predicate Settling(keys: set<string>, started: set<string>, s: Settled, node: int, out: seq<Relation>) {
    && (forall i :: 0 <= i < |out| ==> FineFor(keys, started, s, node, out[i]))
    && (forall i, j :: 0 <= i < j < |out| && out[i].kind == New && out[j].kind == New ==> out[i].goal != out[j].goal)
  }

  predicate FineFor(keys: set<string>, started: set<string>, s: Settled, node: int, r: Relation) {
    match r.kind
    case Unclear => r.goal == ""
    case NotPerson => r.goal == ""
    case Strange => false
    case New => r.goal in keys && r.goal !in started
    case Continue => r.goal != "" && ActsOn(s, r.follows, r.goal)
    case Adjust => r.goal != "" && ActsOn(s, r.follows, r.goal)
    case Return => r.goal != "" && ActsOn(s, r.follows, r.goal) && !ActsOn(s, node - 1, r.goal)
  }

  /** What is kept of these relations, one after another; a goal one of them starts is started for those after it. */
  function KeptAll(keys: set<string>, started: set<string>, s: Settled, node: int,
                   given: seq<Relation>): (out: seq<Relation>)
    ensures |out| == |given|
  {
    if given == [] then []
    else
      var before := KeptAll(keys, started, s, node, given[..|given|-1]);
      before + [Kept(keys, started + StartedBy(before), s, node, given[|given|-1])]
  }

  lemma {:induction false} EachKept(keys: set<string>, started: set<string>, s: Settled, node: int,
                                    given: seq<Relation>)
    ensures var out := KeptAll(keys, started, s, node, given);
      forall i :: 0 <= i < |out| ==> out[i] == Kept(keys, started + StartedBy(out[..i]), s, node, given[i])
  {
    hide Kept, StartedBy;
    if given != [] {
      var n := |given| - 1;
      EachKept(keys, started, s, node, given[..n]);
      var before, out := KeptAll(keys, started, s, node, given[..n]), KeptAll(keys, started, s, node, given);
      assert forall i :: 0 <= i <= n ==> out[..i] == before[..i];
      assert before[..n] == before;
    }
  }

  /** What is settled for an input: that no person wrote it, or what is kept of what it was given, and never nothing. */
  function SettledOf(keys: set<string>, started: set<string>, s: Settled, node: int, given: seq<Relation>,
                     notPerson: bool): seq<Relation> {
    if notPerson then [NO_RELATION.(kind := NotPerson)]
    else if given == [] then [NO_RELATION]
    else KeptAll(keys, started, s, node, given)
  }

  /** A relation that is valid is kept: its kind, its goal, what it follows and its request. */
  lemma ValidIsKept(keys: set<string>, started: set<string>, s: Settled, node: int, r: Relation)
    requires FineFor(keys, started, s, node, r) && !r.kind.Unclear? && !r.kind.NotPerson?
    ensures var k := Kept(keys, started, s, node, r);
      && k.kind == r.kind && k.goal == r.goal && k.request == r.request && (r.kind.New? || k.follows == r.follows)
      && (r.kind.New? || r.kind.Adjust? ==> k.statement == r.statement)
  {
    hide ActsOn;
  }

  /** A relation that is kept as it was given was valid, or claims nothing. */
  lemma KeptIsValid(keys: set<string>, started: set<string>, s: Settled, node: int, r: Relation)
    requires Kept(keys, started, s, node, r).kind == r.kind
    ensures FineFor(keys, started, s, node, r) || r.kind.Unclear?
  {
    hide ActsOn;
  }

  /**
   A return to a goal the input just before acts on is kept as going on with it, following the same input; a relation
   that is neither valid nor such a return claims nothing, and of it only the request is kept.
   */
  lemma WeakenedTo(keys: set<string>, started: set<string>, s: Settled, node: int, r: Relation)
    requires !FineFor(keys, started, s, node, r)
    ensures var k := Kept(keys, started, s, node, r);
      if r.kind == Return && r.goal != "" && ActsOn(s, r.follows, r.goal)
      then ActsOn(s, node - 1, r.goal) && k == Relation(Continue, r.goal, r.follows, r.request, "")
      else k == Relation(Unclear, "", -1, r.request, "")
  {
    hide ActsOn;
  }

  /**
   What is kept of a valid relation: a statement only of one that sets or adjusts a goal, and nothing
   followed by one that starts it.
   */
  lemma KeptAs(keys: set<string>, started: set<string>, s: Settled, node: int, r: Relation)
    requires FineFor(keys, started, s, node, r)
    ensures Kept(keys, started, s, node, r) ==
            match r.kind
            case New => Relation(New, r.goal, -1, r.request, r.statement)
            case Adjust => r
            case Continue => Relation(Continue, r.goal, r.follows, r.request, "")
            case Return => Relation(Return, r.goal, r.follows, r.request, "")
            case _ => Relation(Unclear, "", -1, r.request, "")
  {
    hide ActsOn;
  }

  /** How many of these relations were not kept as what they were given as. */
  ghost function Weakened(given: seq<Relation>, kept: seq<Relation>): nat
    requires |given| == |kept|
  {
    if given == [] then 0
    else
      var n := |given| - 1;
      Weakened(given[..n], kept[..n]) + if given[n].kind != kept[n].kind then 1 else 0
  }

  /** Settles what an input was given, one relation after another. */
  method SettleInput(keys: set<string>, started0: set<string>, s: Settled, node: int, given: seq<Relation>,
                     notPerson: bool)
    returns (out: seq<Relation>, started: set<string>, weakened: nat)
    ensures Settling(keys, started0, s, node, out) && out != []
    ensures started == started0 + StartedBy(out)
    ensures out == SettledOf(keys, started0, s, node, given, notPerson)
    ensures !notPerson ==> weakened == Weakened(given, KeptAll(keys, started0, s, node, given))
    ensures notPerson ==> weakened == if |given| == 1 && given[0].kind == NotPerson then 0 else 1
  {
    hide ActsOn, Kept, KeptAll, Settling, StartedBy, FineFor;
    started, weakened := started0, 0;
    NothingSettled(keys, started0, s, node, given);
    if notPerson {
      if |given| != 1 || given[0].kind != NotPerson { weakened := 1; }
      out := [NO_RELATION.(kind := NotPerson)];
      return;
    }
    out := [];
    for k := 0 to |given|
      invariant Settling(keys, started0, s, node, out)
      invariant started == started0 + StartedBy(out)
      invariant out == KeptAll(keys, started0, s, node, given[..k]) && weakened == Weakened(given[..k], out)
    {
      var r := given[k];
      KeptNext(keys, started0, s, node, given, k);
      var kept := Kept(keys, started, s, node, r);
      KeptIsFine(keys, started0, started, s, node, r);
      if kept.kind != r.kind { weakened := weakened + 1; }
      StartedNext(out, kept);
      if kept.kind == New { started := started + {kept.goal}; }
      SettlingNext(keys, started0, s, node, out, kept);
      assert given[..k+1][..k] == given[..k] && (out + [kept])[..k] == out;
      out := out + [kept];
    }
    assert given[..|given|] == given;
    if out == [] { out := [NO_RELATION]; }
  }

  lemma NothingSettled(keys: set<string>, started: set<string>, s: Settled, node: int, given: seq<Relation>)
    ensures Settling(keys, started, s, node, []) && StartedBy([]) == {}
    ensures KeptAll(keys, started, s, node, given[..0]) == []
    ensures Settling(keys, started, s, node, [NO_RELATION]) && StartedBy([NO_RELATION]) == {}
    ensures Settling(keys, started, s, node, [NO_RELATION.(kind := NotPerson)])
    ensures StartedBy([NO_RELATION.(kind := NotPerson)]) == {}
  {
  }

  lemma KeptNext(keys: set<string>, started: set<string>, s: Settled, node: int, given: seq<Relation>, k: nat)
    requires k < |given|
    ensures var before := KeptAll(keys, started, s, node, given[..k]);
      KeptAll(keys, started, s, node, given[..k+1]) == before
        + [Kept(keys, started + StartedBy(before), s, node, given[k])]
  {
    assert given[..k+1][..k] == given[..k];
  }

  lemma KeptIsFine(keys: set<string>, started0: set<string>, started: set<string>, s: Settled, node: int, r: Relation)
    requires started0 <= started
    ensures var kept := Kept(keys, started, s, node, r);
      FineFor(keys, started0, s, node, kept) && (kept.kind == New ==> kept.goal !in started)
  {
    hide ActsOn;
  }

  lemma StartedNext(out: seq<Relation>, r: Relation)
    ensures StartedBy(out + [r]) == StartedBy(out) + if r.kind == New then {r.goal} else {}
  {
    var more := out + [r];
    assert more[|out|] == r;
    forall g | g in StartedBy(out) ensures g in StartedBy(more) {
      var i :| 0 <= i < |out| && out[i].kind == New && out[i].goal == g;
      assert more[i] == out[i];
    }
  }

  lemma SettlingNext(keys: set<string>, started: set<string>, s: Settled, node: int, out: seq<Relation>, r: Relation)
    requires Settling(keys, started, s, node, out) && FineFor(keys, started, s, node, r)
    requires r.kind == New ==> r.goal !in StartedBy(out)
    ensures Settling(keys, started, s, node, out + [r])
  {
    hide FineFor;
    var more := out + [r];
    forall i, j | 0 <= i < j < |more| && more[i].kind == New && more[j].kind == New
      ensures more[i].goal != more[j].goal
    {
      assert more[i] == out[i] && out[i].goal in StartedBy(out);
      assert j < |out| ==> more[j] == out[j];
    }
  }

  lemma ActsOnLater(s: Settled, n: int, out: seq<Relation>, m: int, g: string)
    requires n !in s
    ensures m != n ==> (ActsOn(s[n := out], m, g) <==> ActsOn(s, m, g))
  {
    var s' := s[n := out];
    if m != n && m in s {
      assert s'[m] == s[m];
      assert (exists i :: 0 <= i < |s'[m]| && s'[m][i].goal == g) <==>
               (exists i :: 0 <= i < |s[m]| && s[m][i].goal == g);
    }
  }

  /** Relations settled for a later input keep everything consistent. */
  lemma SettledMore(keys: set<string>, known: set<string>, started: set<string>, s: Settled, n: int, out: seq<Relation>)
    requires RelationsOk(known + started, s) && keys !! known && "" !in keys && started <= keys
    requires (forall m :: m in s ==> m < n) && Settling(keys, started, s, n, out)
    ensures RelationsOk(known + started + StartedBy(out), s[n := out])
  {
    hide ActsOn, RelationOk, StartedOnce;
    var names, after, s' := known + started, known + started + StartedBy(out), s[n := out];
    forall m, i | m in s' && 0 <= i < |s'[m]| ensures RelationOk(after, s', m, s'[m][i]) {
      if m == n { OutOk(keys, known, started, s, n, out, i); } else { OldOk(names, after, s, n, out, m, i); }
    }
    forall g | g in after ensures g != "" && StartedOnce(s', g) {
      if g in names { OldStart(keys, known, started, s, n, out, g); }
        else { NewStart(keys, known, started, s, n, out, g); }
    }
  }

  lemma OldOk(names: set<string>, after: set<string>, s: Settled, n: int, out: seq<Relation>, m: int, i: int)
    requires RelationsOk(names, s) && names <= after && n !in s && m in s && 0 <= i < |s[m]| && forall m :: m in s ==>
               m < n
    ensures RelationOk(after, s[n := out], m, s[m][i])
  {
    hide ActsOn, StartedOnce;
    var r := s[m][i];
    assert RelationOk(names, s, m, r);
    ActsOnLater(s, n, out, r.follows, r.goal);
    ActsOnLater(s, n, out, m - 1, r.goal);
  }

  /** What acts on a goal names one there is. */
  lemma ActsOnKnown(names: set<string>, s: Settled, m: int, g: string)
    requires RelationsOk(names, s) && ActsOn(s, m, g) && g != ""
    ensures g in names
  {
    hide StartedOnce;
    var i :| 0 <= i < |s[m]| && s[m][i].goal == g;
    assert RelationOk(names, s, m, s[m][i]);
  }

  lemma OutOk(keys: set<string>, known: set<string>, started: set<string>, s: Settled, n: int, out: seq<Relation>,
              i: int)
    requires RelationsOk(known + started, s) && (forall m :: m in s ==> m < n) && Settling(keys, started, s, n, out)
    requires 0 <= i < |out|
    ensures RelationOk(known + started + StartedBy(out), s[n := out], n, out[i])
  {
    hide StartedOnce, RelationsOk;
    var r := out[i];
    assert FineFor(keys, started, s, n, r);
    ActsOnLater(s, n, out, n - 1, r.goal);
    if r.kind == New {
      assert r.goal in StartedBy(out);
    } else if r.kind == Continue || r.kind == Adjust || r.kind == Return {
      ActsOnKnown(known + started, s, r.follows, r.goal);
      ActsOnLater(s, n, out, r.follows, r.goal);
    }
  }

  lemma OldStart(keys: set<string>, known: set<string>, started: set<string>, s: Settled, n: int, out: seq<Relation>,
                 g: string)
    requires RelationsOk(known + started, s) && keys !! known && (forall m :: m in s ==> m < n)
    requires Settling(keys, started, s, n, out) && g in known + started
    ensures StartedOnce(s[n := out], g) && g != ""
  {
    hide ActsOn, RelationOk;
    var s' := s[n := out];
    var a, i :| StartsFirst(s, g, a, i);
    assert Starts(s', a, i, g);
    assert forall j :: 0 <= j < |out| && out[j].kind == New ==> FineFor(keys, started, s, n, out[j]);
    forall m, j | Starts(s', m, j, g) ensures m == a && j == i {
      if m != n { assert Starts(s, m, j, g); }
    }
    forall m | ActsOn(s', m, g) ensures a <= m {
      ActsOnLater(s, n, out, m, g);
    }
    assert StartsFirst(s', g, a, i);
  }

  lemma NewStart(keys: set<string>, known: set<string>, started: set<string>, s: Settled, n: int, out: seq<Relation>,
                 g: string)
    requires RelationsOk(known + started, s) && (forall m :: m in s ==> m < n)
    requires Settling(keys, started, s, n, out) && g in StartedBy(out) && g !in known + started && "" !in keys
    ensures StartedOnce(s[n := out], g) && g != ""
  {
    hide RelationOk, StartedOnce, RelationsOk;
    var s' := s[n := out];
    var i :| 0 <= i < |out| && out[i].kind == New && out[i].goal == g;
    assert FineFor(keys, started, s, n, out[i]);
    assert Starts(s', n, i, g);
    forall m | ActsOn(s', m, g) ensures n <= m {
      if m != n {
        ActsOnLater(s, n, out, m, g);
        ActsOnKnown(known + started, s, m, g);
      }
    }
    forall m, j | Starts(s', m, j, g) ensures m == n && j == i {
      assert s'[m][j].goal == g;
      assert ActsOn(s', m, g);
      if m != n {
        ActsOnLater(s, n, out, m, g);
        ActsOnKnown(known + started, s, m, g);
      }
    }
    assert StartsFirst(s', g, n, i);
    assert StartedOnce(s', g) by { OnceFrom(s', g, n, i); }
  }

  lemma OnceFrom(s: Settled, g: string, n: int, i: int)
    requires StartsFirst(s, g, n, i)
    ensures StartedOnce(s, g)
  {
  }
}
