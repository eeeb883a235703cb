/**
 One part of a targets scan after another: new goals get their ids, targets
 their homes, and each goal its main target, from whatever an evaluator answers.
 */
module GoalScan {
  import opened Goals

  function Ids(goals: seq<Goal>): set<string> {
    set k | 0 <= k < |goals| :: goals[k].id
  }

  /** The nth goal found has the nth id. */
  predicate Dense(goals: seq<Goal>) {
    forall k :: 0 <= k < |goals| ==> goals[k].id == IdOf(k + 1)
  }

  /** A target is listed once in all. */
  predicate HomesUnique(goals: seq<Goal>) {
    && (forall k, i, j :: 0 <= k < |goals| && 0 <= i < j < |goals[k].members| ==>
        goals[k].members[i] != goals[k].members[j])
    && (forall k, l, t :: 0 <= k < l < |goals| && t in goals[k].members ==> t !in goals[l].members)
  }

  /**
   A target is listed once in all, a goal's main is one of its members, and of several members only one
   the person's words show.
   */
  predicate HomesOk(goals: seq<Goal>) {
    HomesUnique(goals) && forall k :: 0 <= k < |goals| ==> MainOk(goals[k])
  }

  predicate MainOk(g: Goal) {
    g.main != "" ==> g.main in g.members && (|g.members| > 1 ==> g.mainCites > 0)
  }

  // ---------------------------------------------------------------------
  // Ids for the goals that were started.
  // ---------------------------------------------------------------------

  function Renamed(ids: map<string, string>, g: string): string {
    if g in ids then ids[g] else g
  }

  function RenamedList(ids: map<string, string>, rs: seq<Relation>): (r: seq<Relation>)
    ensures |r| == |rs| && forall i :: 0 <= i < |rs| ==> r[i] == rs[i].(goal := Renamed(ids, rs[i].goal))
  {
    seq(|rs|, i requires 0 <= i < |rs| => rs[i].(goal := Renamed(ids, rs[i].goal)))
  }

  function RenamedAll(ids: map<string, string>, s: Settled): (r: Settled)
    ensures r.Keys == s.Keys && forall n :: n in s ==> r[n] == RenamedList(ids, s[n])
  {
    map n | n in s :: RenamedList(ids, s[n])
  }

  /** A renaming that tells every name apart, and makes none of them empty. */
  predicate Faithful(ids: map<string, string>, names: set<string>) {
    && "" !in ids && "" !in names
    && (forall g :: g in names ==> Renamed(ids, g) != "")
    && (forall g, h :: g in names && h in names && Renamed(ids, g) == Renamed(ids, h) ==> g == h)
  }

  lemma ActsOnRenamed(ids: map<string, string>, names: set<string>, s: Settled, m: int, g: string)
    requires RelationsOk(names, s) && Faithful(ids, names) && g in names
    ensures ActsOn(RenamedAll(ids, s), m, Renamed(ids, g)) <==> ActsOn(s, m, g)
  {
    hide StartedOnce;
    var s': Settled := RenamedAll(ids, s);
    if ActsOn(s, m, g) {
      var i :| 0 <= i < |s[m]| && s[m][i].goal == g;
      assert s'[m][i].goal == Renamed(ids, g);
    }
    if ActsOn(s', m, Renamed(ids, g)) {
      var i :| 0 <= i < |s'[m]| && s'[m][i].goal == Renamed(ids, g);
      assert RelationOk(names, s, m, s[m][i]);
      assert s'[m][i].goal == Renamed(ids, s[m][i].goal);
    }
  }

  /** Giving goals their ids keeps the relations consistent. */
  lemma RenamedOk(ids: map<string, string>, names: set<string>, s: Settled)
    requires RelationsOk(names, s) && Faithful(ids, names)
    ensures RelationsOk(set g | g in names :: Renamed(ids, g), RenamedAll(ids, s))
  {
    hide ActsOn, StartedOnce;
    var s': Settled, after := RenamedAll(ids, s), set g | g in names :: Renamed(ids, g);
    forall n, i | n in s' && 0 <= i < |s'[n]| ensures RelationOk(after, s', n, s'[n][i]) {
      var r := s[n][i];
      assert RelationOk(names, s, n, r);
      if r.goal in names {
        ActsOnRenamed(ids, names, s, r.follows, r.goal);
        ActsOnRenamed(ids, names, s, n - 1, r.goal);
      }
    }
    forall h | h in after ensures h != "" && StartedOnce(s', h) {
      var g :| g in names && Renamed(ids, g) == h;
      StartRenamed(ids, names, s, g);
    }
  }

  lemma StartRenamed(ids: map<string, string>, names: set<string>, s: Settled, g: string)
    requires RelationsOk(names, s) && Faithful(ids, names) && g in names
    ensures StartedOnce(RenamedAll(ids, s), Renamed(ids, g))
  {
    hide ActsOn, RelationOk;
    var s': Settled, h := RenamedAll(ids, s), Renamed(ids, g);
    var n, i :| StartsFirst(s, g, n, i);
    assert s'[n][i].goal == h;
    assert Starts(s', n, i, h);
    forall m, j | Starts(s', m, j, h) ensures m == n && j == i {
      NewIsNamed(names, s, m, j);
      assert s'[m][j].goal == Renamed(ids, s[m][j].goal);
      assert Starts(s, m, j, g);
    }
    forall m | ActsOn(s', m, h) ensures n <= m { ActsOnRenamed(ids, names, s, m, g); }
    assert StartsFirst(s', h, n, i);
  }

  lemma NewIsNamed(names: set<string>, s: Settled, m: int, j: int)
    requires RelationsOk(names, s) && m in s && 0 <= j < |s[m]| && s[m][j].kind == New
    ensures s[m][j].goal in names
  {
    hide StartedOnce;
    assert RelationOk(names, s, m, s[m][j]);
  }

  // ---------------------------------------------------------------------
  // One part.
  // ---------------------------------------------------------------------

  /** One goal of an answer: a change to a goal by its id, or a goal under a key. */
  datatype GoalEntry = GoalEntry(id: string, key: string, members: seq<string>, main: string, undetermined: bool,
                                 cites: nat)

  /**
   What an evaluator answered for these inputs, in their order, and what is known of targets: which a
   name resolves to, which input created each, and which are no longer wanted.
   */
  datatype Part = Part(answered: seq<int>, given: map<int, seq<Relation>>, notPerson: set<int>, entries: seq<GoalEntry>,
                       resolve: map<string, string>, creator: map<string, int>, unwanted: set<string>)

  function Given(p: Part, n: int): seq<Relation> {
    if n in p.given then p.given[n] else []
  }

  /** The names, of no goal found so far, that the answer's relations give. */
  function KeysOf(p: Part, known: set<string>): set<string> {
    set n, i | n in p.given && n in p.answered && 0 <= i < |p.given[n]|
               && p.given[n][i].goal != "" && p.given[n][i].goal !in known :: p.given[n][i].goal
  }

  /**
   A name is such a key exactly when a relation given for an input of this part gives it, and it is no
   goal's found so far.
   */
  lemma KeysAre(p: Part, known: set<string>, g: string)
    ensures g in KeysOf(p, known) <==>
            g != "" && g !in known && exists n, r :: n in p.answered && n in p.given && r in p.given[n] && r.goal == g
  {
    if g in KeysOf(p, known) {
      var n, i :| n in p.given && n in p.answered && 0 <= i < |p.given[n]| && p.given[n][i].goal == g;
      assert p.given[n][i] in p.given[n];
    }
  }

  /** What is settled, and which keys are started, after some of a part's inputs. */
  datatype Going = Going(settled: Settled, started: set<string>)

  function GoingAfter(p: Part, keys: set<string>, s: Settled, k: nat): Going
    requires k <= |p.answered|
  {
    if k == 0 then Going(s, {})
    else
      var g, n := GoingAfter(p, keys, s, k - 1), p.answered[k-1];
      var out := SettledOf(keys, g.started, g.settled, n, Given(p, n), n in p.notPerson);
      Going(g.settled[n := out], g.started + StartedBy(out))
  }

  /**
   What is settled for an answered input: that no person wrote it; that it is unclear, when it was given
   no relation; or just what is kept of each relation it was given, a goal one of them starts being
   started for those after it.
   */
  lemma AnsweredIs(p: Part, keys: set<string>, s: Settled, k: nat)
    requires k < |p.answered|
    ensures var g, n := GoingAfter(p, keys, s, k), p.answered[k];
      var next := GoingAfter(p, keys, s, k + 1).settled;
      && n in next
      && (n in p.notPerson ==> next[n] == [Relation(NotPerson, "", -1, "", "")])
      && (n !in p.notPerson && (n !in p.given || p.given[n] == []) ==> next[n] == [Relation(Unclear, "", -1, "", "")])
      && (n !in p.notPerson && n in p.given && p.given[n] != [] ==>
            && |next[n]| == |p.given[n]|
            && forall i :: 0 <= i < |next[n]| ==>
                 next[n][i] == Kept(keys, g.started + StartedBy(next[n][..i]), g.settled, n, p.given[n][i]))
  {
    hide Kept, StartedBy;
    var g, n := GoingAfter(p, keys, s, k), p.answered[k];
    if n in p.given { EachKept(keys, g.started, g.settled, n, p.given[n]); }
  }

  lemma NothingGoing(p: Part, keys: set<string>, s: Settled)
    ensures GoingAfter(p, keys, s, 0) == Going(s, {})
  {
  }

  lemma GoingNext(p: Part, keys: set<string>, s: Settled, k: nat)
    requires k < |p.answered|
    ensures var g, n := GoingAfter(p, keys, s, k), p.answered[k];
      var out := SettledOf(keys, g.started, g.settled, n, Given(p, n), n in p.notPerson);
      GoingAfter(p, keys, s, k + 1) == Going(g.settled[n := out], g.started + StartedBy(out))
  {
  }

  /** The keys these relations carry, in their order. */
  function CarriedBy(rs: seq<Relation>, keys: set<string>): seq<string> {
    if rs == [] then []
    else CarriedBy(rs[..|rs|-1], keys) + if rs[|rs|-1].goal in keys then [rs[|rs|-1].goal] else []
  }

  /** The keys the relations of these inputs carry, input by input. */
  function Carried(s: Settled, nodes: seq<int>, keys: set<string>): seq<string> {
    if nodes == [] then []
    else
      var n := nodes[|nodes|-1];
      Carried(s, nodes[..|nodes|-1], keys) + CarriedBy(if n in s then s[n] else [], keys)
  }

  /** Each of these once, where it comes first. */
  function Firsts(xs: seq<string>): (r: seq<string>)
    ensures forall x :: x in r <==> x in xs
    ensures forall j, k :: 0 <= j < k < |r| ==> r[j] != r[k]
  {
    if xs == [] then []
    else
      var n := |xs| - 1;
      assert xs == xs[..n] + [xs[n]];
      var before := Firsts(xs[..n]);
      if xs[n] in before then before else before + [xs[n]]
  }

  /** The next free ids, for these keys in this order. */
  function IdsInOrder(order: seq<string>, n: nat): map<string, string> {
    if order == [] then map[] else IdsInOrder(order[..|order|-1], n)[order[|order|-1] := IdOf(n + |order|)]
  }

  /** What settling a part's inputs comes to, before goals have ids. */
  function PartGoing(p: Part, goals: seq<Goal>, s: Settled): Going {
    GoingAfter(p, KeysOf(p, Ids(goals)), s, |p.answered|)
  }

  /** The ids of the goals a part starts: the next free ones, in the order inputs act on them. */
  function PartIds(p: Part, goals: seq<Goal>, s: Settled): map<string, string> {
    IdsInOrder(Firsts(Carried(PartGoing(p, goals, s).settled, p.answered, KeysOf(p, Ids(goals)))), |goals|)
  }

  /** The name an entry gives its goal when it is none found before; "" where it gives two, or none. */
  function KeyOf(e: GoalEntry, found: set<string>): string {
    if e.key == "" then if e.id in found then "" else e.id
    else if e.id == "" then e.key else ""
  }

  /** The keys that entries give their goals. */
  function KeysGiven(es: seq<GoalEntry>, found: set<string>): set<string> {
    set e | e in es && KeyOf(e, found) != "" && KeyOf(e, found) !in found :: KeyOf(e, found)
  }

  /**
   Which goal an entry is of: the one found before that it names, or the one its key started, when no
   earlier entry gives that key.
   */
  function GoalIdOf(e: GoalEntry, found: set<string>, ids: map<string, string>, given: set<string>): string {
    if e.key == "" && e.id in found then e.id
    else
      var key := KeyOf(e, found);
      if key != "" && key !in found && key !in given && key in ids then ids[key] else ""
  }

  /** Every target named has a home, unless its first input does not relate to the goal. */
  predicate Homed(p: Part, s: Settled, goals: seq<Goal>, id: string, names: seq<string>) {
    forall i :: 0 <= i < |names| && names[i] in p.resolve ==> HomedOrNot(p, s, goals, id, p.resolve[names[i]])
  }

  predicate HomedOrNot(p: Part, s: Settled, goals: seq<Goal>, id: string, t: string) {
    AtHome(goals, t) || t !in p.creator || !ActsOn(s, p.creator[t], id)
  }

  /** The goals of a scan, and the relations of the inputs answered so far. */
  class Scan {
    var goals: seq<Goal>
    var settled: Settled

    ghost predicate Valid()
      reads this
    {
      Dense(goals) && HomesOk(goals) && RelationsOk(Ids(goals), settled)
    }

    constructor ()
      ensures Valid() && goals == [] && settled == map[]
    {
      goals, settled := [], map[];
    }

    /** Checks one part of the scan, whose inputs come after every input answered before. */
    method CheckPart(p: Part)
      requires Valid()
      requires forall j, k :: 0 <= j < k < |p.answered| ==> p.answered[j] < p.answered[k]
      requires forall n, m :: n in p.answered && m in settled ==> m < n
      requires forall x :: x in p.resolve ==> p.resolve[x] != ""
      modifies this
      ensures Valid()
      ensures |goals| >= |old(goals)| && forall k :: 0 <= k < |old(goals)| ==>
                goals[k].id == old(goals)[k].id && old(goals)[k].members <= goals[k].members
      ensures forall n :: n in old(settled) ==> n in settled && settled[n] == old(settled)[n]
      ensures forall n :: n in settled <==> n in old(settled) || n in p.answered
      ensures forall k, t :: 0 <= k < |goals| && t in goals[k].members
                             && !(k < |old(goals)| && t in old(goals)[k].members) ==>
                t in p.creator && ActsOn(settled, p.creator[t], goals[k].id)
      ensures settled ==
                RenamedAll(PartIds(p, old(goals), old(settled)), PartGoing(p, old(goals), old(settled)).settled)
      ensures |goals| == |old(goals)| + |PartIds(p, old(goals), old(settled))|
      ensures EntriesHomed(p, Ids(old(goals)), PartIds(p, old(goals), old(settled)), settled, goals, |p.entries|)
    {
      hide Dense, HomesOk, RelationsOk, EntriesHomed, PartIds, PartGoing, ActsOn, RenamedAll;
      var known := Ids(goals);
      NoEmptyId(goals);
      var ids := SettlePart(p);
      ghost var named := goals;
      PlaceTargets(p, known, ids);
      SameIds(named, goals);
      Placed(old(goals), named, goals, settled, p);
    }

    /** Settles a part's relations, and gives the goals it starts their ids. */
    method SettlePart(p: Part) returns (ids: map<string, string>)
      requires Valid()
      requires forall j, k :: 0 <= j < k < |p.answered| ==> p.answered[j] < p.answered[k]
      requires forall n, m :: n in p.answered && m in settled ==> m < n
      modifies this
      ensures Valid()
      ensures |goals| >= |old(goals)| && goals[..|old(goals)|] == old(goals)
      ensures forall k :: |old(goals)| <= k < |goals| ==> goals[k].members == []
      ensures forall n :: n in old(settled) ==> n in settled && settled[n] == old(settled)[n]
      ensures forall n :: n in settled <==> n in old(settled) || n in p.answered
      ensures ids == PartIds(p, old(goals), old(settled)) && |goals| == |old(goals)| + |ids|
      ensures settled == RenamedAll(ids, PartGoing(p, old(goals), old(settled)).settled)
    {
      hide Dense, HomesOk, RelationsOk, GoingAfter, Carried, Firsts, IdsInOrder, KeysOf, ActsOn, RenamedAll;
      var known := Ids(goals);
      var keys := KeysOf(p, known);
      ghost var was := settled;
      KeysAreNew(p, known);
      var started := SettleAll(p, keys);
      OldGoals(known, keys, was);
      ids := NameGoals(p, keys, started);
    }

    /** Settles the relations of every answered input, in order, under the keys the answer gives. */
    method SettleAll(p: Part, keys: set<string>) returns (started: set<string>)
      requires Dense(goals) && RelationsOk(Ids(goals), settled) && keys == KeysOf(p, Ids(goals))
      requires forall j, k :: 0 <= j < k < |p.answered| ==> p.answered[j] < p.answered[k]
      requires forall n, m :: n in p.answered && m in settled ==> m < n
      modifies this`settled
      ensures started <= keys && keys !! Ids(goals) && "" !in keys
      ensures RelationsOk(Ids(goals) + started, settled)
      ensures forall n :: n in old(settled) ==> n in settled && settled[n] == old(settled)[n]
      ensures forall n :: n in settled <==> n in old(settled) || n in p.answered
      ensures Going(settled, started) == GoingAfter(p, keys, old(settled), |p.answered|)
    {
      hide Dense, RelationsOk, Settling, ActsOn, SettledOf, GoingAfter, StartedBy, KeysOf;
      KeysAreNew(p, Ids(goals));
      NothingGoing(p, keys, settled);
      started := {};
      assert Ids(goals) + started == Ids(goals);
      for k := 0 to |p.answered|
        invariant started <= keys && RelationsOk(Ids(goals) + started, settled)
        invariant forall n :: n in old(settled) ==> n in settled && settled[n] == old(settled)[n]
        invariant forall n :: n in settled <==> n in old(settled) || n in p.answered[..k]
        invariant Going(settled, started) == GoingAfter(p, keys, old(settled), k)
      {
        var n := p.answered[k];
        var out, more, weakened := SettleInput(keys, started, settled, n, Given(p, n), n in p.notPerson);
        assert p.answered[..k+1] == p.answered[..k] + [n];
        assert n in p.answered;
        GoingNext(p, keys, old(settled), k);
        SettledMore(keys, Ids(goals), started, settled, n, out);
        StartedAreKeys(keys, started, settled, n, out);
        assert Ids(goals) + started + StartedBy(out) == Ids(goals) + more;
        settled := settled[n := out];
        started := more;
      }
      assert p.answered[..|p.answered|] == p.answered;
    }

    /** Gives each goal started the next free id, in the order inputs started them, and its relations that id. */
    method NameGoals(p: Part, keys: set<string>, started: set<string>) returns (ids: map<string, string>)
      requires Dense(goals) && HomesOk(goals) && keys !! Ids(goals) && "" !in keys && started <= keys
      requires RelationsOk(Ids(goals) + started, settled)
      requires forall n, i :: n in settled && n !in p.answered && 0 <= i < |settled[n]| ==> settled[n][i].goal !in keys
      requires forall n :: n in p.answered ==> n in settled
      modifies this
      ensures Dense(goals) && HomesOk(goals) && RelationsOk(Ids(goals), settled)
      ensures |goals| >= |old(goals)| && goals[..|old(goals)|] == old(goals)
      ensures forall k :: |old(goals)| <= k < |goals| ==> goals[k] == Goal(goals[k].id, [], "", 0)
      ensures settled.Keys == old(settled).Keys
      ensures forall n :: n in old(settled) && n !in p.answered ==> settled[n] == old(settled)[n]
      ensures forall x :: x in ids ==> ids[x] in Ids(goals)
      ensures ids == IdsInOrder(Firsts(Carried(old(settled), p.answered, keys)), |old(goals)|)
      ensures settled == RenamedAll(ids, old(settled)) && |goals| == |old(goals)| + |ids|
    {
      hide RelationsOk, HomesOk, Dense, Allotted, Faithful, IdsInOrder, Carried, Firsts;
      ghost var order: seq<string>;
      ids, order := AllotIds(p, keys);
      NamesAllotted(goals, keys, started, settled, ids, order, p);
      AllottedCount(ids, |goals|, order);
      AllottedIs(ids, |goals|, order);
      AppendNamed(|ids|);
      RenamedOk(ids, old(Ids(goals)) + started, settled);
      settled := RenamedAll(ids, settled);
      IdsAfter(old(goals), goals, started, ids, order);
      Untouched(ids, keys, old(settled), p);
    }

    /** Allots ids to the keys that relations carry, in the order inputs and their relations do. */
    method AllotIds(p: Part, keys: set<string>) returns (ids: map<string, string>, ghost order: seq<string>)
      requires forall n :: n in p.answered ==> n in settled
      ensures ids.Keys <= keys && Allotted(ids, |goals|, order)
      ensures forall g :: g in keys && ActedBy(settled, p.answered, g) ==> g in ids
      ensures forall g :: g in ids ==> ActedBy(settled, p.answered, g)
      ensures order == Firsts(Carried(settled, p.answered, keys))
    {
      hide ActsOn, Allotted, IdOf, Firsts, Carried, CarriedBy;
      ids, order := map[], [];
      NothingCarried(settled, p.answered, keys);
      NothingAllotted(|goals|);
      var next := |goals|;
      for k := 0 to |p.answered|
        invariant Allotted(ids, |goals|, order) && next == |goals| + |order| && ids.Keys <= keys
        invariant forall g :: g in keys && ActedBy(settled, p.answered[..k], g) ==> g in ids
        invariant forall g :: g in ids ==> ActedBy(settled, p.answered[..k], g)
        invariant order == Firsts(Carried(settled, p.answered[..k], keys))
      {
        var n := p.answered[k];
        assert n in p.answered;
        ActedNext(settled, p.answered, k);
        CarriedNext(settled, p.answered, k, keys);
        ids, order, next := AllotOf(n, keys, Carried(settled, p.answered[..k], keys), ids, order, next);
      }
      assert p.answered[..|p.answered|] == p.answered;
    }

    /** Allots ids to the keys one input's relations carry. */
    method AllotOf(n: int, keys: set<string>, ghost done: seq<string>, ids0: map<string, string>,
                   ghost order0: seq<string>, next0: nat)
      returns (ids: map<string, string>, ghost order: seq<string>, next: nat)
      requires n in settled && Allotted(ids0, |goals|, order0) && next0 == |goals| + |order0| && ids0.Keys <= keys
      requires order0 == Firsts(done)
      ensures Allotted(ids, |goals|, order) && next == |goals| + |order| && ids.Keys <= keys && ids0.Keys <= ids.Keys
      ensures forall g :: g in keys && ActsOn(settled, n, g) ==> g in ids
      ensures forall g :: g in ids ==> g in ids0 || ActsOn(settled, n, g)
      ensures order == Firsts(done + CarriedBy(settled[n], keys))
    {
      hide Allotted, IdOf, Firsts, CarriedBy;
      ids, order, next := ids0, order0, next0;
      var rs := settled[n];
      NoneCarried(done, rs, keys);
      for i := 0 to |rs|
        invariant Allotted(ids, |goals|, order) && next == |goals| + |order| && ids.Keys <= keys
        invariant ids0.Keys <= ids.Keys
        invariant forall j :: 0 <= j < i && rs[j].goal in keys ==> rs[j].goal in ids
        invariant forall g :: g in ids ==> g in ids0 || ActsOn(settled, n, g)
        invariant order == Firsts(done + CarriedBy(rs[..i], keys))
      {
        OneMoreCarried(done, rs, i, keys);
        InAllotted(ids, |goals|, order, rs[i].goal);
        if rs[i].goal in keys && rs[i].goal !in ids {
          AllottedNext(ids, |goals|, order, rs[i].goal);
          assert ActsOn(settled, n, rs[i].goal);
          ids := ids[rs[i].goal := IdOf(next + 1)];
          order := order + [rs[i].goal];
          next := next + 1;
        }
      }
      assert rs[..|rs|] == rs;
    }

    /** Adds this many goals, each with its id and nothing else. */
    method AppendNamed(count: nat)
      requires Dense(goals) && HomesOk(goals)
      modifies this`goals
      ensures Dense(goals) && HomesOk(goals) && |goals| == |old(goals)| + count && goals[..|old(goals)|] == old(goals)
      ensures forall k :: |old(goals)| <= k < |goals| ==> goals[k] == Goal(goals[k].id, [], "", 0)
    {
      for c := 0 to count
        invariant Dense(goals) && HomesOk(goals) && |goals| == |old(goals)| + c && goals[..|old(goals)|] == old(goals)
        invariant forall k :: |old(goals)| <= k < |goals| ==> goals[k] == Goal(goals[k].id, [], "", 0)
      {
        goals := goals + [Goal(IdOf(|goals| + 1), [], "", 0)];
      }
    }

    /** Places each entry's targets, and settles each goal's main. */
    method PlaceTargets(p: Part, found: set<string>, ids: map<string, string>)
      requires Dense(goals) && HomesOk(goals) && "" !in found
      requires forall x :: x in p.resolve ==> p.resolve[x] != ""
      modifies this`goals
      ensures Dense(goals) && HomesOk(goals) && |goals| == |old(goals)|
      ensures forall k :: 0 <= k < |goals| ==>
                goals[k].id == old(goals)[k].id && old(goals)[k].members <= goals[k].members
      ensures forall k, t :: 0 <= k < |goals| && t in goals[k].members && t !in old(goals)[k].members ==>
                t in p.creator && ActsOn(settled, p.creator[t], goals[k].id)
      ensures EntriesHomed(p, found, ids, settled, goals, |p.entries|)
    {
      hide ActsOn, HomesOk, Dense, GoalIdOf, Homed, EntriesHomed, KeysGiven, IdOf;
      var given: set<string> := {};
      NobodyHomed(p, found, ids, settled, goals);
      for e := 0 to |p.entries|
        invariant Dense(goals) && HomesOk(goals) && |goals| == |old(goals)|
        invariant forall k :: 0 <= k < |goals| ==>
                    goals[k].id == old(goals)[k].id && old(goals)[k].members <= goals[k].members
        invariant forall k, t :: 0 <= k < |goals| && t in goals[k].members && t !in old(goals)[k].members ==>
                    t in p.creator && ActsOn(settled, p.creator[t], goals[k].id)
        invariant given == KeysGiven(p.entries[..e], found)
        invariant EntriesHomed(p, found, ids, settled, goals, e)
      {
        GivenNext(p.entries, e, found);
        ghost var before := goals;
        given := PlaceNamed(p, found, ids, given, e);
        MoreHomed(p, found, ids, settled, before, goals, e);
      }
    }

    /** Reads which goal the entry at e is of, and places its targets there. */
    method PlaceNamed(p: Part, found: set<string>, ids: map<string, string>, given: set<string>, e: nat)
      returns (more: set<string>)
      requires e < |p.entries| && Dense(goals) && HomesOk(goals) && "" !in found
      requires given == KeysGiven(p.entries[..e], found)
      requires forall x :: x in p.resolve ==> p.resolve[x] != ""
      modifies this`goals
      ensures Dense(goals) && HomesOk(goals) && |goals| == |old(goals)|
      ensures forall k :: 0 <= k < |goals| ==>
                goals[k].id == old(goals)[k].id && old(goals)[k].members <= goals[k].members
      ensures forall k, t :: 0 <= k < |goals| && t in goals[k].members && t !in old(goals)[k].members ==>
                t in p.creator && ActsOn(settled, p.creator[t], goals[k].id)
      ensures EntryHomed(p, found, ids, settled, goals, e)
      ensures more == given + var key := KeyOf(p.entries[e], found); if key != "" && key !in found then {key} else {}
    {
      hide ActsOn, HomesOk, Dense, GoalIdOf, Homed, KeysGiven, IdOf;
      var id;
      id, more := GoalOf(p.entries[e], found, ids, given);
      if id !in Ids(goals) { return; }
      var k: nat :| 0 <= k < |goals| && goals[k].id == id;
      PlaceEntry(p, k, p.entries[e]);
      SameIds(old(goals), goals);
    }

    /** Places one entry's targets, then settles its goal's main. */
    method PlaceEntry(p: Part, k: nat, entry: GoalEntry)
      requires k < |goals| && Dense(goals) && HomesOk(goals)
      requires forall x :: x in p.resolve ==> p.resolve[x] != ""
      modifies this`goals
      ensures Dense(goals) && HomesOk(goals) && |goals| == |old(goals)|
      ensures goals == old(goals)[k := goals[k]] && goals[k].id == old(goals)[k].id
      ensures old(goals)[k].members <= goals[k].members
      ensures forall t :: t in goals[k].members && t !in old(goals)[k].members ==>
                t in p.creator && ActsOn(settled, p.creator[t], goals[k].id)
      ensures Homed(p, settled, goals, goals[k].id, entry.members)
      ensures MainSays(p, old(goals)[k], entry, goals[k])
    {
      hide ActsOn, HomesUnique, IdOf, Homed, MainSays;
      assert MainOk(goals[k]);
      PlaceMembers(p, k, entry.members);
      ghost var mid := goals;
      SettleMain(p, k, entry);
      StillHomed(p, settled, mid, goals, goals[k].id, entry.members);
      MainSaysSame(p, old(goals)[k], mid[k], entry, goals[k]);
    }

    /** Adds to goal k the targets named that are in no goal and whose first input relates to it. */
    method PlaceMembers(p: Part, k: nat, names: seq<string>)
      requires k < |goals| && HomesUnique(goals)
      requires forall x :: x in p.resolve ==> p.resolve[x] != ""
      modifies this`goals
      ensures HomesUnique(goals) && |goals| == |old(goals)|
      ensures goals == old(goals)[k := old(goals)[k].(members := goals[k].members)]
      ensures old(goals)[k].members <= goals[k].members
      ensures forall t :: t in goals[k].members && t !in old(goals)[k].members ==>
                t in p.creator && ActsOn(settled, p.creator[t], goals[k].id)
      ensures Homed(p, settled, goals, goals[k].id, names)
    {
      hide ActsOn, HomesUnique, AtHome, HomedOrNot;
      for i := 0 to |names|
        invariant HomesUnique(goals) && |goals| == |old(goals)|
        invariant goals == old(goals)[k := old(goals)[k].(members := goals[k].members)]
        invariant old(goals)[k].members <= goals[k].members
        invariant forall t :: t in goals[k].members && t !in old(goals)[k].members ==>
                    t in p.creator && ActsOn(settled, p.creator[t], goals[k].id)
        invariant Homed(p, settled, goals, goals[k].id, names[..i])
      {
        if names[i] !in p.resolve { continue; }
        var t := p.resolve[names[i]];
        NotHomed(p, settled, goals, goals[k].id, t);
        if AtHome(goals, t) || t !in p.creator || !ActsOn(settled, p.creator[t], goals[k].id) { continue; }
        HomeAdded(goals, k, t);
        ghost var before := goals;
        goals := goals[k := goals[k].(members := goals[k].members + [t])];
        NowHomed(p, settled, before, goals, k, goals[k].id, names[..i], t);
      }
      assert names[..|names|] == names;
    }

    /** Settles goal k's main: a member still wanted, which the person's words show when there are several. */
    method SettleMain(p: Part, k: nat, e: GoalEntry)
      requires k < |goals| && HomesUnique(goals)
      requires forall l :: 0 <= l < |goals| && l != k ==> MainOk(goals[l])
      requires goals[k].main != "" ==> goals[k].main in goals[k].members
      modifies this`goals
      ensures HomesOk(goals) && |goals| == |old(goals)|
      ensures goals == old(goals)[k := old(goals)[k].(main := goals[k].main, mainCites := goals[k].mainCites)]
      ensures MainSays(p, old(goals)[k], e, goals[k])
    {
      var g := goals[k];
      if e.undetermined {
        g := g.(main := "", mainCites := 0);
      } else if e.main != "" {
        var t := if e.main in p.resolve then p.resolve[e.main] else "";
        if t !in g.members || t in p.unwanted || (|g.members| > 1 && e.cites == 0) {
          g := g.(main := "", mainCites := 0);
        } else {
          g := g.(main := t, mainCites := e.cites);
        }
      }
      if g.main != "" && |g.members| > 1 && g.mainCites == 0 {
        g := g.(main := "");
      }
      MainSettled(goals, k, g);
      goals := goals[k := g];
    }
  }

  /** Reads which goal an entry is of, and notes the key it gives. */
  method GoalOf(e: GoalEntry, found: set<string>, ids: map<string, string>, given: set<string>)
    returns (id: string, more: set<string>)
    requires "" !in found
    ensures id == GoalIdOf(e, found, ids, given)
    ensures more == given + if KeyOf(e, found) != "" && KeyOf(e, found) !in found then {KeyOf(e, found)} else {}
  {
    var own, key := e.id, e.key;
    more := given;
    if own != "" && key == "" && own !in found { own, key := "", own; }
    if own != "" && key != "" {
      own, key := "", "";
    } else if key != "" {
      if key in found || key in given { key := ""; } else { more := given + {key}; }
    }
    id := if key != "" then (if key in ids then ids[key] else "") else own;
  }

  /**
   An entry that names a goal found before is of that goal; one that alone gives a key a relation
   started is of the goal started.
   */
  lemma EntryNames(e: GoalEntry, found: set<string>, ids: map<string, string>, given: set<string>)
    requires "" !in found
    ensures e.key == "" && e.id in found ==> GoalIdOf(e, found, ids, given) == e.id
    ensures e.id == "" && e.key in ids && e.key !in found && e.key !in given && e.key != "" ==>
              GoalIdOf(e, found, ids, given) == ids[e.key]
    ensures e.key == "" && e.id in ids && e.id !in found && e.id !in given && e.id != "" ==>
              GoalIdOf(e, found, ids, given) == ids[e.id]
    ensures e.id != "" && e.key != "" ==> GoalIdOf(e, found, ids, given) == ""
  {
  }

  /** Every entry of the first n that names a goal has the targets it names at home, where they may be. */
  predicate EntriesHomed(p: Part, found: set<string>, ids: map<string, string>, s: Settled, goals: seq<Goal>, n: nat) {
    forall e :: 0 <= e < n <= |p.entries| ==> EntryHomed(p, found, ids, s, goals, e)
  }

  predicate EntryHomed(p: Part, found: set<string>, ids: map<string, string>, s: Settled, goals: seq<Goal>, e: nat)
    requires e < |p.entries|
  {
    var id := GoalIdOf(p.entries[e], found, ids, KeysGiven(p.entries[..e], found));
    id in Ids(goals) ==> Homed(p, s, goals, id, p.entries[e].members)
  }

  lemma NobodyHomed(p: Part, found: set<string>, ids: map<string, string>, s: Settled, goals: seq<Goal>)
    ensures EntriesHomed(p, found, ids, s, goals, 0) && KeysGiven(p.entries[..0], found) == {}
  {
  }

  lemma GivenNext(es: seq<GoalEntry>, e: nat, found: set<string>)
    requires e < |es|
    ensures KeysGiven(es[..e+1], found) ==
            KeysGiven(es[..e], found) + if KeyOf(es[e], found) != "" && KeyOf(es[e], found) !in found
              then {KeyOf(es[e], found)} else {}
  {
    hide KeyOf;
    assert es[..e+1] == es[..e] + [es[e]];
  }

  /** Goals that only gain members keep every target at home. */
  lemma StillHomed(p: Part, s: Settled, before: seq<Goal>, goals: seq<Goal>, id: string, names: seq<string>)
    requires |before| == |goals| && forall k :: 0 <= k < |goals| ==> before[k].members <= goals[k].members
    ensures Homed(p, s, before, id, names) ==> Homed(p, s, goals, id, names)
  {
    hide ActsOn;
    forall t | AtHome(before, t) ensures AtHome(goals, t) {
      var k :| 0 <= k < |before| && t in before[k].members;
      assert t in goals[k].members;
    }
  }

  lemma MoreHomed(p: Part, found: set<string>, ids: map<string, string>, s: Settled, before: seq<Goal>,
                  goals: seq<Goal>, e: nat)
    requires e < |p.entries| && EntriesHomed(p, found, ids, s, before, e) && |before| == |goals|
    requires forall k :: 0 <= k < |goals| ==> before[k].id == goals[k].id && before[k].members <= goals[k].members
    requires EntryHomed(p, found, ids, s, goals, e)
    ensures EntriesHomed(p, found, ids, s, goals, e + 1)
  {
    hide Homed, GoalIdOf, KeysGiven;
    SameIds(before, goals);
    forall i: nat | i < e + 1 ensures EntryHomed(p, found, ids, s, goals, i) {
      if i < e {
        assert EntryHomed(p, found, ids, s, before, i);
        StillHomed(p, s, before, goals, GoalIdOf(p.entries[i], found, ids, KeysGiven(p.entries[..i], found)),
                   p.entries[i].members);
      }
    }
  }

  lemma NotHomed(p: Part, s: Settled, goals: seq<Goal>, id: string, t: string)
    ensures HomedOrNot(p, s, goals, id, t) <==> AtHome(goals, t) || t !in p.creator || !ActsOn(s, p.creator[t], id)
  {
  }

  lemma NowHomed(p: Part, s: Settled, before: seq<Goal>, goals: seq<Goal>, k: nat, id: string, names: seq<string>,
                 t: string)
    requires k < |before| && goals == before[k := before[k].(members := before[k].members + [t])]
    requires Homed(p, s, before, id, names)
    ensures Homed(p, s, goals, id, names) && HomedOrNot(p, s, goals, id, t)
  {
    hide ActsOn;
    StillHomed(p, s, before, goals, id, names);
    assert t in goals[k].members;
  }

  /**
   What an entry makes a goal's main: none when it is undetermined, the target it names when that is a
   member still wanted and shown, and else what it was where that still stands.
   */
  predicate MainSays(p: Part, before: Goal, e: GoalEntry, after: Goal) {
    var t := if e.main in p.resolve then p.resolve[e.main] else "";
    var several := |after.members| > 1;
    if e.undetermined then after.main == ""
    else if e.main != "" then
      if t in after.members && t !in p.unwanted && (several ==> e.cites > 0) then after.main == t
        && after.mainCites == e.cites
      else after.main == ""
    else if several && before.mainCites == 0 then after.main == ""
    else after.main == before.main && after.mainCites == before.mainCites
  }

  lemma MainSaysSame(p: Part, before: Goal, mid: Goal, e: GoalEntry, after: Goal)
    requires before.main == mid.main && before.mainCites == mid.mainCites
    ensures MainSays(p, mid, e, after) <==> MainSays(p, before, e, after)
  {
  }

  /** What was placed on goals named is what joined the goals there were, or one started since. */
  lemma Placed(before: seq<Goal>, named: seq<Goal>, goals: seq<Goal>, s: Settled, p: Part)
    requires |before| <= |named| == |goals| && named[..|before|] == before
    requires forall k :: |before| <= k < |named| ==> named[k].members == []
    requires forall k :: 0 <= k < |goals| ==> goals[k].id == named[k].id && named[k].members <= goals[k].members
    requires forall k, t :: 0 <= k < |goals| && t in goals[k].members && t !in named[k].members ==>
               t in p.creator && ActsOn(s, p.creator[t], goals[k].id)
    ensures forall k :: 0 <= k < |before| ==> goals[k].id == before[k].id && before[k].members <= goals[k].members
    ensures forall k, t :: 0 <= k < |goals| && t in goals[k].members && !(k < |before| && t in before[k].members) ==>
              t in p.creator && ActsOn(s, p.creator[t], goals[k].id)
  {
    hide ActsOn;
    assert forall k :: 0 <= k < |before| ==> named[k] == named[..|before|][k];
  }

  lemma NoEmptyId(goals: seq<Goal>)
    requires Dense(goals)
    ensures "" !in Ids(goals)
  {
    forall k | 0 <= k < |goals| ensures goals[k].id != "" { IdsDiffer(k + 1, 0); }
  }

  lemma KeysAreNew(p: Part, known: set<string>)
    ensures KeysOf(p, known) !! known && "" !in KeysOf(p, known)
  {
  }

  lemma NothingCarried(s: Settled, nodes: seq<int>, keys: set<string>)
    ensures Firsts(Carried(s, nodes[..0], keys)) == []
  {
  }

  lemma CarriedNext(s: Settled, nodes: seq<int>, k: nat, keys: set<string>)
    requires k < |nodes| && nodes[k] in s
    ensures Carried(s, nodes[..k+1], keys) == Carried(s, nodes[..k], keys) + CarriedBy(s[nodes[k]], keys)
  {
    assert nodes[..k+1][..k] == nodes[..k];
  }

  lemma NoneCarried(done: seq<string>, rs: seq<Relation>, keys: set<string>)
    ensures Firsts(done + CarriedBy(rs[..0], keys)) == Firsts(done)
  {
    assert done + [] == done;
  }

  lemma OneMoreCarried(done: seq<string>, rs: seq<Relation>, i: nat, keys: set<string>)
    requires i < |rs|
    ensures var before := Firsts(done + CarriedBy(rs[..i], keys));
      Firsts(done + CarriedBy(rs[..i+1], keys)) == if rs[i].goal in keys && rs[i].goal !in before
        then before + [rs[i].goal] else before
  {
    assert rs[..i+1][..i] == rs[..i];
    var all := done + CarriedBy(rs[..i], keys);
    if rs[i].goal in keys {
      assert done + CarriedBy(rs[..i+1], keys) == all + [rs[i].goal];
      assert (all + [rs[i].goal])[..|all|] == all;
    } else {
      assert done + CarriedBy(rs[..i+1], keys) == all;
    }
  }

  lemma InAllotted(ids: map<string, string>, n: nat, order: seq<string>, g: string)
    requires Allotted(ids, n, order)
    ensures g in ids <==> g in order
  {
    hide IdOf;
  }

  /** Ids allotted in an order are the next free ones in that order. */
  lemma {:induction false} AllottedIs(ids: map<string, string>, n: nat, order: seq<string>)
    requires Allotted(ids, n, order)
    ensures ids == IdsInOrder(order, n)
  {
    hide IdOf;
    IdsAt(order, n);
  }

  lemma {:induction false} IdsAt(order: seq<string>, n: nat)
    requires forall i, j :: 0 <= i < j < |order| ==> order[i] != order[j]
    ensures forall g :: g in IdsInOrder(order, n) <==> g in order
    ensures forall i :: 0 <= i < |order| ==> IdsInOrder(order, n)[order[i]] == IdOf(n + i + 1)
  {
    hide IdOf, IdsInOrder;
    LastId(order, n);
    if order != [] {
      var m := |order| - 1;
      IdsAt(order[..m], n);
      assert order == order[..m] + [order[m]];
      forall i | 0 <= i < m ensures IdsInOrder(order, n)[order[i]] == IdOf(n + i + 1) {
        assert order[..m][i] == order[i] && order[i] != order[m];
      }
    }
  }

  lemma LastId(order: seq<string>, n: nat)
    ensures IdsInOrder(order, n) == if order ==
              [] then map[] else IdsInOrder(order[..|order|-1], n)[order[|order|-1] := IdOf(n + |order|)]
  {
    hide IdOf;
  }

  /** Some goal lists a target. */
  predicate AtHome(goals: seq<Goal>, t: string) {
    exists k :: 0 <= k < |goals| && t in goals[k].members
  }

  lemma HomeAdded(goals: seq<Goal>, k: nat, t: string)
    requires k < |goals| && HomesUnique(goals) && !AtHome(goals, t)
    ensures HomesUnique(goals[k := goals[k].(members := goals[k].members + [t])])
  {
  }

  lemma MainSettled(goals: seq<Goal>, k: nat, g: Goal)
    requires k < |goals| && HomesUnique(goals) && MainOk(g) && g.members == goals[k].members
    requires forall l :: 0 <= l < |goals| && l != k ==> MainOk(goals[l])
    ensures HomesOk(goals[k := g])
  {
    var after := goals[k := g];
    assert forall l :: 0 <= l < |after| ==> after[l].members == goals[l].members;
  }

  /** The ids allotted are the next free ones, in this order of keys. */
  ghost predicate Allotted(ids: map<string, string>, n: nat, order: seq<string>) {
    && (forall i :: 0 <= i < |order| ==> order[i] in ids && ids[order[i]] == IdOf(n + i + 1))
    && (forall g :: g in ids ==> g in order)
    && (forall i, j :: 0 <= i < j < |order| ==> order[i] != order[j])
  }

  /** Some of these inputs has a relation to a goal. */
  predicate ActedBy(s: Settled, nodes: seq<int>, g: string) {
    exists n :: n in nodes && ActsOn(s, n, g)
  }

  lemma SameIds(a: seq<Goal>, b: seq<Goal>)
    requires |a| == |b| && forall k :: 0 <= k < |a| ==> a[k].id == b[k].id
    ensures Ids(a) == Ids(b)
  {
    forall x | x in Ids(a) ensures x in Ids(b) {
      var k :| 0 <= k < |a| && a[k].id == x;
      assert b[k].id == x;
    }
    forall x | x in Ids(b) ensures x in Ids(a) {
      var k :| 0 <= k < |b| && b[k].id == x;
      assert a[k].id == x;
    }
  }

  lemma StartedAreKeys(keys: set<string>, started: set<string>, s: Settled, node: int, out: seq<Relation>)
    requires Settling(keys, started, s, node, out)
    ensures StartedBy(out) <= keys
  {
    hide ActsOn;
    forall g | g in StartedBy(out) ensures g in keys {
      var i :| 0 <= i < |out| && out[i].kind == New && out[i].goal == g;
      assert FineFor(keys, started, s, node, out[i]);
    }
  }

  lemma AllottedNext(ids: map<string, string>, n: nat, order: seq<string>, g: string)
    requires Allotted(ids, n, order) && g !in ids
    ensures Allotted(ids[g := IdOf(n + |order| + 1)], n, order + [g])
  {
    hide IdOf;
    var more := order + [g];
    forall x | x in ids[g := IdOf(n + |order| + 1)] ensures x in more {
      assert more[|order|] == g;
    }
    forall i | 0 <= i < |order| ensures order[i] != g { assert order[i] in ids; }
  }

  lemma NothingAllotted(n: nat)
    ensures Allotted(map[], n, [])
  {
  }

  lemma AllottedCount(ids: map<string, string>, n: nat, order: seq<string>)
    requires Allotted(ids, n, order)
    ensures |ids| == |order|
  {
    hide IdOf;
    assert ids.Keys == set g | g in order;
    Distinct(order);
  }

  lemma {:induction false} Distinct(s: seq<string>)
    requires forall i, j :: 0 <= i < j < |s| ==> s[i] != s[j]
    ensures |set g | g in s| == |s|
  {
    if s != [] {
      var n := |s| - 1;
      Distinct(s[..n]);
      assert s == s[..n] + [s[n]];
      assert (set g | g in s) == (set g | g in s[..n]) + {s[n]};
      assert s[n] !in s[..n];
    }
  }

  lemma ActedNext(s: Settled, nodes: seq<int>, k: nat)
    requires k < |nodes|
    ensures forall g :: ActedBy(s, nodes[..k+1], g) <==> ActedBy(s, nodes[..k], g) || ActsOn(s, nodes[k], g)
  {
    hide ActsOn;
    var a, b := nodes[..k], nodes[..k+1];
    assert b == a + [nodes[k]];
    forall g ensures ActedBy(s, b, g) <==> ActedBy(s, a, g) || ActsOn(s, nodes[k], g) {
      if ActedBy(s, a, g) {
        var n :| n in a && ActsOn(s, n, g);
        assert n in b;
      }
      assert nodes[k] in b;
    }
  }

  /** The names allotted are exactly those started, and they tell every goal apart. */
  lemma {:induction false} NamesAllotted(goals: seq<Goal>, keys: set<string>, started: set<string>, s: Settled,
                                         ids: map<string, string>, order: seq<string>, p: Part)
    requires Dense(goals) && keys !! Ids(goals) && "" !in keys && started <= keys
    requires RelationsOk(Ids(goals) + started, s)
    requires forall n, i :: n in s && n !in p.answered && 0 <= i < |s[n]| ==> s[n][i].goal !in keys
    requires ids.Keys <= keys && Allotted(ids, |goals|, order)
    requires forall g :: g in keys && ActedBy(s, p.answered, g) ==> g in ids
    requires forall g :: g in ids ==> ActedBy(s, p.answered, g)
    ensures ids.Keys == started && Faithful(ids, Ids(goals) + started)
  {
    hide RelationsOk, Dense, ActsOn, Allotted, Faithful;
    forall g | g in ids ensures g in started {
      var n :| n in p.answered && ActsOn(s, n, g);
      ActsOnKnown(Ids(goals) + started, s, n, g);
    }
    forall g | g in started ensures g in ids {
      StartedSomewhere(Ids(goals) + started, s, g);
      var n, i :| Starts(s, n, i, g);
      StartsActs(s, n, i, g);
      assert n in p.answered;
    }
    FaithfulIds(goals, started, s, ids, order);
  }

  lemma StartsActs(s: Settled, n: int, i: int, g: string)
    requires Starts(s, n, i, g)
    ensures ActsOn(s, n, g) && n in s && 0 <= i < |s[n]| && s[n][i].goal == g
  {
  }

  lemma StartedSomewhere(names: set<string>, s: Settled, g: string)
    requires RelationsOk(names, s) && g in names
    ensures (exists n, i :: Starts(s, n, i, g)) && g != ""
  {
    hide RelationOk;
    assert StartedOnce(s, g);
    var n, i :| StartsFirst(s, g, n, i);
  }

  lemma FaithfulIds(goals: seq<Goal>, started: set<string>, s: Settled, ids: map<string, string>, order: seq<string>)
    requires Dense(goals) && RelationsOk(Ids(goals) + started, s) && started !! Ids(goals)
    requires ids.Keys == started && Allotted(ids, |goals|, order)
    ensures Faithful(ids, Ids(goals) + started)
  {
    hide RelationsOk, IdOf, Dense, Allotted;
    var names := Ids(goals) + started;
    forall g | g in names ensures g != "" { StartedSomewhere(names, s, g); }
    forall g | g in ids ensures ids[g] != "" { NewId(goals, ids, order, g, g); }
    forall g, h | g in names && h in names && Renamed(ids, g) == Renamed(ids, h) ensures g == h {
      if g in ids { NewId(goals, ids, order, g, h); }
      if h in ids { NewId(goals, ids, order, h, g); }
    }
  }

  /** A new id is no goal's found before, and no other new goal's. */
  lemma NewId(goals: seq<Goal>, ids: map<string, string>, order: seq<string>, g: string, h: string)
    requires Dense(goals) && Allotted(ids, |goals|, order) && g in ids
    ensures ids[g] != "" && (h in ids && ids[g] == ids[h] ==> g == h) && (h in Ids(goals) ==> ids[g] != h)
  {
    hide IdOf;
    var i :| 0 <= i < |order| && order[i] == g;
    IdsDiffer(|goals| + i + 1, 0);
    if h in ids {
      var j :| 0 <= j < |order| && order[j] == h;
      IdsDiffer(|goals| + i + 1, |goals| + j + 1);
    }
    if h in Ids(goals) {
      var j :| 0 <= j < |goals| && goals[j].id == h;
      IdsDiffer(|goals| + i + 1, j + 1);
    }
  }

  /** The goals there are then have exactly the names there were, renamed. */
  lemma IdsAfter(before: seq<Goal>, goals: seq<Goal>, started: set<string>, ids: map<string, string>,
                 order: seq<string>)
    requires Dense(goals) && |goals| == |before| + |order| && goals[..|before|] == before
    requires ids.Keys == started && started !! Ids(before) && Allotted(ids, |before|, order)
    ensures Ids(goals) == set g | g in Ids(before) + started :: Renamed(ids, g)
    ensures forall x :: x in ids ==> ids[x] in Ids(goals)
  {
    hide IdOf;
    var after := set g | g in Ids(before) + started :: Renamed(ids, g);
    forall x | x in ids ensures ids[x] in Ids(goals) {
      var i :| 0 <= i < |order| && order[i] == x;
      assert goals[|before| + i].id == ids[x];
    }
    forall x | x in Ids(goals) ensures x in after {
      var k :| 0 <= k < |goals| && goals[k].id == x;
      if k < |before| {
        assert before[k] == goals[k] && x in Ids(before) && Renamed(ids, x) == x;
      } else {
        var g := order[k - |before|];
        assert Renamed(ids, g) == x && g in started;
      }
    }
    forall x | x in after ensures x in Ids(goals) {
      var g :| g in Ids(before) + started && Renamed(ids, g) == x;
      if g !in ids {
        var k :| 0 <= k < |before| && before[k].id == g;
        assert goals[k] == before[k];
      }
    }
  }

  lemma Untouched(ids: map<string, string>, keys: set<string>, s: Settled, p: Part)
    requires ids.Keys <= keys
    requires forall n, i :: n in s && n !in p.answered && 0 <= i < |s[n]| ==> s[n][i].goal !in keys
    ensures forall n :: n in s && n !in p.answered ==> RenamedAll(ids, s)[n] == s[n]
  {
  }

  /** What was settled before names no key. */
  lemma OldGoals(known: set<string>, keys: set<string>, s: Settled)
    requires RelationsOk(known, s) && keys !! known && "" !in keys
    ensures forall n, i :: n in s && 0 <= i < |s[n]| ==> s[n][i].goal !in keys
  {
    hide StartedOnce;
    forall n, i | n in s && 0 <= i < |s[n]| ensures s[n][i].goal !in keys {
      assert RelationOk(known, s, n, s[n][i]);
    }
  }
}
