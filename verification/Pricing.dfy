/**
 Prices by model and date. Each call pays the latest price in force at its
 time; the prices a ledger noted are enough to price its calls again the same.
 */
module Pricing {
  import opened StableSort

  datatype Option<T> = None | Some(value: T)

  datatype Rates = Rates(input: real, output: real, cacheRead: real, cacheWrite: real)

  /** The price of one model, under its name and aliases, from a time on; from is "" for one that is not dated. */
  datatype Entry = Entry(model: string, aliases: seq<string>, from: string, rates: Rates)

  /** A price a call pays: the name the call recorded, the model priced, when the price began, and the rates. */
  datatype Price = Price(model: string, key: string, from: string, currency: string, rates: Rates)

  datatype File = File(currency: string, models: seq<Entry>)

  /** How a date is read, as nanoseconds of the epoch; None for one that is not a date. */
  type Clock = string -> Option<int>

  /** The zero time, which an undated entry has. */
  const ZERO := -62135596800000000000

  function TimeOf(clock: Clock, e: Entry): int {
    if e.from != "" && clock(e.from).Some? then clock(e.from).value else ZERO
  }

  function Names(e: Entry): seq<string> {
    [e.model] + e.aliases
  }

  // ---------------------------------------------------------------------
  // Checking a price file.
  // ---------------------------------------------------------------------

  predicate Dated(clock: Clock, e: Entry) {
    e.model != "" && (e.from != "" ==> clock(e.from).Some?)
  }

  predicate NoneTwice(models: seq<Entry>) {
    forall j, k :: 0 <= j < k < |models| ==> models[j].model != models[k].model || models[j].from != models[k].from
  }

  /** A name names one model. */
  predicate OneModel(models: seq<Entry>) {
    forall j, k, n :: 0 <= j < |models| && 0 <= k < |models| && n in Names(models[j]) && n in Names(models[k]) ==>
      models[j].model == models[k].model
  }

  /** A file that can be used: dated rightly, no price twice, and no name of two models. */
  predicate Usable(clock: Clock, f: File) {
    && f.currency != ""
    && (forall k :: 0 <= k < |f.models| ==> Dated(clock, f.models[k]))
    && NoneTwice(f.models) && OneModel(f.models)
  }

  /** The model each name of these entries names. */
  ghost predicate Owned(models: seq<Entry>, owner: map<string, string>) {
    && (forall k, n :: 0 <= k < |models| && n in Names(models[k]) ==> n in owner && owner[n] == models[k].model)
    && (forall n :: n in owner ==> Named(models, n, owner[n]))
  }

  predicate Listed(models: seq<Entry>, m: string, from: string) {
    exists k :: 0 <= k < |models| && models[k].model == m && models[k].from == from
  }

  /** Checks a price file as it is read, entry by entry. */
  method Check(clock: Clock, f: File) returns (ok: bool)
    ensures ok <==> Usable(clock, f)
  {
    hide Usable, Owned, Dated, Listed;
    if f.currency == "" { NeedsCurrency(clock, f); return false; }
    var owner: map<string, string> := map[];
    var seen: set<(string, string)> := {};
    NothingRead(clock, f);
    for i := 0 to |f.models|
      invariant Usable(clock, File(f.currency, f.models[..i]))
      invariant forall m, from :: (m, from) in seen <==> Listed(f.models[..i], m, from)
      invariant Owned(f.models[..i], owner)
    {
      var e := f.models[i];
      EntryUsable(clock, f, i, owner);
      if e.model == "" || (e.from != "" && clock(e.from).None?) || (e.model, e.from) in seen { return false; }
      var free, more := Claim(e, owner);
      if !free { return false; }
      ListedNext(f.models, i);
      OwnedNext(f.models, i, owner, more);
      owner := more;
      seen := seen + {(e.model, e.from)};
    }
    assert f.models[..|f.models|] == f.models && File(f.currency, f.models) == f;
    ok := true;
  }

  /** Claims an entry's names for its model, unless one names another. */
  method Claim(e: Entry, owner: map<string, string>) returns (free: bool, more: map<string, string>)
    ensures free <==> forall n :: n in Names(e) && n in owner ==> owner[n] == e.model
    ensures free ==> forall n :: n in more <==> n in owner || n in Names(e)
    ensures free ==> forall n :: n in more ==> more[n] == if n in Names(e) then e.model else owner[n]
  {
    hide Names;
    var names := Names(e);
    more := owner;
    for j := 0 to |names|
      invariant forall n :: n in names[..j] && n in owner ==> owner[n] == e.model
      invariant forall n :: n in more <==> n in owner || n in names[..j]
      invariant forall n :: n in more ==> more[n] == if n in names[..j] then e.model else owner[n]
    {
      assert names[j] in names;
      if names[j] in more && more[names[j]] != e.model { return false, more; }
      more := more[names[j] := e.model];
    }
    assert names[..|names|] == names;
    free := true;
  }

  lemma NeedsCurrency(clock: Clock, f: File)
    requires f.currency == ""
    ensures !Usable(clock, f)
  {
  }

  lemma NothingRead(clock: Clock, f: File)
    ensures f.currency != "" ==> Usable(clock, File(f.currency, f.models[..0]))
    ensures Owned(f.models[..0], map[]) && forall m, from :: !Listed(f.models[..0], m, from)
  {
  }

  lemma ListedNext(models: seq<Entry>, i: nat)
    requires i < |models|
    ensures forall m, from :: Listed(models[..i+1], m, from) <==>
              Listed(models[..i], m, from) || (m == models[i].model && from == models[i].from)
  {
    var a, b := models[..i], models[..i+1];
    forall m, from
      ensures Listed(b, m, from) <==> Listed(a, m, from) || (m == models[i].model && from == models[i].from)
    {
      if Listed(a, m, from) {
        var k :| 0 <= k < |a| && a[k].model == m && a[k].from == from;
        assert b[k] == a[k];
      }
      assert b[i] == models[i];
    }
  }

  lemma {:induction false} OwnedNext(models: seq<Entry>, i: nat, owner: map<string, string>, more: map<string, string>)
    requires i < |models| && Owned(models[..i], owner)
    requires forall n :: n in Names(models[i]) && n in owner ==> owner[n] == models[i].model
    requires forall n :: n in more <==> n in owner || n in Names(models[i])
    requires forall n :: n in more ==> more[n] == if n in Names(models[i]) then models[i].model else owner[n]
    ensures Owned(models[..i+1], more)
  {
    hide Names;
    var a, b := models[..i], models[..i+1];
    forall n | n in more ensures Named(b, n, more[n]) {
      if n in owner {
        var k :| 0 <= k < |a| && n in Names(a[k]) && a[k].model == owner[n];
        assert b[k] == a[k];
      }
      assert b[i] == models[i];
    }
    forall k, n | 0 <= k < |b| && n in Names(b[k]) ensures n in more && more[n] == b[k].model {
      assert k < i ==> b[k] == a[k];
    }
  }

  /**
   What the entries before say of the next one: the file stays usable exactly when it is dated, new, and
   its names are free.
   */
  lemma {:induction false} EntryUsable(clock: Clock, f: File, i: nat, owner: map<string, string>)
    requires i < |f.models| && Usable(clock, File(f.currency, f.models[..i])) && Owned(f.models[..i], owner)
    ensures var e := f.models[i];
            Dated(clock, e) && !Listed(f.models[..i], e.model, e.from)
              && (forall n :: n in Names(e) && n in owner ==> owner[n] == e.model)
            <==> Usable(clock, File(f.currency, f.models[..i+1]))
    ensures Dated(clock, f.models[i]) <==>
              f.models[i].model != "" && (f.models[i].from != "" ==> clock(f.models[i].from).Some?)
    ensures Usable(clock, f) ==> Usable(clock, File(f.currency, f.models[..i+1]))
  {
    hide Names;
    var a, b, e := f.models[..i], f.models[..i+1], f.models[i];
    assert b == a + [e];
    if Dated(clock, e) && !Listed(a, e.model, e.from)
      && (forall n :: n in Names(e) && n in owner ==> owner[n] == e.model) {
      NoneTwiceMore(a, e);
      OneModelMore(a, e, owner);
    }
    if Usable(clock, File(f.currency, b)) {
      NoneTwiceLess(a, e);
      OneModelLess(a, e, owner);
    }
  }

  lemma NoneTwiceMore(a: seq<Entry>, e: Entry)
    requires NoneTwice(a) && !Listed(a, e.model, e.from)
    ensures NoneTwice(a + [e])
  {
  }

  lemma NoneTwiceLess(a: seq<Entry>, e: Entry)
    requires NoneTwice(a + [e])
    ensures !Listed(a, e.model, e.from)
  {
    var b := a + [e];
    forall k | 0 <= k < |a| ensures a[k].model != e.model || a[k].from != e.from {
      assert b[k] == a[k] && b[|a|] == e;
    }
  }

  lemma OneModelMore(a: seq<Entry>, e: Entry, owner: map<string, string>)
    requires OneModel(a) && Owned(a, owner) && forall n :: n in Names(e) && n in owner ==> owner[n] == e.model
    ensures OneModel(a + [e])
  {
    hide Names, Named;
  }

  lemma OneModelLess(a: seq<Entry>, e: Entry, owner: map<string, string>)
    requires OneModel(a + [e]) && Owned(a, owner)
    ensures forall n :: n in Names(e) && n in owner ==> owner[n] == e.model
  {
    hide Names;
    var b := a + [e];
    forall n | n in Names(e) && n in owner ensures owner[n] == e.model {
      assert Named(a, n, owner[n]);
      var k :| 0 <= k < |a| && n in Names(a[k]) && a[k].model == owner[n];
      assert b[k] == a[k] && b[|a|] == e;
    }
  }

  predicate Named(models: seq<Entry>, n: string, m: string) {
    exists k :: 0 <= k < |models| && n in Names(models[k]) && models[k].model == m
  }

  // ---------------------------------------------------------------------
  // Looking up.
  // ---------------------------------------------------------------------

  /** The entries of a name, in file order, those dated or those not. */
  function EntriesOf(clock: Clock, models: seq<Entry>, name: string, dated: bool): (r: seq<Entry>)
    ensures forall e :: e in r <==> e in models && name in Names(e) && (TimeOf(clock, e) != ZERO <==> dated)
  {
    if models == [] then []
    else
      var n := |models| - 1;
      assert models == models[..n] + [models[n]];
      EntriesOf(clock, models[..n], name, dated)
      + if name in Names(models[n]) && (TimeOf(clock, models[n]) != ZERO <==> dated) then [models[n]] else []
  }

  function LatestFirst(clock: Clock): Entry -> int {
    (e: Entry) => -TimeOf(clock, e)
  }

  /** The entries of a name as they are tried: dated ones, the latest first, then the others. */
  function Tried(clock: Clock, models: seq<Entry>, name: string): seq<Entry> {
    Sorted(EntriesOf(clock, models, name, true), LatestFirst(clock)) + EntriesOf(clock, models, name, false)
  }

  /** A price applies to a call at this time, in milliseconds, 0 when the call recorded none. */
  predicate Applies(clock: Clock, e: Entry, at: int) {
    TimeOf(clock, e) == ZERO || (at != 0 && at * 1_000_000 >= TimeOf(clock, e))
  }

  function FirstApplying(clock: Clock, es: seq<Entry>, at: int): (r: Option<Entry>)
    ensures r.Some? ==>
              exists k :: 0 <= k < |es| && es[k] == r.value && Applies(clock, es[k], at)
                          && forall j :: 0 <= j < k ==> !Applies(clock, es[j], at)
    ensures r.None? ==> forall e :: e in es ==> !Applies(clock, e, at)
  {
    if es == [] then None
    else if Applies(clock, es[0], at) then
      assert es[0] == es[0];
      Some(es[0])
    else
      var r := FirstApplying(clock, es[1..], at);
      assert r.Some? ==> exists k :: 0 <= k < |es| && es[k] == r.value && Applies(clock, es[k], at)
                                     && forall j :: 0 <= j < k ==> !Applies(clock, es[j], at) by {
        if r.Some? {
          var k :| 0 <= k < |es[1..]| && es[1..][k] == r.value && Applies(clock, es[1..][k], at)
                   && forall j :: 0 <= j < k ==> !Applies(clock, es[1..][j], at);
          assert es[k+1] == r.value;
          forall j | 0 <= j < k + 1 ensures !Applies(clock, es[j], at) { assert j > 0 ==> es[j] == es[1..][j-1]; }
        }
      }
      assert es == [es[0]] + es[1..];
      r
  }

  /** The entry a call pays by. */
  function EntryFor(clock: Clock, f: File, name: string, at: int): Option<Entry> {
    if name == "" then None else FirstApplying(clock, Tried(clock, f.models, name), at)
  }

  function Lookup(clock: Clock, f: File, name: string, at: int): Option<Price> {
    var e := EntryFor(clock, f, name, at);
    if e.None? then None else Some(Price(name, e.value.model, e.value.from, f.currency, e.value.rates))
  }

  /** A dated price stands before an undated one, and a later before an earlier. */
  predicate Outranks(clock: Clock, a: Entry, b: Entry) {
    TimeOf(clock, a) != ZERO && (TimeOf(clock, b) == ZERO || TimeOf(clock, a) > TimeOf(clock, b))
  }

  lemma {:induction false} TriedAre(clock: Clock, models: seq<Entry>, name: string)
    ensures forall e :: e in Tried(clock, models, name) <==> e in models && name in Names(e)
    ensures forall j, k :: 0 <= j < k < |Tried(clock, models, name)| ==>
              !Outranks(clock, Tried(clock, models, name)[k], Tried(clock, models, name)[j])
  {
    hide Sorted, EntriesOf, Names;
    var dated, rest := EntriesOf(clock, models, name, true), EntriesOf(clock, models, name, false);
    var sorted := Sorted(dated, LatestFirst(clock));
    forall e ensures e in sorted <==> e in dated {
      assert e in multiset(sorted) <==> e in multiset(dated);
    }
    forall j, k | 0 <= j < k < |sorted + rest| ensures !Outranks(clock, (sorted + rest)[k], (sorted + rest)[j]) {
      if k < |sorted| {
        assert LatestFirst(clock)(sorted[j]) <= LatestFirst(clock)(sorted[k]);
      } else {
        assert rest[k - |sorted|] in rest;
      }
    }
  }

  /**
   A call pays the latest price that applies to it: one is found when any applies, and none that applies
   outranks it.
   */
  lemma {:induction false} LatestApplies(clock: Clock, f: File, name: string, at: int)
    requires name != ""
    ensures EntryFor(clock, f, name, at).Some? <==>
              exists e :: e in f.models && name in Names(e) && Applies(clock, e, at)
    ensures EntryFor(clock, f, name, at).Some? ==>
              var e := EntryFor(clock, f, name, at).value;
              && e in f.models && name in Names(e) && Applies(clock, e, at)
              && forall x :: x in f.models && name in Names(x) && Applies(clock, x, at) ==> !Outranks(clock, x, e)
  {
    hide Tried, Names, Applies, Outranks;
    TriedAre(clock, f.models, name);
    var tried := Tried(clock, f.models, name);
    var r := FirstApplying(clock, tried, at);
    if r.Some? {
      var k :| 0 <= k < |tried| && tried[k] == r.value && Applies(clock, tried[k], at)
               && forall j :: 0 <= j < k ==> !Applies(clock, tried[j], at);
      assert tried[k] in tried;
      forall x | x in f.models && name in Names(x) && Applies(clock, x, at) ensures !Outranks(clock, x, r.value) {
        assert x in tried;
        var j :| 0 <= j < |tried| && tried[j] == x;
        assert j >= k;
        if j == k { NotItself(clock, x); }
      }
    }
  }

  lemma NotItself(clock: Clock, e: Entry)
    ensures !Outranks(clock, e, e)
  {
  }

  /** A day's nanoseconds are counted from the epoch, a call's milliseconds too. */
  const NANOS_IN_MILLI := 1000 * 1000

  /**
   A price of a checked file is in force at a call's time: it has no date, or the call has a time and
   not before the date.
   */
  predicate InForce(clock: Clock, e: Entry, at: int) {
    e.from == "" || (clock(e.from).Some? && (clock(e.from).value == ZERO
                                             || (at != 0 && clock(e.from).value <= at * NANOS_IN_MILLI)))
  }

  /** One dated price is in force from later than another, or has a date where the other has none. */
  predicate Later(clock: Clock, a: Entry, b: Entry) {
    && a.from != "" && clock(a.from).Some? && clock(a.from).value != ZERO
    && (b.from == "" || clock(b.from).None? || clock(b.from).value == ZERO || clock(a.from).value > clock(b.from).value)
  }

  lemma ForceIs(clock: Clock, a: Entry, b: Entry, at: int)
    requires Dated(clock, a)
    ensures Applies(clock, a, at) <==> InForce(clock, a, at)
    ensures Outranks(clock, a, b) <==> Later(clock, a, b)
  {
  }

  /** What a call of a model pays under a checked file: the latest of the prices of that name in force at its time. */
  lemma {:induction false} PaysLatest(clock: Clock, f: File, name: string, at: int)
    requires Usable(clock, f) && name != ""
    ensures Lookup(clock, f, name, at).Some? <==>
              exists e :: e in f.models && (e.model == name || name in e.aliases) && InForce(clock, e, at)
    ensures Lookup(clock, f, name, at).Some? ==>
              exists e :: e in f.models && PaidBy(clock, f, name, at, e)
                          && Lookup(clock, f, name, at).value == Price(name, e.model, e.from, f.currency, e.rates)
    ensures Lookup(clock, f, "", at) == None
  {
    hide FirstApplying, Tried, Applies, InForce, Outranks, Later, NoneTwice, OneModel, Dated;
    LatestApplies(clock, f, name, at);
    forall e | e in f.models ensures Applies(clock, e, at) <==> InForce(clock, e, at) {
      DatedIn(clock, f, e);
      ForceIs(clock, e, e, at);
    }
    forall e, x | e in f.models && x in f.models ensures Outranks(clock, e, x) <==> Later(clock, e, x) {
      DatedIn(clock, f, e);
      ForceIs(clock, e, x, at);
    }
    forall e ensures name in Names(e) <==> e.model == name || name in e.aliases { NameIn(e, name); }
    if EntryFor(clock, f, name, at).Some? {
      assert PaidBy(clock, f, name, at, EntryFor(clock, f, name, at).value);
    }
  }

  lemma DatedIn(clock: Clock, f: File, e: Entry)
    requires Usable(clock, f) && e in f.models
    ensures Dated(clock, e)
  {
  }

  lemma NameIn(e: Entry, name: string)
    ensures name in Names(e) <==> e.model == name || name in e.aliases
  {
    assert Names(e)[0] == e.model && Names(e)[1..] == e.aliases;
  }

  /** The price is of the name and in force, and none of the name in force is later. */
  ghost predicate PaidBy(clock: Clock, f: File, name: string, at: int, e: Entry) {
    && (e.model == name || name in e.aliases) && InForce(clock, e, at)
    && forall x :: x in f.models && (x.model == name || name in x.aliases) && InForce(clock, x, at) ==>
      !Later(clock, x, e)
  }

  // ---------------------------------------------------------------------
  // A ledger's own pricing.
  // ---------------------------------------------------------------------

  datatype Call = Call(model: string, at: int)

  predicate SamePrice(p: Price, q: Price) {
    p.model == q.model && p.key == q.key && p.from == q.from
  }

  predicate Noted(ps: seq<Price>, p: Price) {
    exists k :: 0 <= k < |ps| && SamePrice(ps[k], p)
  }

  /** The prices noted while these calls are priced: each once, in the order calls first paid it. */
  function NotedOf(clock: Clock, f: File, calls: seq<Call>): seq<Price> {
    if calls == [] then []
    else
      var before := NotedOf(clock, f, calls[..|calls|-1]);
      var c := calls[|calls|-1];
      var p := Lookup(clock, f, c.model, c.at);
      if p.None? || Noted(before, p.value) then before else before + [p.value]
  }

  /** Prices the calls one by one, noting each price the first time. */
  method PriceCalls(clock: Clock, f: File, calls: seq<Call>) returns (notes: seq<Price>)
    ensures notes == NotedOf(clock, f, calls)
  {
    hide Lookup;
    notes := [];
    for i := 0 to |calls|
      invariant notes == NotedOf(clock, f, calls[..i])
    {
      assert calls[..i+1][..i] == calls[..i];
      var p := Lookup(clock, f, calls[i].model, calls[i].at);
      if p.Some? {
        var known := false;
        for k := 0 to |notes|
          invariant known <==> exists j :: 0 <= j < k && SamePrice(notes[j], p.value)
        {
          if SamePrice(notes[k], p.value) { known := true; }
        }
        assert known <==> Noted(notes, p.value);
        if !known { notes := notes + [p.value]; }
      }
    }
    assert calls[..|calls|] == calls;
  }

  /** The entry a noted price becomes: under the name the call recorded, with no alias. */
  function EntryOf(p: Price): Entry {
    Entry(p.model, [], p.from, p.rates)
  }

  function EntriesOfPrices(ps: seq<Price>): (es: seq<Entry>)
    ensures |es| == |ps| && forall k :: 0 <= k < |ps| ==> es[k] == EntryOf(ps[k])
  {
    seq(|ps|, k requires 0 <= k < |ps| => EntryOf(ps[k]))
  }

  datatype Rebuilt = NoPricing | Mixed | Unusable | Pricing(file: File)

  /** The pricing a ledger's noted prices make. */
  method PricingOf(clock: Clock, notes: seq<Price>) returns (r: Rebuilt)
    ensures r == RebuiltFrom(clock, notes)
  {
    if notes == [] { return NoPricing; }
    for k := 0 to |notes|
      invariant forall j :: 0 <= j < k ==> notes[j].currency == notes[0].currency
    {
      if notes[k].currency != notes[0].currency { return Mixed; }
    }
    var file := File(notes[0].currency, EntriesOfPrices(notes));
    var ok := Check(clock, file);
    return if ok then Pricing(file) else Unusable;
  }

  function RebuiltFrom(clock: Clock, notes: seq<Price>): Rebuilt {
    if notes == [] then NoPricing
    else if exists k :: 0 <= k < |notes| && notes[k].currency != notes[0].currency then Mixed
    else if Usable(clock, File(notes[0].currency, EntriesOfPrices(notes)))
      then Pricing(File(notes[0].currency, EntriesOfPrices(notes)))
    else Unusable
  }

  /** A price noted is one some call paid. */
  ghost predicate Paid(clock: Clock, f: File, calls: seq<Call>, p: Price) {
    exists i :: 0 <= i < |calls| && Lookup(clock, f, calls[i].model, calls[i].at) == Some(p)
  }

  lemma PaidMore(clock: Clock, f: File, calls: seq<Call>, p: Price)
    requires calls != [] && Paid(clock, f, calls[..|calls|-1], p)
    ensures Paid(clock, f, calls, p)
  {
    hide Lookup;
    var i :| 0 <= i < |calls[..|calls|-1]| && Lookup(clock, f, calls[..|calls|-1][i].model,
                                                     calls[..|calls|-1][i].at) == Some(p);
    assert calls[i] == calls[..|calls|-1][i];
  }

  lemma NotedMore(ps: seq<Price>, p: Price, q: Price)
    ensures Noted(ps, p) ==> Noted(ps + [q], p)
    ensures Noted(ps + [p], p)
  {
    if Noted(ps, p) {
      var k :| 0 <= k < |ps| && SamePrice(ps[k], p);
      assert (ps + [q])[k] == ps[k];
    }
    assert (ps + [p])[|ps|] == p;
  }

  /** What is noted is what was paid, each price once. */
  lemma {:induction false} NotesArePaid(clock: Clock, f: File, calls: seq<Call>)
    ensures forall k :: 0 <= k < |NotedOf(clock, f, calls)| ==> Paid(clock, f, calls, NotedOf(clock, f, calls)[k])
    ensures forall j, k :: 0 <= j < k < |NotedOf(clock, f, calls)| ==>
              !SamePrice(NotedOf(clock, f, calls)[j], NotedOf(clock, f, calls)[k])
    ensures forall i :: 0 <= i < |calls| && Lookup(clock, f, calls[i].model, calls[i].at).Some? ==>
              Noted(NotedOf(clock, f, calls), Lookup(clock, f, calls[i].model, calls[i].at).value)
  {
    hide Lookup, Paid, Noted, SamePrice;
    if calls != [] {
      var n := |calls| - 1;
      NotesArePaid(clock, f, calls[..n]);
      var before, after := NotedOf(clock, f, calls[..n]), NotedOf(clock, f, calls);
      var p := Lookup(clock, f, calls[n].model, calls[n].at);
      forall k | 0 <= k < |after| ensures Paid(clock, f, calls, after[k]) {
        if k < |before| { PaidMore(clock, f, calls, before[k]); } else { PaidNow(clock, f, calls, n); }
      }
      forall i | 0 <= i < |calls| && Lookup(clock, f, calls[i].model, calls[i].at).Some?
        ensures Noted(after, Lookup(clock, f, calls[i].model, calls[i].at).value)
      {
        var q := Lookup(clock, f, calls[i].model, calls[i].at).value;
        assert i < n ==> calls[i] == calls[..n][i];
        if p.Some? { NotedMore(before, q, p.value); }
      }
      if p.Some? && !Noted(before, p.value) { NotNoted(before, p.value); }
    }
  }

  lemma {:induction false} PaidNow(clock: Clock, f: File, calls: seq<Call>, i: nat)
    requires i < |calls| && Lookup(clock, f, calls[i].model, calls[i].at).Some?
    ensures Paid(clock, f, calls, Lookup(clock, f, calls[i].model, calls[i].at).value)
  {
    hide Lookup;
  }

  lemma NotNoted(ps: seq<Price>, p: Price)
    requires !Noted(ps, p)
    ensures forall j :: 0 <= j < |ps| ==> !SamePrice(ps[j], p)
  {
  }

  /**
   A price paid under a name, from a time, is of one entry of the file: the name says the model, and the
   model and the time say the entry.
   */
  lemma {:induction false} OneEntry(clock: Clock, f: File, a: Call, b: Call)
    requires Usable(clock, f)
    requires EntryFor(clock, f, a.model, a.at).Some? && EntryFor(clock, f, b.model, b.at).Some? && a.model == b.model
    ensures EntryFor(clock, f, a.model, a.at).value.model == EntryFor(clock, f, b.model, b.at).value.model
    ensures EntryFor(clock, f, a.model, a.at).value.from == EntryFor(clock, f, b.model, b.at).value.from ==>
              EntryFor(clock, f, a.model, a.at) == EntryFor(clock, f, b.model, b.at)
  {
    hide EntryFor, Names, Applies, Outranks;
    FoundHasName(clock, f, a.model, a.at);
    LatestApplies(clock, f, a.model, a.at);
    LatestApplies(clock, f, b.model, b.at);
    var x, y := EntryFor(clock, f, a.model, a.at).value, EntryFor(clock, f, b.model, b.at).value;
    var j :| 0 <= j < |f.models| && f.models[j] == x;
    var k :| 0 <= k < |f.models| && f.models[k] == y;
  }

  lemma FoundHasName(clock: Clock, f: File, name: string, at: int)
    ensures EntryFor(clock, f, name, at).Some? ==> name != ""
  {
  }

  /** Rebuilding from a ledger's noted prices never fails. */
  lemma {:induction false} RebuildingWorks(clock: Clock, f: File, calls: seq<Call>)
    requires Usable(clock, f)
    ensures RebuiltFrom(clock, NotedOf(clock, f, calls)) ==
            if NotedOf(clock, f, calls) == [] then NoPricing
            else Pricing(File(f.currency, EntriesOfPrices(NotedOf(clock, f, calls))))
  {
    hide EntryFor, NotedOf, Usable, Paid, SamePrice, Lookup;
    var notes := NotedOf(clock, f, calls);
    NotesArePaid(clock, f, calls);
    forall k | 0 <= k < |notes|
      ensures notes[k].currency == f.currency && f.currency != "" && Dated(clock, EntryOf(notes[k]))
    {
      PaidIsEntry(clock, f, calls, notes[k]);
    }
    forall j, k | 0 <= j < k < |notes| ensures notes[j].model != notes[k].model || notes[j].from != notes[k].from {
      PaidTwice(clock, f, calls, notes[j], notes[k]);
    }
    if notes != [] {
      assert notes[0].currency == f.currency;
      NotesUsable(clock, notes, f.currency);
    }
  }

  lemma NotesUsable(clock: Clock, notes: seq<Price>, currency: string)
    requires currency != ""
    requires forall k :: 0 <= k < |notes| ==> Dated(clock, EntryOf(notes[k]))
    requires forall j, k :: 0 <= j < k < |notes| ==> notes[j].model != notes[k].model || notes[j].from != notes[k].from
    ensures Usable(clock, File(currency, EntriesOfPrices(notes)))
  {
    hide Dated;
    var es := EntriesOfPrices(notes);
    forall j, k, n | 0 <= j < |es| && 0 <= k < |es| && n in Names(es[j]) && n in Names(es[k])
      ensures es[j].model == es[k].model
    {
      OwnName(notes[j]);
      OwnName(notes[k]);
    }
  }

  lemma {:induction false} PaidIsEntry(clock: Clock, f: File, calls: seq<Call>, p: Price)
    requires Usable(clock, f) && Paid(clock, f, calls, p)
    ensures p.currency == f.currency && f.currency != "" && Dated(clock, EntryOf(p)) && p.model != ""
  {
    hide EntryFor, Names, Applies, Outranks;
    var i :| 0 <= i < |calls| && Lookup(clock, f, calls[i].model, calls[i].at) == Some(p);
    FoundHasName(clock, f, calls[i].model, calls[i].at);
    LatestApplies(clock, f, calls[i].model, calls[i].at);
    var k :| 0 <= k < |f.models| && f.models[k] == EntryFor(clock, f, calls[i].model, calls[i].at).value;
    assert Dated(clock, f.models[k]);
  }

  lemma {:induction false} PaidTwice(clock: Clock, f: File, calls: seq<Call>, p: Price, q: Price)
    requires Usable(clock, f) && Paid(clock, f, calls, p) && Paid(clock, f, calls, q) && !SamePrice(p, q)
    ensures p.model != q.model || p.from != q.from
  {
    hide EntryFor, Usable;
    var i :| 0 <= i < |calls| && Lookup(clock, f, calls[i].model, calls[i].at) == Some(p);
    var j :| 0 <= j < |calls| && Lookup(clock, f, calls[j].model, calls[j].at) == Some(q);
    if p.model == q.model { OneEntry(clock, f, calls[i], calls[j]); }
  }

  function RatesOf(p: Option<Price>): Option<Rates> {
    if p.None? then None else Some(p.value.rates)
  }

  /** A price rebuilt applies to a call exactly when it is one of the file's that does, and stands where it stood. */
  lemma {:induction false} NotedIsEntry(clock: Clock, f: File, calls: seq<Call>, p: Price) returns (e: Entry, c: Call)
    requires Usable(clock, f) && Paid(clock, f, calls, p)
    ensures c in calls && c.model == p.model && EntryFor(clock, f, c.model, c.at) == Some(e) && c.model != ""
    ensures e in f.models && p.model in Names(e) && e.from == p.from && e.rates == p.rates && e.model == p.key
    ensures TimeOf(clock, EntryOf(p)) == TimeOf(clock, e)
  {
    hide EntryFor, Names;
    var i :| 0 <= i < |calls| && Lookup(clock, f, calls[i].model, calls[i].at) == Some(p);
    c := calls[i];
    assert c.model != "" by { PaidIsEntry(clock, f, calls, p); }
    LatestApplies(clock, f, c.model, c.at);
    e := EntryFor(clock, f, c.model, c.at).value;
  }

  /**
   Every call of the ledger pays the same rates by the rebuilt pricing as by the
   price file, or none by both.
   */
  lemma {:induction false} SameRates(clock: Clock, f: File, calls: seq<Call>, i: nat)
    requires Usable(clock, f) && i < |calls| && NotedOf(clock, f, calls) != []
    ensures RatesOf(Lookup(clock, File(f.currency, EntriesOfPrices(NotedOf(clock, f, calls))),
                           calls[i].model, calls[i].at))
            == RatesOf(Lookup(clock, f, calls[i].model, calls[i].at))
  {
    hide EntryFor, NotedOf, Usable, Names, TimeOf, EntriesOfPrices;
    var c := calls[i];
    var g := File(f.currency, EntriesOfPrices(NotedOf(clock, f, calls)));
    if c.model == "" {
      NoName(clock, f, c.at);
      NoName(clock, g, c.at);
    } else {
      LatestApplies(clock, f, c.model, c.at);
      LatestApplies(clock, g, c.model, c.at);
      var x, y := EntryFor(clock, f, c.model, c.at), EntryFor(clock, g, c.model, c.at);
      if x.Some? {
        var again := FoundAgain(clock, f, calls, i, g);
      }
      if y.Some? {
        var z, b := WasThere(clock, f, calls, y.value, c.model, g);
        if x.Some? {
          var again := FoundAgain(clock, f, calls, i, g);
          SameTime(clock, x.value, y.value, z, again);
          SamePaid(clock, f, b, c);
        }
      }
    }
  }

  /** Neither choice outranks the other, so they are of one time. */
  lemma SameTime(clock: Clock, x: Entry, y: Entry, z: Entry, again: Entry)
    requires TimeOf(clock, z) == TimeOf(clock, y) && TimeOf(clock, again) == TimeOf(clock, x)
    requires !Outranks(clock, z, x) && !Outranks(clock, again, y)
    ensures TimeOf(clock, z) == TimeOf(clock, x)
  {
  }

  lemma NoName(clock: Clock, f: File, at: int)
    ensures Lookup(clock, f, "", at).None?
  {
  }

  lemma OwnName(p: Price)
    ensures Names(EntryOf(p)) == [p.model]
  {
  }

  /** What the file gives a call of the ledger was noted, so some rebuilt price of its time applies to it. */
  lemma {:induction false} FoundAgain(clock: Clock, f: File, calls: seq<Call>, i: nat, g: File) returns (e: Entry)
    requires Usable(clock, f) && i < |calls| && calls[i].model != ""
    requires g == File(f.currency, EntriesOfPrices(NotedOf(clock, f, calls)))
    requires EntryFor(clock, f, calls[i].model, calls[i].at).Some?
    ensures e in g.models && calls[i].model in Names(e) && Applies(clock, e, calls[i].at)
    ensures TimeOf(clock, e) == TimeOf(clock, EntryFor(clock, f, calls[i].model, calls[i].at).value)
  {
    hide EntryFor, NotedOf, Usable, Outranks, TimeOf, Paid, Noted, Names;
    var notes, c := NotedOf(clock, f, calls), calls[i];
    NotesArePaid(clock, f, calls);
    var k := NotedAt(notes, Lookup(clock, f, c.model, c.at).value);
    var x, b := NotedIsEntry(clock, f, calls, notes[k]);
    OneEntry(clock, f, b, c);
    OwnName(notes[k]);
    LatestApplies(clock, f, c.model, c.at);
    e := g.models[k];
  }

  lemma NotedAt(ps: seq<Price>, p: Price) returns (k: nat)
    requires Noted(ps, p)
    ensures k < |ps| && SamePrice(ps[k], p)
  {
    k :| 0 <= k < |ps| && SamePrice(ps[k], p);
  }

  /** A rebuilt price of a call's name was paid by a call of that name, for an entry of its rates and time. */
  lemma {:induction false} WasThere(clock: Clock, f: File, calls: seq<Call>, e: Entry, name: string, g: File)
    returns (x: Entry, b: Call)
    requires Usable(clock, f) && g == File(f.currency, EntriesOfPrices(NotedOf(clock, f, calls)))
    requires e in g.models && name in Names(e)
    ensures b.model == name && name != "" && EntryFor(clock, f, name, b.at) == Some(x)
    ensures x in f.models && name in Names(x) && x.rates == e.rates && TimeOf(clock, x) == TimeOf(clock, e)
  {
    hide EntryFor, NotedOf, Usable, Outranks, TimeOf, Paid, Noted, Names;
    var notes := NotedOf(clock, f, calls);
    NotesArePaid(clock, f, calls);
    var k :| 0 <= k < |g.models| && g.models[k] == e;
    OwnName(notes[k]);
    x, b := NotedIsEntry(clock, f, calls, notes[k]);
  }

  /** Two calls of one name that pay prices of one time pay the same price. */
  lemma SamePaid(clock: Clock, f: File, a: Call, b: Call)
    requires a.model == b.model && a.model != ""
    requires EntryFor(clock, f, a.model, a.at).Some? && EntryFor(clock, f, b.model, b.at).Some?
    requires TimeOf(clock, EntryFor(clock, f, a.model, a.at).value) ==
               TimeOf(clock, EntryFor(clock, f, b.model, b.at).value)
    ensures EntryFor(clock, f, a.model, a.at) == EntryFor(clock, f, b.model, b.at)
  {
    hide Tried;
    var tried := Tried(clock, f.models, a.model);
    var x, y := FirstApplying(clock, tried, a.at).value, FirstApplying(clock, tried, b.at).value;
    var j :| 0 <= j < |tried| && tried[j] == x && Applies(clock, tried[j], a.at)
             && forall i :: 0 <= i < j ==> !Applies(clock, tried[i], a.at);
    var k :| 0 <= k < |tried| && tried[k] == y && Applies(clock, tried[k], b.at)
             && forall i :: 0 <= i < k ==> !Applies(clock, tried[i], b.at);
    assert Applies(clock, x, b.at) && Applies(clock, y, a.at);
  }
}
