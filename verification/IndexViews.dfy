/**
 The lookups built over an index. A resume replays records, so the first record
 with an id stands and later copies stay out of every lookup; and what the
 lookups hold for a prefix of the entries is what they hold for all, cut there.
 */
module IndexViews {
  import opened IndexData
  import opened IndexTables

  datatype Field = Call | Batch | Stream | Run | Tool | Child

  function FieldOf(e: Entry, f: Field): U32 {
    match f
    case Call => e.call
    case Batch => e.batch
    case Stream => e.stream
    case Run => e.run
    case Tool => e.tool
    case Child => e.child
  }

  /** The entry is a record of a stream with an id of its own. */
  predicate Named(e: Entry) {
    e.record != 0 && e.kind != KIND_PROVIDER_BODY
  }

  predicate Copies(es: seq<Entry>, j: nat, i: nat)
    requires j < |es| && i < |es|
  {
    Named(es[j]) && Named(es[i]) && es[j].record == es[i].record
  }

  /** An earlier entry has this one's id. */
  predicate IsCopy(es: seq<Entry>, i: nat)
    requires i < |es|
  {
    exists j :: 0 <= j < i && Copies(es, j, i)
  }

  predicate Skipped(es: seq<Entry>, i: nat)
    requires i < |es|
  {
    IsCopy(es, i) || es[i].kind == KIND_PROVIDER_BODY
  }

  /** The positions that are marked, rising. */
  function Picked(marks: seq<bool>): (r: seq<nat>)
    ensures forall i: nat :: i in r <==> i < |marks| && marks[i]
    ensures forall j, k :: 0 <= j < k < |r| ==> r[j] < r[k]
    ensures forall k :: 0 <= k < |r| ==> r[k] < |marks|
  {
    if marks == [] then [] else Picked(marks[..|marks|-1]) + if marks[|marks|-1] then [|marks| - 1] else []
  }

  lemma PickedNext(marks: seq<bool>, i: nat)
    requires i < |marks|
    ensures Picked(marks[..i+1]) == Picked(marks[..i]) + if marks[i] then [i] else []
  {
    assert marks[..i+1][..i] == marks[..i];
  }

  lemma PickedNone(marks: seq<bool>)
    ensures Picked(marks[..0]) == []
  {
  }

  /** Each entry's key in a lookup, 0 where the entry is in none. */
  function KeysOf(es: seq<Entry>, f: Field): (keys: seq<U32>)
    ensures |keys| == |es|
    ensures forall i :: 0 <= i < |es| ==> keys[i] == if Skipped(es, i) then 0 else FieldOf(es[i], f)
  {
    seq(|es|, i requires 0 <= i < |es| => if Skipped(es, i) then 0 else FieldOf(es[i], f))
  }

  /** Each block's key in the lookup of tool uses. */
  function ToolKeysOf(es: seq<Entry>, bs: seq<Block>): (keys: seq<U32>)
    requires forall j :: 0 <= j < |bs| ==> bs[j].entry < |es|
    ensures |keys| == |bs|
    ensures forall j :: 0 <= j < |bs| ==> keys[j] == if Skipped(es, bs[j].entry) then 0 else bs[j].toolId
  {
    seq(|bs|, j requires 0 <= j < |bs| => if Skipped(es, bs[j].entry) then 0 else bs[j].toolId)
  }

  /** Which positions have a key. */
  function Marks(keys: seq<U32>, key: U32): (marks: seq<bool>)
    ensures |marks| == |keys|
    ensures forall i :: 0 <= i < |keys| ==> (marks[i] <==> key != 0 && keys[i] == key)
  {
    seq(|keys|, i requires 0 <= i < |keys| => key != 0 && keys[i] == key)
  }

  /** Which entries are no replayed copies. */
  function Fresh(es: seq<Entry>): (marks: seq<bool>)
    ensures |marks| == |es|
    ensures forall i :: 0 <= i < |es| ==> (marks[i] <==> !IsCopy(es, i))
  {
    seq(|es|, i requires 0 <= i < |es| => !IsCopy(es, i))
  }

  /** The entries a lookup holds under a key, in landed order. */
  function Listed(es: seq<Entry>, f: Field, key: U32): seq<nat> {
    Picked(Marks(KeysOf(es, f), key))
  }

  function ToolListed(es: seq<Entry>, bs: seq<Block>, key: U32): seq<nat>
    requires forall j :: 0 <= j < |bs| ==> bs[j].entry < |es|
  {
    Picked(Marks(ToolKeysOf(es, bs), key))
  }

  /** The entries in landed order, without replayed copies. */
  function Canonical(es: seq<Entry>): seq<nat> {
    Picked(Fresh(es))
  }

  function Lookup(m: map<U32, seq<nat>>, key: U32): seq<nat> {
    if key in m then m[key] else []
  }

  // ---------------------------------------------------------------------
  // Building.
  // ---------------------------------------------------------------------

  /** The first entry of each id, and which entries are copies, of the entries before n. */
  ghost predicate FirstsFound(es: seq<Entry>, byRecord: map<U32, nat>, dup: seq<bool>, n: nat) {
    && n <= |es| && |dup| == n
    && (forall i :: 0 <= i < n ==> (dup[i] <==> IsCopy(es, i)))
    && (forall r :: r in byRecord ==> byRecord[r] < n && FirstOf(es, r, byRecord[r]))
    && (forall i :: 0 <= i < n && Named(es[i]) ==> es[i].record in byRecord)
  }

  predicate FirstOf(es: seq<Entry>, r: U32, i: nat) {
    && i < |es| && Named(es[i]) && es[i].record == r
    && forall j :: 0 <= j < i ==> !Copies(es, j, i)
  }

  /** The lookups over an index. */
  class Lookups {
    var byRecord: map<U32, nat>
    var dup: seq<bool>
    var byField: map<Field, map<U32, seq<nat>>>
    var byToolBlock: map<U32, seq<nat>>

    constructor ()
    {
      byRecord, dup, byField, byToolBlock := map[], [], map[], map[];
    }

    ghost predicate Built(t: Tables)
      requires forall j :: 0 <= j < |t.blocks| ==> t.blocks[j].entry < |t.entries|
      reads this
    {
      && FirstsFound(t.entries, byRecord, dup, |t.entries|)
      && (forall f: Field :: f in byField && GroupedBy(byField[f], KeysOf(t.entries, f)))
      && GroupedBy(byToolBlock, ToolKeysOf(t.entries, t.blocks))
    }

    /** Builds every lookup. */
    method Build(t: Tables)
      requires forall j :: 0 <= j < |t.blocks| ==> t.blocks[j].entry < |t.entries|
      modifies this
      ensures Built(t)
    {
      hide FirstsFound, GroupedBy, KeysOf, ToolKeysOf;
      byRecord, dup := FindFirsts(t.entries);
      var calls := GroupBy(KeysOf(t.entries, Call));
      var batches := GroupBy(KeysOf(t.entries, Batch));
      var streams := GroupBy(KeysOf(t.entries, Stream));
      var runs := GroupBy(KeysOf(t.entries, Run));
      var tools := GroupBy(KeysOf(t.entries, Tool));
      var children := GroupBy(KeysOf(t.entries, Child));
      byField := map[Call := calls, Batch := batches, Stream := streams, Run := runs, Tool := tools, Child := children];
      byToolBlock := GroupBy(ToolKeysOf(t.entries, t.blocks));
      forall f: Field ensures f in byField && GroupedBy(byField[f], KeysOf(t.entries, f)) {
        match f
        case Call => case Batch => case Stream => case Run => case Tool => case Child =>
      }
    }
  }

  /** An entry stands in the lookups when it is no provider body, and no earlier record has its id. */
  ghost predicate Stands(es: seq<Entry>, i: nat) {
    && i < |es| && es[i].kind != KIND_PROVIDER_BODY
    && (es[i].record != 0 ==> forall j :: 0 <= j < i ==>
        es[j].record != es[i].record || es[j].kind == KIND_PROVIDER_BODY)
  }

  /** Under a key a lookup holds just the entries that stand and have it in this field, in landed order. */
  ghost predicate Holds(m: map<U32, seq<nat>>, es: seq<Entry>, key: U32, field: Entry -> U32) {
    && (forall i: nat :: i in Lookup(m, key) <==> key != 0 && Stands(es, i) && field(es[i]) == key)
    && forall j, k :: 0 <= j < k < |Lookup(m, key)| ==> Lookup(m, key)[j] < Lookup(m, key)[k]
  }

  /** And the lookup of tool uses just the blocks of those entries that carry the tool's id. */
  ghost predicate HoldsTools(m: map<U32, seq<nat>>, t: Tables, key: U32) {
    && (forall j: nat :: j in Lookup(m, key) <==>
         key != 0 && j < |t.blocks| && Stands(t.entries, t.blocks[j].entry as nat) && t.blocks[j].toolId == key)
    && forall j, k :: 0 <= j < k < |Lookup(m, key)| ==> Lookup(m, key)[j] < Lookup(m, key)[k]
  }

  /** What the lookups hold: under each id, the entries that stand and carry it; and the first record of each id. */
  lemma LookupsSay(l: Lookups, t: Tables, key: U32)
    requires forall j :: 0 <= j < |t.blocks| ==> t.blocks[j].entry < |t.entries|
    requires l.Built(t)
    ensures forall f: Field :: f in l.byField
    ensures Holds(l.byField[Call], t.entries, key, (e: Entry) => e.call)
    ensures Holds(l.byField[Batch], t.entries, key, (e: Entry) => e.batch)
    ensures Holds(l.byField[Stream], t.entries, key, (e: Entry) => e.stream)
    ensures Holds(l.byField[Run], t.entries, key, (e: Entry) => e.run)
    ensures Holds(l.byField[Tool], t.entries, key, (e: Entry) => e.tool)
    ensures Holds(l.byField[Child], t.entries, key, (e: Entry) => e.child)
    ensures HoldsTools(l.byToolBlock, t, key)
    ensures key in l.byRecord <==>
              exists i :: 0 <= i < |t.entries| && t.entries[i].record == key != 0 && Stands(t.entries, i)
    ensures key in l.byRecord ==> Stands(t.entries, l.byRecord[key]) && t.entries[l.byRecord[key]].record == key
  {
    hide Holds, GroupedBy, Stands, Skipped, FirstsFound;
    AllFields(l, t);
    FieldHolds(l.byField[Call], t.entries, Call, key, (e: Entry) => e.call);
    FieldHolds(l.byField[Batch], t.entries, Batch, key, (e: Entry) => e.batch);
    FieldHolds(l.byField[Stream], t.entries, Stream, key, (e: Entry) => e.stream);
    FieldHolds(l.byField[Run], t.entries, Run, key, (e: Entry) => e.run);
    FieldHolds(l.byField[Tool], t.entries, Tool, key, (e: Entry) => e.tool);
    FieldHolds(l.byField[Child], t.entries, Child, key, (e: Entry) => e.child);
    ToolsHold(l.byToolBlock, t, key);
    RecordIs(t.entries, l.byRecord, l.dup, key);
  }

  lemma AllFields(l: Lookups, t: Tables)
    requires forall j :: 0 <= j < |t.blocks| ==> t.blocks[j].entry < |t.entries|
    requires l.Built(t)
    ensures forall f: Field :: f in l.byField && GroupedBy(l.byField[f], KeysOf(t.entries, f))
  {
    hide GroupedBy, FirstsFound;
  }

  lemma ToolsHold(m: map<U32, seq<nat>>, t: Tables, key: U32)
    requires forall j :: 0 <= j < |t.blocks| ==> t.blocks[j].entry < |t.entries|
    requires GroupedBy(m, ToolKeysOf(t.entries, t.blocks))
    ensures HoldsTools(m, t, key)
  {
    hide Skipped, Stands;
    forall i: nat { StandsIs(t.entries, i); }
    assert Lookup(m, key) == Picked(Marks(ToolKeysOf(t.entries, t.blocks), key));
  }

  lemma StandsIs(es: seq<Entry>, i: nat)
    ensures Stands(es, i) <==> i < |es| && !Skipped(es, i)
  {
    if i < |es| {
      assert forall j :: 0 <= j < i ==> (Copies(es, j, i) <==>
        es[j].record == es[i].record != 0 && es[j].kind != KIND_PROVIDER_BODY && es[i].kind != KIND_PROVIDER_BODY);
    }
  }

  lemma FieldHolds(m: map<U32, seq<nat>>, es: seq<Entry>, f: Field, key: U32, field: Entry -> U32)
    requires GroupedBy(m, KeysOf(es, f)) && forall e :: field(e) == FieldOf(e, f)
    ensures Holds(m, es, key, field)
  {
    hide Skipped, Stands, FieldOf;
    forall i: nat { StandsIs(es, i); }
    assert Lookup(m, key) == Picked(Marks(KeysOf(es, f), key));
  }

  lemma RecordIs(es: seq<Entry>, byRecord: map<U32, nat>, dup: seq<bool>, key: U32)
    requires FirstsFound(es, byRecord, dup, |es|)
    ensures key in byRecord <==> exists i :: 0 <= i < |es| && es[i].record == key != 0 && Stands(es, i)
    ensures key in byRecord ==> Stands(es, byRecord[key]) && es[byRecord[key]].record == key
  {
    hide Stands, Skipped;
    if key in byRecord {
      var i := byRecord[key];
      assert FirstOf(es, key, i);
      StandsIs(es, i);
      NoCopy(es, key, i);
    }
    if i :| 0 <= i < |es| && es[i].record == key != 0 && Stands(es, i) {
      StandsIs(es, i);
      NotBody(es, i);
      assert Named(es[i]);
    }
  }

  lemma NotBody(es: seq<Entry>, i: nat)
    requires i < |es| && !Skipped(es, i)
    ensures es[i].kind != KIND_PROVIDER_BODY
  {
  }

  lemma NoCopy(es: seq<Entry>, r: U32, i: nat)
    requires FirstOf(es, r, i)
    ensures !Skipped(es, i)
  {
  }

  method FindFirsts(es: seq<Entry>) returns (byRecord: map<U32, nat>, dup: seq<bool>)
    ensures FirstsFound(es, byRecord, dup, |es|)
  {
    byRecord, dup := map[], [];
    for i := 0 to |es|
      invariant FirstsFound(es, byRecord, dup, i)
    {
      if es[i].record == 0 || es[i].kind == KIND_PROVIDER_BODY {
        dup := dup + [false];
      } else if es[i].record in byRecord {
        assert Copies(es, byRecord[es[i].record], i);
        dup := dup + [true];
      } else {
        dup := dup + [false];
        byRecord := byRecord[es[i].record := i];
      }
    }
  }

  /** Under each key a lookup holds exactly the positions that have it, in order. */
  ghost predicate GroupedBy(m: map<U32, seq<nat>>, keys: seq<U32>) {
    forall key: U32 :: Lookup(m, key) == Picked(Marks(keys, key))
  }

  /** Groups the positions that have a key by it. */
  method GroupBy(keys: seq<U32>) returns (m: map<U32, seq<nat>>)
    ensures GroupedBy(m, keys)
  {
    hide GroupedBy;
    m := map[];
    NoneGrouped();
    assert keys[..0] == [];
    for i := 0 to |keys|
      invariant GroupedBy(m, keys[..i])
    {
      GroupedNext(m, keys[..i], keys[i]);
      assert keys[..i] + [keys[i]] == keys[..i+1];
      if keys[i] != 0 { m := m[keys[i] := Lookup(m, keys[i]) + [i]]; }
    }
    assert keys[..|keys|] == keys;
  }

  lemma NoneGrouped()
    ensures GroupedBy(map[], [])
  {
  }

  lemma GroupedNext(m: map<U32, seq<nat>>, keys: seq<U32>, k: U32)
    requires GroupedBy(m, keys)
    ensures GroupedBy(if k == 0 then m else m[k := Lookup(m, k) + [|keys|]], keys + [k])
  {
    hide Picked, Marks;
    forall key: U32
      ensures Picked(Marks(keys + [k], key)) == Lookup(m, key) + if key != 0 && k == key then [|keys|] else []
    {
      assert Lookup(m, key) == Picked(Marks(keys, key));
      MarksNext(keys, k, key);
    }
  }

  lemma MarksNext(keys: seq<U32>, k: U32, key: U32)
    ensures Picked(Marks(keys + [k], key)) == Picked(Marks(keys, key)) + if key != 0 && k == key then [|keys|] else []
  {
    assert Marks(keys + [k], key)[..|keys|] == Marks(keys, key);
  }

  /** The canonical entries, as they are listed. */
  method ListCanonical(es: seq<Entry>, dup: seq<bool>) returns (r: seq<nat>)
    requires |dup| == |es| && forall i :: 0 <= i < |es| ==> (dup[i] <==> IsCopy(es, i))
    ensures r == Canonical(es)
  {
    hide IsCopy, Picked, Fresh;
    r := [];
    PickedNone(Fresh(es));
    for i := 0 to |es|
      invariant r == Picked(Fresh(es)[..i])
    {
      PickedNext(Fresh(es), i);
      if !dup[i] { r := r + [i]; }
    }
    assert Fresh(es)[..|es|] == Fresh(es);
  }

  // ---------------------------------------------------------------------
  // What the canonical view keeps.
  // ---------------------------------------------------------------------

  lemma OneFirst(es: seq<Entry>, r: U32, i: nat, j: nat)
    requires FirstOf(es, r, i) && FirstOf(es, r, j)
    ensures i == j
  {
    assert i < j ==> !Copies(es, i, j);
    assert j < i ==> !Copies(es, j, i);
  }

  /** Of the entries with one id exactly one is kept, the first. */
  lemma {:induction false} KeepsFirst(es: seq<Entry>, i: nat) returns (first: nat)
    requires i < |es| && Named(es[i])
    ensures first <= i && FirstOf(es, es[i].record, first)
    ensures forall j :: 0 <= j < |es| && Named(es[j]) && es[j].record == es[i].record ==>
              (!IsCopy(es, j) <==> j == first)
    decreases i
  {
    if IsCopy(es, i) {
      var j :| 0 <= j < i && Copies(es, j, i);
      first := KeepsFirst(es, j);
    } else {
      first := i;
      assert FirstOf(es, es[i].record, i);
    }
    forall j: nat | j < |es| && Named(es[j]) && es[j].record == es[i].record ensures !IsCopy(es, j) <==> j == first {
      if !IsCopy(es, j) {
        assert FirstOf(es, es[i].record, j);
        OneFirst(es, es[i].record, first, j);
      }
    }
  }

  /** Canonical keeps each id once, at its first entry, and every entry with no id of its own. */
  lemma CanonicalKeeps(es: seq<Entry>, i: nat)
    requires i < |es|
    ensures i in Canonical(es) <==> !Named(es[i]) || FirstOf(es, es[i].record, i)
  {
    hide Picked;
  }

  // ---------------------------------------------------------------------
  // The cut.
  // ---------------------------------------------------------------------

  /** Whether an entry is a copy is said by the entries before it. */
  lemma CopyInPrefix(es: seq<Entry>, n: nat, i: nat)
    requires i < n <= |es|
    ensures IsCopy(es[..n], i) <==> IsCopy(es, i)
  {
    forall j | 0 <= j < i ensures Copies(es[..n], j, i) <==> Copies(es, j, i) {
    }
    if IsCopy(es, i) {
      var j :| 0 <= j < i && Copies(es, j, i);
      assert Copies(es[..n], j, i);
    }
  }

  /** The first of a list that are below a bound. */
  function CutAt(s: seq<nat>, n: nat): seq<nat> {
    if s == [] then [] else CutAt(s[..|s|-1], n) + if s[|s|-1] < n then [s[|s|-1]] else []
  }

  lemma {:induction false} CutAtAll(s: seq<nat>, n: nat)
    requires forall k :: 0 <= k < |s| ==> s[k] < n
    ensures CutAt(s, n) == s
  {
    if s != [] { CutAtAll(s[..|s|-1], n); }
  }

  lemma CutAtNext(s: seq<nat>, x: nat, n: nat)
    requires x >= n
    ensures CutAt(s + [x], n) == CutAt(s, n)
  {
    assert (s + [x])[..|s|] == s;
  }

  /** What is picked from a prefix is what is picked from all, below its length. */
  lemma {:induction false} PickedCut(marks: seq<bool>, n: nat)
    requires n <= |marks|
    ensures CutAt(Picked(marks), n) == Picked(marks[..n])
    decreases |marks|
  {
    hide CutAt, Picked;
    if n == |marks| {
      assert marks[..n] == marks;
      CutAtAll(Picked(marks), n);
    } else {
      var m := |marks| - 1;
      PickedCut(marks[..m], n);
      assert marks[..m][..n] == marks[..n] && marks[..m+1] == marks;
      PickedNext(marks, m);
      CutAtNext(Picked(marks[..m]), m, n);
      assert Picked(marks[..m]) + [] == Picked(marks[..m]);
    }
  }

  lemma PrefixMarks(es: seq<Entry>, n: nat, f: Field, key: U32)
    requires n <= |es|
    ensures Marks(KeysOf(es[..n], f), key) == Marks(KeysOf(es, f), key)[..n] && Fresh(es[..n]) == Fresh(es)[..n]
  {
    hide IsCopy, FieldOf;
    forall i | 0 <= i < n ensures IsCopy(es[..n], i) <==> IsCopy(es, i) {
      CopyInPrefix(es, n, i);
    }
  }

  /** Under a watermark every lookup, and the canonical view, is the full one without what came after. */
  lemma ViewsCut(rows: seq<Row>, s: nat, f: Field, key: U32)
    requires Landed(rows)
    ensures var full, n := IndexOf(rows).entries, Below(rows, s);
            var cut := IndexOf(rows[..n]).entries;
            && Listed(cut, f, key) == CutAt(Listed(full, f, key), n)
            && Canonical(cut) == CutAt(Canonical(full), n)
  {
    hide IndexOf, Picked, Marks, KeysOf, Fresh, CutAt, Begins;
    var full, n := IndexOf(rows).entries, Below(rows, s);
    var cut := IndexOf(rows[..n]).entries;
    PrefixOf(rows, n);
    BeginsEntries(IndexOf(rows), IndexOf(rows[..n]));
    assert cut == full[..n];
    PrefixMarks(full, n, f, key);
    PickedCut(Marks(KeysOf(full, f), key), n);
    PickedCut(Fresh(full), n);
  }

  lemma BeginsEntries(t: Tables, p: Tables)
    requires Begins(t, p)
    ensures p.entries <= t.entries && p.blocks <= t.blocks
  {
  }

  /** A block names an entry there is. */
  lemma BlocksName(rows: seq<Row>)
    requires Fits(IndexOf(rows))
    ensures forall j :: 0 <= j < |IndexOf(rows).blocks| ==> IndexOf(rows).blocks[j].entry < |IndexOf(rows).entries|
  {
    RowsTile(rows);
  }

  /** Under a watermark the lookup of tool uses is the full one without the blocks that came after. */
  lemma ToolsCut(rows: seq<Row>, s: nat, key: U32)
    requires Landed(rows) && Fits(IndexOf(rows))
    ensures var full, cut := IndexOf(rows), IndexOf(rows[..Below(rows, s)]);
            && (forall j :: 0 <= j < |full.blocks| ==> full.blocks[j].entry < |full.entries|)
            && (forall j :: 0 <= j < |cut.blocks| ==> cut.blocks[j].entry < |cut.entries|)
            && ToolListed(cut.entries, cut.blocks, key) == CutAt(ToolListed(full.entries, full.blocks, key),
                                                                 |cut.blocks|)
  {
    hide IndexOf, Picked, Marks, ToolKeysOf, CutAt, Begins, Landed, Fits;
    var full, n := IndexOf(rows), Below(rows, s);
    var cut := IndexOf(rows[..n]);
    CutIs(rows, n);
    BlocksName(rows);
    BlocksName(rows[..n]);
    PrefixOf(rows, n);
    BeginsEntries(full, cut);
    ToolMarks(full.entries, full.blocks, |cut.entries|, |cut.blocks|, key);
    PickedCut(Marks(ToolKeysOf(full.entries, full.blocks), key), |cut.blocks|);
  }

  lemma ToolMarks(es: seq<Entry>, bs: seq<Block>, n: nat, m: nat, key: U32)
    requires n <= |es| && m <= |bs|
    requires (forall j :: 0 <= j < |bs| ==> bs[j].entry < |es|) && forall j :: 0 <= j < m ==> bs[j].entry < n
    ensures Marks(ToolKeysOf(es[..n], bs[..m]), key) == Marks(ToolKeysOf(es, bs), key)[..m]
  {
    hide IsCopy;
    forall j | 0 <= j < m ensures IsCopy(es[..n], bs[j].entry) <==> IsCopy(es, bs[j].entry) {
      CopyInPrefix(es, n, bs[j].entry);
    }
  }

  /** Under a watermark the lookup by record id has exactly the ids whose first entry is not past it, at that entry. */
  lemma RecordsCut(rows: seq<Row>, s: nat, full: map<U32, nat>, cut: map<U32, nat>, fullDup: seq<bool>,
                   cutDup: seq<bool>, r: U32)
    requires Landed(rows)
    requires FirstsFound(IndexOf(rows).entries, full, fullDup, |rows|)
    requires FirstsFound(IndexOf(rows[..Below(rows, s)]).entries, cut, cutDup, Below(rows, s))
    ensures r in cut <==> r in full && full[r] < Below(rows, s)
    ensures r in cut ==> r in full && cut[r] == full[r]
  {
    hide IndexOf, Begins, Landed;
    var es, n := IndexOf(rows).entries, Below(rows, s);
    PrefixOf(rows, n);
    BeginsEntries(IndexOf(rows), IndexOf(rows[..n]));
    assert IndexOf(rows[..n]).entries == es[..n];
    if r in cut {
      FirstInPrefix(es, n, r, cut[r]);
      assert es[cut[r]].record in full;
      OneFirst(es, r, cut[r], full[r]);
    } else {
      assert forall i :: 0 <= i < n && Named(es[..n][i]) ==> es[..n][i].record != r;
      assert r in full ==> full[r] >= n;
    }
  }

  lemma FirstInPrefix(es: seq<Entry>, n: nat, r: U32, i: nat)
    requires i < n <= |es| && FirstOf(es[..n], r, i)
    ensures FirstOf(es, r, i)
  {
    forall j | 0 <= j < i ensures !Copies(es, j, i) { assert !Copies(es[..n], j, i); }
  }

  // ---------------------------------------------------------------------
  // Walking back.
  // ---------------------------------------------------------------------

  /** The entry one containment step back, where the parent's record is indexed and is another entry. */
  function Back(es: seq<Entry>, byRecord: map<U32, nat>, i: nat): Option<nat>
    requires i < |es|
  {
    if es[i].parent != 0 && es[i].parent in byRecord && byRecord[es[i].parent] != i && byRecord[es[i].parent] < |es|
    then Some(byRecord[es[i].parent]) else None
  }

  /** The entry n containment steps back. */
  ghost function Up(es: seq<Entry>, byRecord: map<U32, nat>, i: nat, n: nat): (r: Option<nat>)
    requires i < |es|
    ensures r.Some? ==> r.value < |es|
  {
    if n == 0 then Some(i)
    else
      var x := Up(es, byRecord, i, n - 1);
      if x.None? then None else Back(es, byRecord, x.value)
  }

  /**
   The nearest ancestor, itself included, whose run is known: none is passed over, and corrupt parents
   cannot keep the walk going.
   */
  method Ancestor(es: seq<Entry>, byRecord: map<U32, nat>, i: nat, maxHops: nat)
    returns (r: Option<nat>, ghost hops: nat)
    requires i < |es| && forall k :: k in byRecord ==> byRecord[k] < |es|
    ensures r.Some? ==> hops <= maxHops && Up(es, byRecord, i, hops) == r && es[r.value].run != 0
    ensures r.Some? ==> forall n :: 0 <= n < hops ==>
              Up(es, byRecord, i, n).Some? && es[Up(es, byRecord, i, n).value].run == 0
    ensures r.None? ==> forall n: nat :: n <= maxHops && Up(es, byRecord, i, n).Some? ==>
              es[Up(es, byRecord, i, n).value].run == 0
  {
    hide Back;
    var cur := i;
    var hop := 0;
    while hop <= maxHops
      invariant 0 <= hop <= maxHops + 1 && cur < |es|
      invariant hop <= maxHops ==> Up(es, byRecord, i, hop) == Some(cur)
      invariant forall n :: 0 <= n < hop ==> Up(es, byRecord, i, n).Some? && es[Up(es, byRecord, i, n).value].run == 0
      decreases maxHops + 1 - hop
    {
      if es[cur].run != 0 { return Some(cur), hop; }
      BackIs(es, byRecord, cur);
      if es[cur].parent == 0 || es[cur].parent !in byRecord || byRecord[es[cur].parent] == cur {
        assert Up(es, byRecord, i, hop + 1).None?;
        StaysGone(es, byRecord, i, hop + 1, maxHops);
        return None, hop;
      }
      cur := byRecord[es[cur].parent];
      hop := hop + 1;
    }
    return None, hop;
  }

  lemma BackIs(es: seq<Entry>, byRecord: map<U32, nat>, i: nat)
    requires i < |es| && forall k :: k in byRecord ==> byRecord[k] < |es|
    ensures Back(es, byRecord, i) == if es[i].parent == 0 || es[i].parent !in byRecord || byRecord[es[i].parent] == i
        then None
                                     else Some(byRecord[es[i].parent])
  {
  }

  lemma {:induction false} StaysGone(es: seq<Entry>, byRecord: map<U32, nat>, i: nat, n: nat, m: nat)
    requires i < |es| && Up(es, byRecord, i, n).None?
    ensures forall k: nat :: n <= k <= m ==> Up(es, byRecord, i, k).None?
    decreases m
  {
    hide Back;
    if m > n {
      StaysGone(es, byRecord, i, n, m - 1);
    }
  }
}
