/** The loops that write an index file and read one, and the interner its strings restore. */
module IndexIO {
  import opened IndexData
  import opened IndexCodec
  import opened IndexFile

  // ---------------------------------------------------------------------
  // Writing.
  // ---------------------------------------------------------------------

  lemma {:induction false} PackAllNext(ws: seq<nat>, rs: seq<seq<nat>>, r: seq<nat>)
    requires (forall k :: 0 <= k < |rs| ==> Fields(ws, rs[k])) && Fields(ws, r)
    ensures PackAll(ws, rs + [r]) == PackAll(ws, rs) + Pack(ws, r)
  {
    hide Fields, Pack;
    if rs == [] {
      assert [r][1..] == [] && rs + [r] == [r];
    } else {
      assert (rs + [r])[1..] == rs[1..] + [r];
      PackAllNext(ws, rs[1..], r);
    }
  }

  lemma {:induction false} PackStringsNext(ss: seq<Bytes>, x: Bytes)
    ensures PackStrings(ss + [x]) == PackStrings(ss) + (ToBytes(|x|, 4) + x)
  {
    hide ToBytes;
    if ss == [] {
      assert [x][1..] == [] && ss + [x] == [x];
    } else {
      assert (ss + [x])[1..] == ss[1..] + [x];
      PackStringsNext(ss[1..], x);
    }
  }

  /** Writes a count and then each record. */
  method WriteTable(out0: Bytes, ws: seq<nat>, rs: seq<seq<nat>>) returns (out: Bytes)
    requires forall k :: 0 <= k < |rs| ==> Fields(ws, rs[k])
    ensures out == out0 + Table(ws, rs)
  {
    hide Pack, PackAll, ToBytes;
    out := out0 + ToBytes(|rs|, 4);
    assert rs[..0] == [] && PackAll(ws, []) == [] by { NothingPacked(ws); }
    for k := 0 to |rs|
      invariant out == out0 + ToBytes(|rs|, 4) + PackAll(ws, rs[..k])
    {
      assert rs[..k+1] == rs[..k] + [rs[k]];
      PackAllNext(ws, rs[..k], rs[k]);
      out := out + Pack(ws, rs[k]);
    }
    assert rs[..|rs|] == rs;
  }

  lemma NothingPacked(ws: seq<nat>)
    ensures PackAll(ws, []) == [] && PackStrings([]) == []
  {
  }

  /** Writes an index to its file. */
  method WriteFile(strs: seq<Bytes>, t: Tables) returns (out: Bytes)
    ensures out == FileOf(strs, t)
  {
    hide Fields, Table, ToBytes, PackStrings, AllEntryFields, AllBlockFields, AllBodyFields, AllMessageFields;
    out := MAGIC + ToBytes(SCHEMA, 4);
    ghost var header := out;
    out := out + ToBytes(|strs|, 4);
    assert strs[..0] == [] && PackStrings([]) == [] by { NothingPacked([]); }
    for k := 0 to |strs|
      invariant out == header + (ToBytes(|strs|, 4) + PackStrings(strs[..k]))
    {
      assert strs[..k+1] == strs[..k] + [strs[k]];
      PackStringsNext(strs[..k], strs[k]);
      out := out + ToBytes(|strs[k]|, 4);
      out := out + strs[k];
    }
    assert strs[..|strs|] == strs;
    out := WriteTable(out, ENTRY, AllEntryFields(t.entries));
    out := WriteTable(out, BLOCK, AllBlockFields(t.blocks));
    out := WriteTable(out, BODY, AllBodyFields(t.bodies));
    out := WriteTable(out, MESSAGE, AllMessageFields(t.messages));
    SixParts(header, Strings(strs), Table(ENTRY, AllEntryFields(t.entries)), Table(BLOCK, AllBlockFields(t.blocks)),
             Table(BODY, AllBodyFields(t.bodies)), Table(MESSAGE, AllMessageFields(t.messages)));
  }

  lemma SixParts(h: Bytes, a: Bytes, b: Bytes, c: Bytes, d: Bytes, e: Bytes)
    ensures ((((h + a) + b) + c) + d) + e == h + (a + (b + (c + (d + e))))
  {
  }

  // ---------------------------------------------------------------------
  // Reading.
  // ---------------------------------------------------------------------

  /** What was read before a reading that goes on. */
  function Before<T>(first: seq<T>, r: Read<seq<T>>): Read<seq<T>> {
    if r.Short? then Short else Got(first + r.value, r.rest)
  }

  /** Reads a table where the cursor is, and says where it ends. */
  method ReadTableAt(ws: seq<nat>, data: Bytes, p0: nat) returns (ok: bool, rs: seq<seq<nat>>, p: nat)
    requires p0 <= |data|
    ensures p <= |data|
    ensures ReadTable(ws, data[p0..]) == if ok then Got(rs, data[p..]) else Short
    ensures ok ==> forall k :: 0 <= k < |rs| ==> Fields(ws, rs[k])
  {
    hide FromBytes, ReadAll, Unpack, Fields;
    ok, rs, p := false, [], p0;
    if p + 4 > |data| { return; }
    var n := FromBytes(data[p..p+4]);
    assert data[p0..][..4] == data[p..p+4] && data[p0..][4..] == data[p+4..];
    p := p + 4;
    var left := n;
    BeforeNothing(ReadAll(ws, n, data[p..]));
    while left > 0
      invariant p <= |data| && left <= n
      invariant ReadAll(ws, n, data[p0+4..]) == Before(rs, ReadAll(ws, left, data[p..]))
      invariant forall k :: 0 <= k < |rs| ==> Fields(ws, rs[k])
      decreases left
    {
      AllNext(ws, left, data[p..]);
      if p + Total(ws) > |data| { return; }
      var b := data[p..p + Total(ws)];
      assert data[p..][..Total(ws)] == b && data[p..][Total(ws)..] == data[p + Total(ws)..];
      BeforeTwice(rs, Unpack(ws, b), ReadAll(ws, left - 1, data[p + Total(ws)..]));
      rs := rs + [Unpack(ws, b)];
      p := p + Total(ws);
      left := left - 1;
    }
    AllDone(ws, data[p..]);
    assert rs + [] == rs;
    ok := true;
  }

  lemma AllNext(ws: seq<nat>, n: nat, d: Bytes)
    requires n > 0
    ensures |d| < Total(ws) ==> ReadAll(ws, n, d).Short?
    ensures |d| >= Total(ws) ==>
              ReadAll(ws, n, d) == Before([Unpack(ws, d[..Total(ws)])], ReadAll(ws, n - 1, d[Total(ws)..]))
  {
  }

  lemma AllDone(ws: seq<nat>, d: Bytes)
    ensures ReadAll(ws, 0, d) == Got([], d)
  {
  }

  lemma BeforeNothing<T>(r: Read<seq<T>>)
    ensures Before([], r) == r
  {
    if r.Got? { assert [] + r.value == r.value; }
  }

  lemma BeforeTwice<T>(a: seq<T>, x: T, r: Read<seq<T>>)
    ensures Before(a, Before([x], r)) == Before(a + [x], r)
  {
    if r.Got? { assert a + ([x] + r.value) == (a + [x]) + r.value; }
  }

  method ReadStringsAt(data: Bytes, p0: nat) returns (ok: bool, ss: seq<Bytes>, p: nat)
    requires p0 <= |data|
    ensures p <= |data|
    ensures ReadStrings(data[p0..]) == if ok then Got(ss, data[p..]) else Short
  {
    hide FromBytes, ReadStringsN;
    ok, ss, p := false, [], p0;
    if p + 4 > |data| { return; }
    var n := FromBytes(data[p..p+4]);
    assert data[p0..][..4] == data[p..p+4] && data[p0..][4..] == data[p+4..];
    p := p + 4;
    var left := n;
    BeforeNothing(ReadStringsN(n, data[p..]));
    while left > 0
      invariant p <= |data| && left <= n
      invariant ReadStringsN(n, data[p0+4..]) == Before(ss, ReadStringsN(left, data[p..]))
      decreases left
    {
      StringNext(left, data[p..]);
      if p + 4 > |data| { return; }
      var l := FromBytes(data[p..p+4]);
      assert data[p..][..4] == data[p..p+4];
      if p + 4 + l > |data| { return; }
      var s := data[p+4..p+4+l];
      assert data[p..][4..4 + l] == s && data[p..][4 + l..] == data[p + 4 + l..];
      BeforeTwice(ss, s, ReadStringsN(left - 1, data[p + 4 + l..]));
      ss := ss + [s];
      p := p + 4 + l;
      left := left - 1;
    }
    StringsDone(data[p..]);
    assert ss + [] == ss;
    ok := true;
  }

  lemma StringNext(n: nat, d: Bytes)
    requires n > 0
    ensures |d| < 4 ==> ReadStringsN(n, d).Short?
    ensures |d| >= 4 && |d| < 4 + FromBytes(d[..4]) ==> ReadStringsN(n, d).Short?
    ensures |d| >= 4 && |d| >= 4 + FromBytes(d[..4]) ==>
              ReadStringsN(n, d) == Before([d[4..4 + FromBytes(d[..4])]],
                                           ReadStringsN(n - 1, d[4 + FromBytes(d[..4])..]))
  {
  }

  lemma StringsDone(d: Bytes)
    ensures ReadStringsN(0, d) == Got([], d)
  {
  }

  /** Reads an index file, a cursor moving through it. */
  method LoadFile(data: Bytes) returns (r: Loaded)
    ensures r == LoadOf(data)
  {
    hide ReadTable, ReadStrings, FromBytes, EntriesFrom, BlocksFrom, BodiesFrom, MessagesFrom, Fields;
    if |data| < 8 || data[..4] != MAGIC { return NotOne; }
    var p: nat := 4;
    if FromBytes(data[p..p+4]) != SCHEMA { return NotOne; }
    p := p + 4;
    var ok, strs, es, bs, xs, ms := false, [], [], [], [], [];
    ok, strs, p := ReadStringsAt(data, p);
    if !ok { return CutShort; }
    ok, es, p := ReadTableAt(ENTRY, data, p);
    if !ok { return CutShort; }
    ok, bs, p := ReadTableAt(BLOCK, data, p);
    if !ok { return CutShort; }
    ok, xs, p := ReadTableAt(BODY, data, p);
    if !ok { return CutShort; }
    ok, ms, p := ReadTableAt(MESSAGE, data, p);
    if !ok { return CutShort; }
    var t := Tables(EntriesFrom(es), BlocksFrom(bs), BodiesFrom(xs), MessagesFrom(ms));
    var sane := CheckTables(t);
    if !sane { return NotOne; }
    return Index(strs, t);
  }

  method CheckTables(t: Tables) returns (sane: bool)
    ensures sane == Sane(t)
  {
    for k := 0 to |t.bodies|
      invariant forall j :: 0 <= j < k ==> t.bodies[j].msgFirst + t.bodies[j].msgCount <= |t.messages|
    {
      if t.bodies[k].msgFirst + t.bodies[k].msgCount > |t.messages| { return false; }
    }
    var k := 1;
    while k < |t.entries|
      invariant 1 <= k
      invariant forall j :: 0 < j < k && j < |t.entries| ==> t.entries[j-1].seqNo <= t.entries[j].seqNo
    {
      if t.entries[k].seqNo < t.entries[k-1].seqNo { return false; }
      k := k + 1;
    }
    return true;
  }

  // ---------------------------------------------------------------------
  // Identifiers as numbers.
  // ---------------------------------------------------------------------

  /** Numbers identifiers from 1 in the order they are first seen; 0 is no identifier. */
  class Interner {
    var ids: map<Bytes, U32>
    var strs: seq<Bytes>

    ghost predicate Valid()
      reads this
    {
      && |strs| < B32
      && (forall k :: 0 <= k < |strs| ==> strs[k] != [] && strs[k] in ids && ids[strs[k]] == k + 1)
      && (forall x :: x in ids ==> 0 < ids[x] <= |strs| && strs[ids[x] - 1] == x)
    }

    constructor ()
      ensures Valid() && strs == []
    {
      ids, strs := map[], [];
    }

    /** Restores an interner from its strings in order. */
    constructor Load(ss: seq<Bytes>)
      requires |ss| < B32 && (forall k :: 0 <= k < |ss| ==> ss[k] != []) && forall j, k :: 0 <= j < k < |ss| ==>
                 ss[j] != ss[k]
      ensures Valid() && strs == ss
    {
      strs, ids := ss, map[];
      new;
      for n := 0 to |ss|
        invariant strs == ss
        invariant forall k :: 0 <= k < n ==> ss[k] in ids && ids[ss[k]] == k + 1
        invariant forall x :: x in ids ==> 0 < ids[x] <= n && ss[ids[x] - 1] == x
      {
        ids := ids[ss[n] := n + 1];
      }
    }

    /** The number of an identifier, given to it when it is new; earlier numbers keep their meaning. */
    method Id(x: Bytes) returns (v: U32)
      requires Valid() && |strs| + 1 < B32
      modifies this
      ensures Valid() && (v == 0 <==> x == []) && Text(v) == x
      ensures strs == if x == [] || x in old(ids) then old(strs) else old(strs) + [x]
      ensures forall u: U32 :: u <= |old(strs)| ==> Text(u) == old(Text(u))
    {
      if x == [] { return 0; }
      if x in ids { return ids[x]; }
      v := |strs| + 1;
      ids := ids[x := v];
      strs := strs + [x];
    }

    function Text(v: U32): Bytes
      reads this
    {
      if v == 0 || v > |strs| then [] else strs[v-1]
    }

    function Lookup(x: Bytes): Option<U32>
      reads this
    {
      if x == [] then Some(0) else if x in ids then Some(ids[x]) else None
    }

    /** Numbers and identifiers are each other's: looking up a text gives the number whose text it is. */
    lemma Bijection(x: Bytes, v: U32)
      requires Valid() && v <= |strs|
      ensures Lookup(x) == Some(v) <==> Text(v) == x
    {
    }
  }

  /** Two identifiers have one number only when they are the same. */
  lemma DistinctTexts(i: Interner, u: U32, v: U32)
    requires i.Valid() && u <= |i.strs| && v <= |i.strs| && i.Text(u) == i.Text(v)
    ensures u == v
  {
    i.Bijection(i.Text(u), u);
    i.Bijection(i.Text(v), v);
  }
}
