/**
 A session's index as it grows: rows appended in landed order, cut at a
 watermark, and seen without the copies a resume replays.
 */
module IndexTables {
  import opened IndexData

  // ---------------------------------------------------------------------
  // What a list of rows is indexed as.
  // ---------------------------------------------------------------------

  function Placed(bs: seq<Block>, entry: nat): (r: seq<Block>)
    ensures |r| == |bs| && forall k :: 0 <= k < |bs| ==> r[k] == bs[k].(entry := Low32(entry))
  {
    seq(|bs|, k requires 0 <= k < |bs| => bs[k].(entry := Low32(entry)))
  }

  /** The tables with one more row. */
  function Extended(t: Tables, r: Row): Tables {
    Tables(t.entries + [r.entry.(blockFirst := Low32(|t.blocks|), blockCount := Low32(|r.blocks|))],
           t.blocks + Placed(r.blocks, |t.entries|),
           t.bodies + if r.body.None? then [] else [r.body.value.body.(entry := Low32(|t.entries|),
                                                                        msgFirst := Low32(|t.messages|),
                                                                        msgCount := Low32(|r.body.value.messages|))],
           t.messages + if r.body.None? then [] else r.body.value.messages)
  }

  /** The index of a list of rows. */
  function IndexOf(rows: seq<Row>): (t: Tables)
    ensures |t.entries| == |rows|
  {
    if rows == [] then NO_TABLES else Extended(IndexOf(rows[..|rows|-1]), rows[|rows|-1])
  }

  lemma {:induction false} OneEach(rows: seq<Row>)
    ensures |IndexOf(rows).entries| == |rows|
    ensures forall k :: 0 <= k < |rows| ==> IndexOf(rows).entries[k].seqNo == rows[k].entry.seqNo
    ensures forall k :: 0 <= k < |rows| ==> IndexOf(rows).entries[k].record == rows[k].entry.record
    ensures forall k :: 0 <= k < |rows| ==> IndexOf(rows).entries[k].kind == rows[k].entry.kind
  {
    if rows != [] { OneEach(rows[..|rows|-1]); }
  }

  /** The tables are small enough that no position is cut short. */
  predicate Fits(t: Tables) {
    |t.entries| < B32 && |t.blocks| < B32 && |t.bodies| < B32 && |t.messages| < B32
  }

  /** Rows come in landed order. */
  predicate Landed(rows: seq<Row>) {
    forall j, k :: 0 <= j < k < |rows| ==> rows[j].entry.seqNo <= rows[k].entry.seqNo
  }

  /** An index under construction. */
  class Index {
    var t: Tables

    constructor ()
      ensures t == NO_TABLES
    {
      t := NO_TABLES;
    }

    /** Adds one record and its blocks. */
    method Append(e: Entry, blocks: seq<Block>)
      modifies this
      ensures t == Tables(old(t.entries) + [e.(blockFirst := Low32(|old(t.blocks)|), blockCount := Low32(|blocks|))],
                          old(t.blocks) + Placed(blocks, |old(t.entries)|), old(t.bodies), old(t.messages))
    {
      var at := |t.entries|;
      var e1 := e.(blockFirst := Low32(|t.blocks|), blockCount := Low32(|blocks|));
      for k := 0 to |blocks|
        invariant t == Tables(old(t.entries), old(t.blocks) + Placed(blocks, at)[..k], old(t.bodies), old(t.messages))
      {
        t := t.(blocks := t.blocks + [blocks[k].(entry := Low32(at))]);
      }
      t := t.(entries := t.entries + [e1]);
    }

    /** Adds what was read from one record: the body first, at the place its entry will have. */
    method AppendRecord(r: Row)
      modifies this
      ensures t == Extended(old(t), r)
    {
      if r.body.Some? {
        var first := |t.messages|;
        var b := r.body.value.body.(entry := Low32(|t.entries|), msgFirst := Low32(first));
        t := t.(messages := t.messages + r.body.value.messages);
        b := b.(msgCount := (Low32(|t.messages|) + B32 - b.msgFirst) % B32);
        CountWraps(first, |r.body.value.messages|);
        t := t.(bodies := t.bodies + [b]);
      }
      Append(r.entry, r.blocks);
    }

    /** Adds the rows of a file that has landed, in the order they were staged. */
    method AppendStaged(rows: seq<Row>, ghost before: seq<Row>)
      requires t == IndexOf(before)
      modifies this
      ensures t == IndexOf(before + rows)
    {
      assert before + rows[..0] == before;
      for k := 0 to |rows|
        invariant t == IndexOf(before + rows[..k])
      {
        AppendRecord(rows[k]);
        assert (before + rows[..k+1])[..|before| + k] == before + rows[..k];
      }
      assert rows[..|rows|] == rows;
    }
  }

  /** The difference of two stored positions is the stored difference. */
  lemma CountWraps(first: nat, count: nat)
    ensures (Low32(first + count) + B32 - Low32(first)) % B32 == Low32(count)
  {
    var m, n := first / B32, (first + count) / B32;
    assert first == m * B32 + Low32(first);
    assert first + count == n * B32 + Low32(first + count);
    var x := Low32(first + count) + B32 - Low32(first);
    assert x == count + (m + 1 - n) * B32;
    ModOf(x, count, m + 1 - n);
  }

  lemma ModOf(x: int, y: int, k: int)
    requires x == y + k * B32
    ensures x % B32 == y % B32
  {
  }

  // ---------------------------------------------------------------------
  // The cut at a watermark.
  // ---------------------------------------------------------------------

  /** How many of these rows are at or below a sequence. */
  function Below(rows: seq<Row>, s: nat): (k: nat)
    requires Landed(rows)
    ensures k <= |rows| && (forall i :: 0 <= i < k ==> rows[i].entry.seqNo <= s)
    ensures (forall i :: k <= i < |rows| ==> rows[i].entry.seqNo > s)
  {
    if rows == [] then 0
    else if rows[|rows|-1].entry.seqNo <= s then |rows|
    else Below(rows[..|rows|-1], s)
  }

  /** One table set begins with another. */
  predicate Begins(t: Tables, p: Tables) {
    p.entries <= t.entries && p.blocks <= t.blocks && p.bodies <= t.bodies && p.messages <= t.messages
  }

  lemma BeginsExtended(t: Tables, p: Tables, r: Row)
    requires Begins(t, p)
    ensures Begins(Extended(t, r), p)
  {
    hide Low32, Placed;
  }

  lemma BeginsItself(t: Tables)
    ensures Begins(t, t)
  {
  }

  /** The tables of a prefix of the rows are a prefix of the tables. */
  lemma {:induction false} PrefixOf(rows: seq<Row>, k: nat)
    requires k <= |rows|
    ensures Begins(IndexOf(rows), IndexOf(rows[..k]))
    decreases |rows|
  {
    hide Extended, Begins;
    if k < |rows| {
      var n := |rows| - 1;
      PrefixOf(rows[..n], k);
      assert rows[..n][..k] == rows[..k];
      BeginsExtended(IndexOf(rows[..n]), IndexOf(rows[..k]), rows[n]);
    } else {
      assert rows[..k] == rows;
      BeginsItself(IndexOf(rows));
    }
  }

  /** While everything fits, positions are stored as they are. */
  lemma ExtendedIs(t: Tables, r: Row)
    requires Fits(Extended(t, r))
    ensures Fits(t) && |r.blocks| < B32
    ensures var e := Extended(t, r).entries[|t.entries|]; e.blockFirst == |t.blocks| && e.blockCount == |r.blocks|
    ensures |Extended(t, r).blocks| == |t.blocks| + |r.blocks|
    ensures r.body.None? ==> Extended(t, r).bodies == t.bodies && Extended(t, r).messages == t.messages
    ensures r.body.Some? ==>
              && |Extended(t, r).bodies| == |t.bodies| + 1 && Extended(t, r).bodies[..|t.bodies|] == t.bodies
              && Extended(t, r).bodies[|t.bodies|].entry == |t.entries|
              && Extended(t, r).bodies[|t.bodies|].msgFirst == |t.messages|
              && Extended(t, r).bodies[|t.bodies|].msgCount == |r.body.value.messages|
              && |Extended(t, r).messages| == |t.messages| + |r.body.value.messages|
  {
    hide Low32, Placed;
    Small(|t.blocks|);
    Small(|r.blocks|);
    Small(|t.entries|);
    Small(|t.messages|);
    if r.body.Some? { Small(|r.body.value.messages|); }
  }

  lemma Small(n: nat)
    ensures n < B32 ==> Low32(n) == n
  {
  }

  /** The last entry says where its blocks end, and the last body where its messages do. */
  lemma {:induction false} EndsKnown(rows: seq<Row>)
    requires Fits(IndexOf(rows))
    ensures rows != [] ==>
              IndexOf(rows).entries[|rows|-1].blockFirst
                + IndexOf(rows).entries[|rows|-1].blockCount == |IndexOf(rows).blocks|
    ensures IndexOf(rows).bodies == [] ==> IndexOf(rows).messages == []
    ensures IndexOf(rows).bodies != [] ==>
              var b := IndexOf(rows).bodies[|IndexOf(rows).bodies|-1];
              b.msgFirst + b.msgCount == |IndexOf(rows).messages|
    ensures rows == [] ==> IndexOf(rows).blocks == []
  {
    hide Extended;
    if rows != [] {
      ExtendedIs(IndexOf(rows[..|rows|-1]), rows[|rows|-1]);
      EndsKnown(rows[..|rows|-1]);
    }
  }

  /** Bodies name entries in order, those of a prefix below its length and the others at or above it. */
  lemma {:induction false} BodiesInOrder(rows: seq<Row>, k: nat)
    requires Fits(IndexOf(rows)) && k <= |rows|
    ensures |IndexOf(rows[..k]).bodies| <= |IndexOf(rows).bodies|
    ensures forall i :: 0 <= i < |IndexOf(rows).bodies| ==>
              (IndexOf(rows).bodies[i].entry < k <==> i < |IndexOf(rows[..k]).bodies|)
    ensures forall i :: 0 <= i < |IndexOf(rows).bodies| ==> IndexOf(rows).bodies[i].entry < |rows|
    decreases |rows|
  {
    hide Extended;
    if rows == [] {
      assert rows[..k] == [];
    } else {
      var n := |rows| - 1;
      var t, u := IndexOf(rows), IndexOf(rows[..n]);
      ExtendedIs(u, rows[n]);
      assert forall i :: 0 <= i < |u.bodies| ==> t.bodies[i] == u.bodies[i];
      if k < |rows| {
        BodiesInOrder(rows[..n], k);
        assert rows[..n][..k] == rows[..k];
      } else {
        BodiesInOrder(rows[..n], n);
        assert rows[..k] == rows;
      }
    }
  }

  /** The least position of a rising list where a number passes a bound, by halving. */
  method Search(keys: seq<nat>, bound: nat) returns (i: nat)
    requires forall j, k :: 0 <= j < k < |keys| ==> keys[j] <= keys[k]
    ensures i <= |keys|
    ensures forall j :: 0 <= j < i ==> keys[j] < bound
    ensures forall j :: i <= j < |keys| ==> keys[j] >= bound
  {
    var lo, hi := 0, |keys|;
    while lo < hi
      invariant 0 <= lo <= hi <= |keys|
      invariant forall j :: 0 <= j < lo ==> keys[j] < bound
      invariant forall j :: hi <= j < |keys| ==> keys[j] >= bound
    {
      var mid := (lo + hi) / 2;
      if keys[mid] >= bound { hi := mid; } else { lo := mid + 1; }
    }
    i := lo;
  }

  function SeqNos(es: seq<Entry>): (r: seq<nat>)
    ensures |r| == |es| && forall k :: 0 <= k < |es| ==> r[k] == es[k].seqNo
  {
    seq(|es|, k requires 0 <= k < |es| => es[k].seqNo)
  }

  function EntriesNamed(bs: seq<Body>): (r: seq<nat>)
    ensures |r| == |bs| && forall k :: 0 <= k < |bs| ==> r[k] == bs[k].entry
  {
    seq(|bs|, k requires 0 <= k < |bs| => bs[k].entry)
  }

  lemma {:induction false} NamedInOrder(rows: seq<Row>)
    requires Fits(IndexOf(rows))
    ensures forall j, k :: 0 <= j < k < |IndexOf(rows).bodies| ==>
              IndexOf(rows).bodies[j].entry <= IndexOf(rows).bodies[k].entry
  {
    hide Extended;
    if rows != [] {
      var n := |rows| - 1;
      ExtendedIs(IndexOf(rows[..n]), rows[n]);
      NamedInOrder(rows[..n]);
      BodiesInOrder(rows[..n], n);
    }
  }

  /**
   The index as it stood when the landed file with this sequence was the last:
   the index of the rows at or below it. Sequence 0 is no watermark.
   */
  method Through(t: Tables, s: nat, ghost rows: seq<Row>) returns (cut: Tables)
    requires t == IndexOf(rows) && Landed(rows) && Fits(t)
    ensures cut == if s == 0 then t else IndexOf(rows[..Below(rows, s)])
  {
    hide IndexOf, Begins, Low32;
    OneEach(rows);
    var n := |t.entries|;
    assert rows[..|rows|] == rows;
    if s == 0 || n == 0 || t.entries[n-1].seqNo <= s { return t; }
    var k := Search(SeqNos(t.entries), s + 1);
    BelowIs(rows, s, k);
    CutIs(rows, k);
    var blocks := 0;
    if k > 0 {
      var last := t.entries[k-1];
      blocks := Low32(last.blockFirst + last.blockCount);
      Small(last.blockFirst + last.blockCount);
    }
    NamedInOrder(rows);
    var bodies := Search(EntriesNamed(t.bodies), k);
    BodiesInOrder(rows, k);
    BodiesCut(t.bodies, |IndexOf(rows[..k]).bodies|, k, bodies);
    var messages := 0;
    if bodies > 0 {
      var last := t.bodies[bodies-1];
      messages := Low32(last.msgFirst + last.msgCount);
      Small(last.msgFirst + last.msgCount);
    }
    cut := Tables(t.entries[..k], t.blocks[..blocks], t.bodies[..bodies], t.messages[..messages]);
  }

  lemma BelowIs(rows: seq<Row>, s: nat, k: nat)
    requires Landed(rows) && k <= |rows|
    requires forall i :: 0 <= i < k ==> rows[i].entry.seqNo < s + 1
    requires forall i :: k <= i < |rows| ==> rows[i].entry.seqNo >= s + 1
    ensures k == Below(rows, s)
  {
    var b := Below(rows, s);
    assert k < |rows| ==> rows[k].entry.seqNo > s;
    assert b < |rows| ==> rows[b].entry.seqNo > s;
  }

  lemma BodiesCut(bs: seq<Body>, m: nat, k: nat, i: nat)
    requires m <= |bs| && i <= |bs|
    requires forall j :: 0 <= j < |bs| ==> (bs[j].entry < k <==> j < m)
    requires forall j :: 0 <= j < i ==> bs[j].entry < k
    requires forall j :: i <= j < |bs| ==> bs[j].entry >= k
    ensures i == m
  {
    assert i < |bs| ==> bs[i].entry >= k;
    assert m < |bs| ==> bs[m].entry >= k;
  }

  /** Where a prefix's tables end is said by its last entry and its last body. */
  lemma CutIs(rows: seq<Row>, k: nat)
    requires Fits(IndexOf(rows)) && k <= |rows|
    ensures Fits(IndexOf(rows[..k]))
    ensures var p, t := IndexOf(rows[..k]), IndexOf(rows);
            && |p.blocks| <= |t.blocks| && |p.bodies| <= |t.bodies| && |p.messages| <= |t.messages|
            && p == Tables(t.entries[..k], t.blocks[..|p.blocks|], t.bodies[..|p.bodies|], t.messages[..|p.messages|])
            && |p.blocks| == (if k == 0 then 0 else t.entries[k-1].blockFirst + t.entries[k-1].blockCount)
            && |p.messages| == (if p.bodies == [] then 0
                                else t.bodies[|p.bodies|-1].msgFirst + t.bodies[|p.bodies|-1].msgCount)
  {
    hide IndexOf;
    PrefixOf(rows, k);
    EndsKnown(rows[..k]);
  }

  /** The block ranges tile the block table, and the message ranges the message table. */
  ghost predicate Tiled(t: Tables) {
    BlocksTiled(t) && MessagesTiled(t)
  }

  /** Each body's message range begins where the one before ends, and the last ends the table. */
  ghost predicate MessagesTiled(t: Tables) {
    && (forall i :: 0 <= i < |t.bodies| ==> t.bodies[i].msgFirst + t.bodies[i].msgCount == MessagesAfter(t, i))
    && (if t.bodies == [] then t.messages == [] else t.bodies[0].msgFirst == 0)
  }

  /** Where the messages after body i's begin. */
  function MessagesAfter(t: Tables, i: int): nat {
    if 0 <= i + 1 < |t.bodies| then t.bodies[i+1].msgFirst else |t.messages|
  }

  /** Each entry's block range begins where the one before ends, and holds exactly the blocks that name the entry. */
  ghost predicate BlocksTiled(t: Tables) {
    && (forall i :: 0 <= i < |t.entries| ==> t.entries[i].blockFirst + t.entries[i].blockCount == FirstAfter(t, i))
    && (if t.entries == [] then t.blocks == [] else t.entries[0].blockFirst == 0)
    && (forall j :: 0 <= j < |t.blocks| ==> t.blocks[j].entry < |t.entries| && InRange(t.entries[t.blocks[j].entry], j))
  }

  /** Where the blocks after entry i's begin. */
  function FirstAfter(t: Tables, i: int): nat {
    if 0 <= i + 1 < |t.entries| then t.entries[i+1].blockFirst else |t.blocks|
  }

  predicate InRange(e: Entry, j: int) {
    e.blockFirst <= j < e.blockFirst + e.blockCount
  }

  /** However rows are appended, the ranges tile the tables. */
  lemma {:induction false} RowsTile(rows: seq<Row>)
    requires Fits(IndexOf(rows))
    ensures Tiled(IndexOf(rows))
  {
    hide Extended;
    if rows != [] {
      var n := |rows| - 1;
      ExtendedIs(IndexOf(rows[..n]), rows[n]);
      RowsTile(rows[..n]);
      EndsKnown(rows[..n]);
      TiledGrows(IndexOf(rows[..n]), rows[n]);
      MessagesGrow(IndexOf(rows[..n]), rows[n]);
    }
  }

  lemma MessagesGrow(t: Tables, r: Row)
    requires MessagesTiled(t) && Fits(Extended(t, r)) && Fits(t)
    requires t.bodies != [] ==> t.bodies[|t.bodies|-1].msgFirst + t.bodies[|t.bodies|-1].msgCount == |t.messages|
    ensures MessagesTiled(Extended(t, r))
  {
    hide Extended;
    ExtendedIs(t, r);
    var x := Extended(t, r);
    forall i | 0 <= i < |t.bodies| && r.body.Some? ensures x.bodies[i] == t.bodies[i] {
      assert x.bodies[..|t.bodies|][i] == x.bodies[i];
    }
  }

  lemma {:induction false} TiledGrows(t: Tables, r: Row)
    requires BlocksTiled(t) && Fits(Extended(t, r)) && Fits(t)
    requires t.entries != [] ==> t.entries[|t.entries|-1].blockFirst + t.entries[|t.entries|-1].blockCount == |t.blocks|
    requires t.entries == [] ==> t.blocks == []
    ensures BlocksTiled(Extended(t, r))
  {
    ExtendedIs(t, r);
    hide Low32;
    Small(|t.entries|);
    var x := Extended(t, r);
    forall j | 0 <= j < |x.blocks| ensures x.blocks[j].entry < |x.entries| && InRange(x.entries[x.blocks[j].entry], j) {
      assert j < |t.blocks| ==> x.blocks[j] == t.blocks[j];
      assert j >= |t.blocks| ==> x.blocks[j] == Placed(r.blocks, |t.entries|)[j - |t.blocks|];
    }
  }
}
