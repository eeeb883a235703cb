/** Writing an index to its file and reading it back. */
module IndexFile {
  import opened IndexData
  import opened IndexCodec

  const MAGIC: Bytes := [0x41, 0x53, 0x49, 0x58]
  const SCHEMA: U32 := 17

  // The widths of each table's fields, in the order they are laid out.
  const ENTRY: seq<nat> := [4, 4, 4, 4, 1, 1, 2, 8, 4, 4, 4, 4, 4, 4, 4, 4, 4, 8, 4, 4]
  const BLOCK: seq<nat> := [4, 4, 1, 4, 4, 4, 4, 4, 4]
  const BODY: seq<nat> := [4, 1, 4, 4, 4, 1, 4, 4, 1, 4, 4, 4, 4, 4, 4, 1, 1, 8, 8, 4, 1]
  const MESSAGE: seq<nat> := [1, 8, 8]

  /** Where field n of a record begins. */
  function OffsetOf(ws: seq<nat>, n: nat): nat
    requires n <= |ws|
  {
    if n == 0 then 0 else OffsetOf(ws, n - 1) + ws[n-1]
  }

  lemma {:induction false} OffsetNext(ws: seq<nat>, n: nat)
    requires 0 < n <= |ws|
    ensures OffsetOf(ws, n) == ws[0] + OffsetOf(ws[1..], n - 1)
  {
    if n > 1 { OffsetNext(ws, n - 1); }
  }

  /** A record's field n is at its offset, in its width. */
  lemma {:induction false} FieldAt(ws: seq<nat>, vs: seq<nat>, n: nat)
    requires n < |ws| == |vs|
    ensures OffsetOf(ws, n) + ws[n] <= Total(ws)
    ensures Pack(ws, vs)[OffsetOf(ws, n)..OffsetOf(ws, n) + ws[n]] == ToBytes(vs[n], ws[n])
  {
    hide ToBytes;
    if n == 0 {
      assert OffsetOf(ws, 0) == 0;
      Inside(ToBytes(vs[0], ws[0]), Pack(ws[1..], vs[1..]), 0, 0);
    } else {
      FieldAt(ws[1..], vs[1..], n - 1);
      OffsetNext(ws, n);
      Inside(ToBytes(vs[0], ws[0]), Pack(ws[1..], vs[1..]), OffsetOf(ws[1..], n - 1), ws[n]);
    }
  }

  /** A stretch of the second part of two, and the first part, found in both together. */
  lemma Inside(a: Bytes, b: Bytes, at: nat, width: nat)
    requires at + width <= |b|
    ensures (a + b)[..|a|] == a && (a + b)[|a| + at..|a| + at + width] == b[at..at + width]
  {
  }

  lemma {:induction false} TotalIsOffset(ws: seq<nat>)
    ensures Total(ws) == OffsetOf(ws, |ws|)
  {
    if ws != [] {
      TotalIsOffset(ws[1..]);
      OffsetNext(ws, |ws|);
    }
  }

  // Where each field begins, and where the record ends.
  const ENTRY_AT: seq<nat> := [0, 4, 8, 12, 16, 17, 18, 20, 28, 32, 36, 40, 44, 48, 52, 56, 60, 64, 72, 76, 80]
  const BLOCK_AT: seq<nat> := [0, 4, 8, 9, 13, 17, 21, 25, 29, 33]
  const BODY_AT: seq<nat> :=
    [0, 4, 5, 9, 13, 17, 18, 22, 26, 27, 31, 35, 39, 43, 47, 51, 52, 53, 61, 69, 73, 74]
  const MESSAGE_AT: seq<nat> := [0, 1, 9, 17]

  /** These are where fields of these widths begin, one after another. */
  ghost predicate Follow(ws: seq<nat>, at: seq<nat>) {
    |at| == |ws| + 1 && at[0] == 0 && forall n :: 0 <= n < |ws| ==> at[n+1] == at[n] + ws[n]
  }

  lemma {:induction false} OffsetIs(ws: seq<nat>, at: seq<nat>, n: nat)
    requires Follow(ws, at) && n <= |ws|
    ensures OffsetOf(ws, n) == at[n]
  {
    if n > 0 { OffsetIs(ws, at, n - 1); }
  }

  lemma AllFollow()
    ensures Follow(ENTRY, ENTRY_AT) && Follow(BLOCK, BLOCK_AT) && Follow(BODY, BODY_AT) && Follow(MESSAGE, MESSAGE_AT)
  {
  }

  /** The records' widths, and where an entry's later fields and a body's lie, as the format states them. */
  lemma {:induction false} WidthsAre()
    ensures Total(ENTRY) == 80 && Total(BLOCK) == 33 && Total(BODY) == 74 && Total(MESSAGE) == 17
    ensures OffsetOf(ENTRY, 7) == 20 && OffsetOf(ENTRY, 8) == 28 && OffsetOf(ENTRY, 17) == 64
    ensures OffsetOf(ENTRY, 18) == 72
    ensures OffsetOf(BODY, 9) == 27 && OffsetOf(BODY, 15) == 51 && OffsetOf(BODY, 17) == 53 && OffsetOf(BODY, 20) == 73
  {
    hide OffsetOf, Total, Follow;
    AllFollow();
    forall n: nat | n <= |ENTRY| ensures OffsetOf(ENTRY, n) == ENTRY_AT[n] { OffsetIs(ENTRY, ENTRY_AT, n); }
    forall n: nat | n <= |BODY| ensures OffsetOf(BODY, n) == BODY_AT[n] { OffsetIs(BODY, BODY_AT, n); }
    OffsetIs(BLOCK, BLOCK_AT, |BLOCK|);
    OffsetIs(MESSAGE, MESSAGE_AT, |MESSAGE|);
    TotalIsOffset(ENTRY);
    TotalIsOffset(BODY);
    TotalIsOffset(BLOCK);
    TotalIsOffset(MESSAGE);
  }

  /** Field n of a packed record is stored where it begins. */
  lemma {:induction false} FieldStored(ws: seq<nat>, at: seq<nat>, vs: seq<nat>, n: nat)
    requires Follow(ws, at) && |vs| == |ws| && n < |ws|
    ensures Stored(Pack(ws, vs), at[n], ws[n], vs[n])
  {
    hide Pack, ToBytes, Pow;
    OffsetIs(ws, at, n);
    FieldAt(ws, vs, n);
    var b := Pack(ws, vs);
    forall k | 0 <= k < ws[n] ensures b[at[n] + k] == vs[n] / Pow(k) % 256 {
      LowestFirst(vs[n], ws[n], k);
      assert b[at[n]..at[n] + ws[n]][k] == b[at[n] + k];
    }
  }

  /** Every field of a packed record is stored where it begins. */
  ghost predicate AllStored(b: Bytes, at: seq<nat>, ws: seq<nat>, vs: seq<nat>) {
    |at| > |ws| == |vs| && forall n :: 0 <= n < |vs| ==> Stored(b, at[n], ws[n], vs[n])
  }

  lemma {:induction false} FieldsStored(ws: seq<nat>, at: seq<nat>, vs: seq<nat>)
    requires Follow(ws, at) && |vs| == |ws|
    ensures AllStored(Pack(ws, vs), at, ws, vs)
  {
    hide Pack, Stored;
    forall n | 0 <= n < |vs| ensures Stored(Pack(ws, vs), at[n], ws[n], vs[n]) { FieldStored(ws, at, vs, n); }
  }

  // ---------------------------------------------------------------------
  // Records as fields.
  // ---------------------------------------------------------------------

  function Bits(x: I64): U64 {
    if x < 0 then x + B64 else x
  }

  function FromBits(u: U64): I64 {
    if u >= B63 then u - B64 else u
  }

  function Flag(b: bool): U8 {
    if b then 1 else 0
  }

  function EntryFields(e: Entry): (vs: seq<nat>)
    ensures Fields(ENTRY, vs)
  {
    PowIs();
    [e.seqNo, e.row, e.stream, e.batch, e.kind, e.trigger, e.flags, Bits(e.ts), e.record, e.parent, e.call, e.run,
     e.continues, e.tool, e.child, e.startedBy, e.title, e.ord, e.blockFirst, e.blockCount]
  }

  function EntryFrom(vs: seq<nat>): Entry
    requires Fields(ENTRY, vs)
  {
    PowIs();
    Entry(vs[0], vs[1], vs[2], vs[3], vs[4], vs[5], vs[6], FromBits(vs[7]), vs[8], vs[9], vs[10], vs[11],
          vs[12], vs[13], vs[14], vs[15], vs[16], vs[17], vs[18], vs[19])
  }

  function BlockFields(b: Block): (vs: seq<nat>)
    ensures Fields(BLOCK, vs)
  {
    PowIs();
    [b.entry, b.ord, b.kind, b.toolId, b.name, b.adds, b.dels, b.server, b.serverTool]
  }

  function BlockFrom(vs: seq<nat>): Block
    requires Fields(BLOCK, vs)
  {
    PowIs();
    Block(vs[0], vs[1], vs[2], vs[3], vs[4], vs[5], vs[6], vs[7], vs[8])
  }

  function BodyFields(x: Body): (vs: seq<nat>)
    ensures Fields(BODY, vs)
  {
    PowIs();
    [x.entry, x.role, x.request, x.previous, x.form, x.thread, x.threadPrevious, x.system, x.list, x.listBase,
     x.listKeep,
     x.msgFirst, x.msgCount, x.listWhy, x.listCount, x.reply, Flag(x.replyHasId), x.replyId, x.replyDigest, x.replyWhy,
     Flag(x.systemUnknown)]
  }

  function BodyFrom(vs: seq<nat>): Body
    requires Fields(BODY, vs)
  {
    PowIs();
    Body(vs[0], vs[1], vs[2], vs[3], vs[4], vs[5], vs[6], vs[7], vs[8], vs[9], vs[10], vs[11], vs[12], vs[13], vs[14],
         vs[15], vs[16] == 1, vs[17], vs[18], vs[19], vs[20] == 1)
  }

  function MessageFields(m: ListEntry): (vs: seq<nat>)
    ensures Fields(MESSAGE, vs)
  {
    PowIs();
    [Flag(m.hasId), m.id, m.digest]
  }

  function MessageFrom(vs: seq<nat>): ListEntry
    requires Fields(MESSAGE, vs)
  {
    PowIs();
    ListEntry(vs[0] == 1, vs[1], vs[2])
  }

  /** An entry's bytes: each field where the format puts it, a negative time as its two's complement. */
  lemma EntryStored(e: Entry)
    ensures var b := Pack(ENTRY, EntryFields(e));
            && Stored(b, 0, 4, e.seqNo) && Stored(b, 4, 4, e.row) && Stored(b, 8, 4, e.stream)
            && Stored(b, 12, 4, e.batch) && Stored(b, 16, 1, e.kind) && Stored(b, 17, 1, e.trigger)
              && Stored(b, 18, 2, e.flags)
            && Stored(b, 20, 8, if e.ts < 0 then e.ts + B64 else e.ts) && Stored(b, 28, 4, e.record)
            && Stored(b, 32, 4, e.parent) && Stored(b, 36, 4, e.call) && Stored(b, 40, 4, e.run)
            && Stored(b, 44, 4, e.continues) && Stored(b, 48, 4, e.tool) && Stored(b, 52, 4, e.child)
            && Stored(b, 56, 4, e.startedBy) && Stored(b, 60, 4, e.title) && Stored(b, 64, 8, e.ord)
            && Stored(b, 72, 4, e.blockFirst) && Stored(b, 76, 4, e.blockCount)
  {
    hide Follow, Pack, Stored, AllStored, Fields, Bits, Total, Pow;
    AllFollow();
    BitsAre(e.ts);
    FieldsStored(ENTRY, ENTRY_AT, EntryFields(e));
    EntryPlaces(Pack(ENTRY, EntryFields(e)), EntryFields(e));
  }

  /** A body's bytes likewise. */
  lemma BodyStored(x: Body)
    ensures var b := Pack(BODY, BodyFields(x));
            && Stored(b, 0, 4, x.entry) && Stored(b, 4, 1, x.role) && Stored(b, 5, 4, x.request)
            && Stored(b, 9, 4, x.previous) && Stored(b, 13, 4, x.form) && Stored(b, 17, 1, x.thread)
            && Stored(b, 18, 4, x.threadPrevious) && Stored(b, 22, 4, x.system) && Stored(b, 26, 1, x.list)
            && Stored(b, 27, 4, x.listBase) && Stored(b, 31, 4, x.listKeep) && Stored(b, 35, 4, x.msgFirst)
            && Stored(b, 39, 4, x.msgCount) && Stored(b, 43, 4, x.listWhy) && Stored(b, 47, 4, x.listCount)
            && Stored(b, 51, 1, x.reply) && Stored(b, 52, 1, if x.replyHasId then 1 else 0)
              && Stored(b, 53, 8, x.replyId)
            && Stored(b, 61, 8, x.replyDigest) && Stored(b, 69, 4, x.replyWhy)
            && Stored(b, 73, 1, if x.systemUnknown then 1 else 0)
  {
    hide Follow, Pack, Stored, AllStored, Fields, Bits, Total, Pow;
    AllFollow();
    FieldsStored(BODY, BODY_AT, BodyFields(x));
    BodyPlaces(Pack(BODY, BodyFields(x)), BodyFields(x));
  }

  /** And the bytes of a block and of an entry of a list. */
  lemma BlockStored(k: Block, m: ListEntry)
    ensures var b := Pack(BLOCK, BlockFields(k));
            && Stored(b, 0, 4, k.entry) && Stored(b, 4, 4, k.ord) && Stored(b, 8, 1, k.kind)
            && Stored(b, 9, 4, k.toolId) && Stored(b, 13, 4, k.name) && Stored(b, 17, 4, k.adds)
            && Stored(b, 21, 4, k.dels) && Stored(b, 25, 4, k.server) && Stored(b, 29, 4, k.serverTool)
    ensures var b := Pack(MESSAGE, MessageFields(m));
            Stored(b, 0, 1, if m.hasId then 1 else 0) && Stored(b, 1, 8, m.id) && Stored(b, 9, 8, m.digest)
  {
    hide Follow, Pack, Stored, AllStored, Fields, Bits, Total, Pow;
    AllFollow();
    FieldsStored(BLOCK, BLOCK_AT, BlockFields(k));
    FieldsStored(MESSAGE, MESSAGE_AT, MessageFields(m));
    BlockPlaces(Pack(BLOCK, BlockFields(k)), BlockFields(k));
    MessagePlaces(Pack(MESSAGE, MessageFields(m)), MessageFields(m));
  }

  lemma BitsAre(x: I64)
    ensures Bits(x) == if x < 0 then x + B64 else x
  {
  }

  lemma EntryPlaces(b: Bytes, vs: seq<nat>)
    requires |vs| == 20 && AllStored(b, ENTRY_AT, ENTRY, vs)
    ensures && Stored(b, 0, 4, vs[0]) && Stored(b, 4, 4, vs[1]) && Stored(b, 8, 4, vs[2])
            && Stored(b, 12, 4, vs[3]) && Stored(b, 16, 1, vs[4]) && Stored(b, 17, 1, vs[5])
            && Stored(b, 18, 2, vs[6]) && Stored(b, 20, 8, vs[7]) && Stored(b, 28, 4, vs[8])
            && Stored(b, 32, 4, vs[9]) && Stored(b, 36, 4, vs[10]) && Stored(b, 40, 4, vs[11])
            && Stored(b, 44, 4, vs[12]) && Stored(b, 48, 4, vs[13]) && Stored(b, 52, 4, vs[14])
            && Stored(b, 56, 4, vs[15]) && Stored(b, 60, 4, vs[16]) && Stored(b, 64, 8, vs[17])
            && Stored(b, 72, 4, vs[18]) && Stored(b, 76, 4, vs[19])
  {
    hide Stored;
  }

  lemma BodyPlaces(b: Bytes, vs: seq<nat>)
    requires |vs| == 21 && AllStored(b, BODY_AT, BODY, vs)
    ensures && Stored(b, 0, 4, vs[0]) && Stored(b, 4, 1, vs[1]) && Stored(b, 5, 4, vs[2])
            && Stored(b, 9, 4, vs[3]) && Stored(b, 13, 4, vs[4]) && Stored(b, 17, 1, vs[5])
            && Stored(b, 18, 4, vs[6]) && Stored(b, 22, 4, vs[7]) && Stored(b, 26, 1, vs[8])
            && Stored(b, 27, 4, vs[9]) && Stored(b, 31, 4, vs[10]) && Stored(b, 35, 4, vs[11])
            && Stored(b, 39, 4, vs[12]) && Stored(b, 43, 4, vs[13]) && Stored(b, 47, 4, vs[14])
            && Stored(b, 51, 1, vs[15]) && Stored(b, 52, 1, vs[16]) && Stored(b, 53, 8, vs[17])
            && Stored(b, 61, 8, vs[18]) && Stored(b, 69, 4, vs[19]) && Stored(b, 73, 1, vs[20])
  {
    hide Stored;
  }

  lemma BlockPlaces(b: Bytes, vs: seq<nat>)
    requires |vs| == 9 && AllStored(b, BLOCK_AT, BLOCK, vs)
    ensures && Stored(b, 0, 4, vs[0]) && Stored(b, 4, 4, vs[1]) && Stored(b, 8, 1, vs[2])
            && Stored(b, 9, 4, vs[3]) && Stored(b, 13, 4, vs[4]) && Stored(b, 17, 4, vs[5])
            && Stored(b, 21, 4, vs[6]) && Stored(b, 25, 4, vs[7]) && Stored(b, 29, 4, vs[8])
  {
    hide Stored;
  }

  lemma MessagePlaces(b: Bytes, vs: seq<nat>)
    requires |vs| == 3 && AllStored(b, MESSAGE_AT, MESSAGE, vs)
    ensures && Stored(b, 0, 1, vs[0]) && Stored(b, 1, 8, vs[1]) && Stored(b, 9, 8, vs[2])
  {
    hide Stored;
  }

  /** Every record reads back from its fields. */
  lemma EntryBack(e: Entry)
    ensures EntryFrom(EntryFields(e)) == e
  {
    assert FromBits(Bits(e.ts)) == e.ts;
  }

  lemma BlockBack(b: Block)
    ensures BlockFrom(BlockFields(b)) == b
  {
    var vs := BlockFields(b);
    assert |vs| == 9;
  }

  lemma BodyBack(x: Body)
    ensures BodyFrom(BodyFields(x)) == x
  {
    assert (Flag(x.replyHasId) == 1) == x.replyHasId && (Flag(x.systemUnknown) == 1) == x.systemUnknown;
  }

  lemma MessageBack(m: ListEntry)
    ensures MessageFrom(MessageFields(m)) == m
  {
    assert (Flag(m.hasId) == 1) == m.hasId;
  }

  function AllEntryFields(es: seq<Entry>): (rs: seq<seq<nat>>)
    ensures |rs| == |es| && forall k :: 0 <= k < |es| ==> rs[k] == EntryFields(es[k]) && Fields(ENTRY, rs[k])
  {
    seq(|es|, k requires 0 <= k < |es| => EntryFields(es[k]))
  }

  function AllBlockFields(bs: seq<Block>): (rs: seq<seq<nat>>)
    ensures |rs| == |bs| && forall k :: 0 <= k < |bs| ==> rs[k] == BlockFields(bs[k]) && Fields(BLOCK, rs[k])
  {
    seq(|bs|, k requires 0 <= k < |bs| => BlockFields(bs[k]))
  }

  function AllBodyFields(xs: seq<Body>): (rs: seq<seq<nat>>)
    ensures |rs| == |xs| && forall k :: 0 <= k < |xs| ==> rs[k] == BodyFields(xs[k]) && Fields(BODY, rs[k])
  {
    seq(|xs|, k requires 0 <= k < |xs| => BodyFields(xs[k]))
  }

  function AllMessageFields(ms: seq<ListEntry>): (rs: seq<seq<nat>>)
    ensures |rs| == |ms| && forall k :: 0 <= k < |ms| ==> rs[k] == MessageFields(ms[k]) && Fields(MESSAGE, rs[k])
  {
    seq(|ms|, k requires 0 <= k < |ms| => MessageFields(ms[k]))
  }

  function EntriesFrom(rs: seq<seq<nat>>): (es: seq<Entry>)
    requires forall k :: 0 <= k < |rs| ==> Fields(ENTRY, rs[k])
    ensures |es| == |rs| && forall k :: 0 <= k < |rs| ==> es[k] == EntryFrom(rs[k])
  {
    seq(|rs|, k requires 0 <= k < |rs| => EntryFrom(rs[k]))
  }

  function BlocksFrom(rs: seq<seq<nat>>): (bs: seq<Block>)
    requires forall k :: 0 <= k < |rs| ==> Fields(BLOCK, rs[k])
    ensures |bs| == |rs| && forall k :: 0 <= k < |rs| ==> bs[k] == BlockFrom(rs[k])
  {
    seq(|rs|, k requires 0 <= k < |rs| => BlockFrom(rs[k]))
  }

  function BodiesFrom(rs: seq<seq<nat>>): (xs: seq<Body>)
    requires forall k :: 0 <= k < |rs| ==> Fields(BODY, rs[k])
    ensures |xs| == |rs| && forall k :: 0 <= k < |rs| ==> xs[k] == BodyFrom(rs[k])
  {
    seq(|rs|, k requires 0 <= k < |rs| => BodyFrom(rs[k]))
  }

  function MessagesFrom(rs: seq<seq<nat>>): (ms: seq<ListEntry>)
    requires forall k :: 0 <= k < |rs| ==> Fields(MESSAGE, rs[k])
    ensures |ms| == |rs| && forall k :: 0 <= k < |rs| ==> ms[k] == MessageFrom(rs[k])
  {
    seq(|rs|, k requires 0 <= k < |rs| => MessageFrom(rs[k]))
  }

  lemma TablesBack(t: Tables)
    ensures EntriesFrom(AllEntryFields(t.entries)) == t.entries && BlocksFrom(AllBlockFields(t.blocks)) == t.blocks
    ensures BodiesFrom(AllBodyFields(t.bodies)) == t.bodies && MessagesFrom(AllMessageFields(t.messages)) == t.messages
  {
    hide EntryFrom, EntryFields, BlockFrom, BlockFields, BodyFrom, BodyFields, MessageFrom, MessageFields, Fields;
    forall k | 0 <= k < |t.entries|
      ensures EntryFrom(EntryFields(t.entries[k])) == t.entries[k]
    {
      EntryBack(t.entries[k]);
    }
    forall k | 0 <= k < |t.blocks|
      ensures BlockFrom(BlockFields(t.blocks[k])) == t.blocks[k]
    {
      BlockBack(t.blocks[k]);
    }
    forall k | 0 <= k < |t.bodies| ensures BodyFrom(BodyFields(t.bodies[k])) == t.bodies[k] { BodyBack(t.bodies[k]); }
    forall k | 0 <= k < |t.messages|
      ensures MessageFrom(MessageFields(t.messages[k])) == t.messages[k]
    {
      MessageBack(t.messages[k]);
    }
  }

  // ---------------------------------------------------------------------
  // The file.
  // ---------------------------------------------------------------------

  function Header(): Bytes {
    MAGIC + ToBytes(SCHEMA, 4)
  }

  function AfterBodies(t: Tables): Bytes {
    Table(MESSAGE, AllMessageFields(t.messages))
  }

  function AfterBlocks(t: Tables): Bytes {
    Table(BODY, AllBodyFields(t.bodies)) + AfterBodies(t)
  }

  function AfterEntries(t: Tables): Bytes {
    Table(BLOCK, AllBlockFields(t.blocks)) + AfterBlocks(t)
  }

  function AfterStrings(t: Tables): Bytes {
    Table(ENTRY, AllEntryFields(t.entries)) + AfterEntries(t)
  }

  /** The file of an index. */
  function FileOf(strs: seq<Bytes>, t: Tables): Bytes {
    Header() + (Strings(strs) + AfterStrings(t))
  }

  datatype Loaded = NotOne | CutShort | Index(strs: seq<Bytes>, t: Tables)

  /** The bodies name messages there are, and the entries are in landed order. */
  predicate Sane(t: Tables) {
    && (forall k :: 0 <= k < |t.bodies| ==> t.bodies[k].msgFirst + t.bodies[k].msgCount <= |t.messages|)
    && (forall k :: 0 < k < |t.entries| ==> t.entries[k-1].seqNo <= t.entries[k].seqNo)
  }

  /** What a file holds: another file, one cut short, or an index. */
  function LoadOf(d: Bytes): Loaded {
    if |d| < 8 || d[..4] != MAGIC || FromBytes(d[4..8]) != SCHEMA then NotOne
    else LoadBody(d[8..])
  }

  function LoadBody(d: Bytes): Loaded {
    var a := ReadStrings(d);
    if a.Short? then CutShort
    else
      var b := ReadTable(ENTRY, a.rest);
      if b.Short? then CutShort
      else
        var c := ReadTable(BLOCK, b.rest);
        if c.Short? then CutShort
        else
          var x := ReadTable(BODY, c.rest);
          if x.Short? then CutShort
          else
            var m := ReadTable(MESSAGE, x.rest);
            if m.Short? then CutShort
            else
              var t := Tables(EntriesFrom(b.value), BlocksFrom(c.value), BodiesFrom(x.value), MessagesFrom(m.value));
              if Sane(t) then Index(a.value, t) else NotOne
  }

  /** What can be written: tables and strings whose sizes fit the file's counts. */
  predicate Writable(strs: seq<Bytes>, t: Tables) {
    && ShortStrings(strs) && Sane(t)
    && |t.entries| < B32 && |t.blocks| < B32 && |t.bodies| < B32 && |t.messages| < B32
  }

  lemma HeaderIs(d: Bytes)
    requires Header() <= d
    ensures |Header()| == 8 && |d| >= 8 && d[..4] == MAGIC && FromBytes(d[4..8]) == SCHEMA
  {
    PowIs();
    NumberBack(SCHEMA, 4);
    assert d[4..8] == d[..8][4..] == Header()[4..] == ToBytes(SCHEMA, 4);
    assert d[..4] == d[..8][..4] == Header()[..4] == MAGIC;
  }

  /** An index that is written reads back as it was, whatever follows it in the file. */
  lemma {:induction false} FileBack(strs: seq<Bytes>, t: Tables, tail: Bytes)
    requires Writable(strs, t)
    ensures LoadOf(FileOf(strs, t) + tail) == Index(strs, t)
  {
    hide Strings, Table, ReadTable, ReadStrings, EntriesFrom, BlocksFrom, BodiesFrom, MessagesFrom, Sane, ShortStrings,
      AllEntryFields, AllBlockFields, AllBodyFields, AllMessageFields, Fields, Header, ToBytes;
    var d := FileOf(strs, t) + tail;
    HeaderIs(d);
    var a, b, c, x, m := Strings(strs), Table(ENTRY, AllEntryFields(t.entries)), Table(BLOCK, AllBlockFields(t.blocks)),
        Table(BODY, AllBodyFields(t.bodies)), Table(MESSAGE, AllMessageFields(t.messages));
    assert d[8..] == a + (b + (c + (x + (m + tail))));
    StringsBack(strs, b + (c + (x + (m + tail))));
    TableBack(ENTRY, AllEntryFields(t.entries), c + (x + (m + tail)));
    TableBack(BLOCK, AllBlockFields(t.blocks), x + (m + tail));
    TableBack(BODY, AllBodyFields(t.bodies), m + tail);
    TableBack(MESSAGE, AllMessageFields(t.messages), tail);
    TablesBack(t);
  }

  /** A file cut short anywhere holds no index: it is refused, never read as a shorter one. */
  lemma CutIsRefused(strs: seq<Bytes>, t: Tables, d: Bytes)
    requires Writable(strs, t) && d < FileOf(strs, t)
    ensures if |d| < 8 then LoadOf(d) == NotOne else LoadOf(d) == CutShort
  {
    hide Strings, Table, ReadTable, ReadStrings, EntriesFrom, BlocksFrom, BodiesFrom, MessagesFrom, Sane, ShortStrings,
      AllEntryFields, AllBlockFields, AllBodyFields, AllMessageFields, Fields, Header, ToBytes, AfterStrings, LoadBody;
    HeaderIs(Header());
    CutIn(Header(), Strings(strs) + AfterStrings(t), d);
    if |d| >= 8 {
      HeaderIs(d);
      CutInStrings(strs, t, d[8..]);
    }
  }

  lemma CutInStrings(strs: seq<Bytes>, t: Tables, d: Bytes)
    requires Writable(strs, t) && d < Strings(strs) + AfterStrings(t)
    ensures LoadBody(d) == CutShort
  {
    hide Strings, Table, ReadTable, ReadStrings, Sane, ShortStrings, Fields, AfterStrings,
      EntriesFrom, BlocksFrom, BodiesFrom, MessagesFrom;
    CutIn(Strings(strs), AfterStrings(t), d);
    if d < Strings(strs) {
      StringsShort(strs, d);
    } else {
      var y := d[|Strings(strs)|..];
      assert d == Strings(strs) + y;
      StringsBack(strs, y);
      CutInEntries(strs, t, y);
    }
  }

  lemma CutInEntries(strs: seq<Bytes>, t: Tables, y: Bytes)
    requires Writable(strs, t) && y < AfterStrings(t)
    ensures ReadTable(ENTRY, y).Short? || ReadTable(BLOCK, ReadTable(ENTRY, y).rest).Short?
            || ReadTable(BODY, ReadTable(BLOCK, ReadTable(ENTRY, y).rest).rest).Short?
            || ReadTable(MESSAGE, ReadTable(BODY, ReadTable(BLOCK, ReadTable(ENTRY, y).rest).rest).rest).Short?
  {
    hide Table, ReadTable, Sane, ShortStrings, AllEntryFields, Fields, AfterEntries;
    var a := Table(ENTRY, AllEntryFields(t.entries));
    CutIn(a, AfterEntries(t), y);
    if y < a {
      TableShort(ENTRY, AllEntryFields(t.entries), y);
    } else {
      var z := y[|a|..];
      assert y == a + z;
      TableBack(ENTRY, AllEntryFields(t.entries), z);
      CutInBlocks(strs, t, z);
    }
  }

  lemma CutInBlocks(strs: seq<Bytes>, t: Tables, y: Bytes)
    requires Writable(strs, t) && y < AfterEntries(t)
    ensures ReadTable(BLOCK, y).Short? || ReadTable(BODY, ReadTable(BLOCK, y).rest).Short?
            || ReadTable(MESSAGE, ReadTable(BODY, ReadTable(BLOCK, y).rest).rest).Short?
  {
    hide Table, ReadTable, Sane, ShortStrings, AllBlockFields, Fields, AfterBlocks;
    var a := Table(BLOCK, AllBlockFields(t.blocks));
    CutIn(a, AfterBlocks(t), y);
    if y < a {
      TableShort(BLOCK, AllBlockFields(t.blocks), y);
    } else {
      var z := y[|a|..];
      assert y == a + z;
      TableBack(BLOCK, AllBlockFields(t.blocks), z);
      CutInBodies(strs, t, z);
    }
  }

  lemma CutInBodies(strs: seq<Bytes>, t: Tables, y: Bytes)
    requires Writable(strs, t) && y < AfterBlocks(t)
    ensures ReadTable(BODY, y).Short? || ReadTable(MESSAGE, ReadTable(BODY, y).rest).Short?
  {
    hide Table, ReadTable, Sane, ShortStrings, AllBodyFields, AllMessageFields, Fields;
    var a, b := Table(BODY, AllBodyFields(t.bodies)), Table(MESSAGE, AllMessageFields(t.messages));
    CutIn(a, b, y);
    if y < a {
      TableShort(BODY, AllBodyFields(t.bodies), y);
    } else {
      var z := y[|a|..];
      assert y == a + z;
      TableBack(BODY, AllBodyFields(t.bodies), z);
      TableShort(MESSAGE, AllMessageFields(t.messages), z);
    }
  }
}
