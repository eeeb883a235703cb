/**
 Extending a session's index as files land, with a crash between any two
 steps. The index is written before its state is saved, so an index that
 already holds what the state says it does not is never extended.
 */
module Recovery {
  import opened IndexData
  import opened IndexTables
  import opened IndexCodec
  import opened IndexFile
  import opened IndexIO

  /** A landed file: its sequence, and what is read from its records. */
  datatype File = File(seqNo: U32, rows: seq<Row>)

  datatype State = State(schema: nat, indexedSeq: nat, entries: nat)

  const NO_STATE := State(0, 0, 0)

  datatype Disk = Disk(files: seq<File>, index: Option<Bytes>, state: State)

  /** Where a collector's pass is; t is the index it holds in memory, after the sequence it has indexed to. */
  datatype Pass = Idle | Taken(t: Tables, after: nat) | Ready(t: Tables) | Between(t: Tables) | Written(t: Tables)

  datatype World = World(disk: Disk, pass: Pass)

  // ---------------------------------------------------------------------
  // The files.
  // ---------------------------------------------------------------------

  /** The rows of some files, in order. */
  function Rows(files: seq<File>): seq<Row> {
    if files == [] then [] else Rows(files[..|files|-1]) + files[|files|-1].rows
  }

  /** Sequences rise, and each row carries its file's. */
  predicate InOrder(files: seq<File>) {
    && (forall j, k :: 0 <= j < k < |files| ==> files[j].seqNo < files[k].seqNo)
    && (forall k, i :: 0 <= k < |files| && 0 <= i < |files[k].rows| ==> files[k].rows[i].entry.seqNo == files[k].seqNo)
    && (forall k :: 0 <= k < |files| ==> files[k].seqNo > 0)
  }

  function LandedTo(files: seq<File>): nat {
    if files == [] then 0 else files[|files|-1].seqNo
  }

  lemma {:induction false} RowsOfBoth(a: seq<File>, b: seq<File>)
    ensures Rows(a + b) == Rows(a) + Rows(b)
  {
    if b == [] {
      assert a + b == a;
    } else {
      assert (a + b)[..|a + b| - 1] == a + b[..|b|-1];
      RowsOfBoth(a, b[..|b|-1]);
    }
  }

  lemma {:induction false} RowsSplit(files: seq<File>, n: nat)
    requires n <= |files|
    ensures Rows(files) == Rows(files[..n]) + Rows(files[n..])
  {
    hide Rows;
    RowsOfBoth(files[..n], files[n..]);
    assert files == files[..n] + files[n..];
  }

  lemma {:induction false} RowsLanded(files: seq<File>)
    requires InOrder(files)
    ensures Landed(Rows(files)) && forall i :: 0 <= i < |Rows(files)| ==> Rows(files)[i].entry.seqNo <= LandedTo(files)
  {
    if files != [] {
      var n := |files| - 1;
      RowsLanded(files[..n]);
      var a, b := Rows(files[..n]), files[n].rows;
      assert n > 0 ==> LandedTo(files[..n]) == files[n-1].seqNo;
    }
  }

  // ---------------------------------------------------------------------
  // Taking an index, and closing the gap.
  // ---------------------------------------------------------------------

  /** The index a pass takes: only one whose entry count is what the state saved. */
  function LoadFor(index: Option<Bytes>, st: State): Option<Tables> {
    if st.schema != SCHEMA || index.None? then None
    else
      var l := LoadOf(index.value);
      if l.Index? && |l.t.entries| == st.entries then Some(l.t) else None
  }

  /** Indexes every landed file above a sequence. */
  method Rebuild(files: seq<File>, ix: Index, after: nat, ghost n: nat)
    requires InOrder(files) && n <= |files| && ix.t == IndexOf(Rows(files[..n]))
    requires Divides(files, after, n)
    modifies ix
    ensures ix.t == IndexOf(Rows(files))
  {
    hide IndexOf, Rows;
    assert files[..0] == [] && files[..n][..0] == [];
    for k := 0 to |files|
      invariant ix.t == IndexOf(Rows(files[..if k < n then n else k]))
    {
      if files[k].seqNo <= after { continue; }
      ghost var before := Rows(files[..k]);
      ix.AppendStaged(files[k].rows, before);
      OneMoreFile(files, k);
    }
    assert files[..|files|] == files;
  }

  lemma OneMoreFile(files: seq<File>, k: nat)
    requires k < |files|
    ensures Rows(files[..k+1]) == Rows(files[..k]) + files[k].rows
  {
    assert files[..k+1][..k] == files[..k];
  }

  // ---------------------------------------------------------------------
  // What may happen.
  // ---------------------------------------------------------------------

  predicate Init(w: World) {
    w == World(Disk([], None, NO_STATE), Idle)
  }

  /** A pass takes the index its state describes, or starts an empty one from sequence 0. */
  predicate Takes(w: World, w': World) {
    && w.pass.Idle? && w'.disk == w.disk
    && var l := LoadFor(w.disk.index, w.disk.state);
       w'.pass == if l.Some? then Taken(l.value, w.disk.state.indexedSeq) else Taken(NO_TABLES, 0)
  }

  /** The files above what is indexed, in order. */
  function Above(files: seq<File>, after: nat): seq<File> {
    if files == [] then []
    else Above(files[..|files|-1], after) + if files[|files|-1].seqNo <= after then [] else [files[|files|-1]]
  }

  function ExtendedBy(t: Tables, rows: seq<Row>): Tables {
    if rows == [] then t else Extended(ExtendedBy(t, rows[..|rows|-1]), rows[|rows|-1])
  }

  /** It indexes every file above the sequence it took the index at. */
  predicate CatchesUp(w: World, w': World) {
    && w.pass.Taken? && w'.disk == w.disk
    && w'.pass == Ready(ExtendedBy(w.pass.t, Rows(Above(w.disk.files, w.pass.after))))
  }

  /** A file lands, under a sequence above every other. */
  predicate Lands(w: World, w': World, f: File) {
    && w.pass.Ready? && InOrder(w.disk.files + [f]) && Fits(IndexOf(Rows(w.disk.files + [f])))
    && w' == World(w.disk.(files := w.disk.files + [f]), Between(w.pass.t))
  }

  /** Its rows join the index in memory. */
  predicate Appends(w: World, w': World) {
    && w.pass.Between? && w.disk.files != []
    && w' == World(w.disk, Ready(ExtendedBy(w.pass.t, w.disk.files[|w.disk.files|-1].rows)))
  }

  /** The index is written, with whatever strings its interner holds. */
  predicate Writes(w: World, w': World, strs: seq<Bytes>) {
    && w.pass.Ready? && ShortStrings(strs)
    && w' == World(w.disk.(index := Some(FileOf(strs, w.pass.t))), Written(w.pass.t))
  }

  /** Then its state is saved. */
  predicate Saves(w: World, w': World) {
    && w.pass.Written?
    && w' == World(w.disk.(state := State(SCHEMA, LandedTo(w.disk.files), |w.pass.t.entries|)), Idle)
  }

  /** A pass stops wherever it is, and what it held in memory is gone. */
  predicate Crashes(w: World, w': World) {
    w' == World(w.disk, Idle)
  }

  /** The index file, or the state file, is deleted. */
  predicate Loses(w: World, w': World) {
    w'.pass == Idle && (w'.disk == w.disk.(index := None) || w'.disk == w.disk.(state := NO_STATE))
  }

  ghost predicate Next(w: World, w': World) {
    || Takes(w, w') || CatchesUp(w, w') || (exists f :: Lands(w, w', f)) || Appends(w, w')
    || (exists strs :: Writes(w, w', strs)) || Saves(w, w') || Crashes(w, w') || Loses(w, w')
  }

  // ---------------------------------------------------------------------
  // What stays true.
  // ---------------------------------------------------------------------

  /** A state that says it indexed the first m files. */
  predicate StateAt(files: seq<File>, st: State, m: nat) {
    && m <= |files| && st.entries == |Rows(files[..m])| && st.indexedSeq <= LandedTo(files)
    && Divides(files, st.indexedSeq, m)
  }

  /** Exactly the first m files are at or below a sequence. */
  predicate Divides(files: seq<File>, after: nat, m: nat) {
    forall k :: 0 <= k < |files| ==> (files[k].seqNo <= after <==> k < m)
  }

  /** An index file of the first n files. */
  ghost predicate IndexAt(files: seq<File>, b: Bytes, n: nat) {
    n <= |files| && exists strs :: ShortStrings(strs) && b == FileOf(strs, IndexOf(Rows(files[..n])))
  }

  /** The state says the first m files are indexed, and the index file holds the first n, no fewer. */
  ghost predicate Describes(d: Disk, m: nat, n: nat) {
    && (d.state.schema == SCHEMA ==> StateAt(d.files, d.state, m))
    && (d.index.Some? ==> IndexAt(d.files, d.index.value, n))
    && (d.state.schema == SCHEMA && d.index.Some? ==> m <= n)
  }

  ghost predicate DiskSound(d: Disk) {
    && InOrder(d.files) && Fits(IndexOf(Rows(d.files)))
    && exists m, n :: Describes(d, m, n)
  }

  ghost predicate PassSound(w: World) {
    match w.pass
    case Idle => true
    case Taken(t, after) => exists m :: TakenAt(w.disk.files, t, after, m)
    case Ready(t) => t == IndexOf(Rows(w.disk.files))
    case Between(t) => w.disk.files != [] && t == IndexOf(Rows(w.disk.files[..|w.disk.files|-1]))
    case Written(t) =>
      && t == IndexOf(Rows(w.disk.files))
      && w.disk.index.Some? && IndexAt(w.disk.files, w.disk.index.value, |w.disk.files|)
  }

  predicate TakenAt(files: seq<File>, t: Tables, after: nat, m: nat) {
    m <= |files| && t == IndexOf(Rows(files[..m])) && Divides(files, after, m)
  }

  ghost predicate Sound(w: World) {
    DiskSound(w.disk) && PassSound(w)
  }

  lemma InitSound(w: World)
    requires Init(w)
    ensures Sound(w)
  {
    assert Describes(w.disk, 0, 0);
  }

  // ---------------------------------------------------------------------
  // Each step.
  // ---------------------------------------------------------------------

  lemma {:induction false} FitsPrefix(files: seq<File>, n: nat)
    requires n <= |files| && Fits(IndexOf(Rows(files)))
    ensures Fits(IndexOf(Rows(files[..n])))
  {
    hide IndexOf, Rows;
    RowsSplit(files, n);
    var rows, k := Rows(files), |Rows(files[..n])|;
    PrefixOf(rows, k);
    assert rows[..k] == Rows(files[..n]);
  }

  /** The tables of landed rows can be written, and read back. */
  lemma {:induction false} RowsSane(rows: seq<Row>)
    requires Fits(IndexOf(rows)) && Landed(rows)
    ensures Sane(IndexOf(rows))
  {
    hide Extended;
    OneEach(rows);
    if rows != [] {
      var n := |rows| - 1;
      ExtendedIs(IndexOf(rows[..n]), rows[n]);
      RowsSane(rows[..n]);
    }
  }

  lemma {:induction false} IndexReads(files: seq<File>, b: Bytes, n: nat)
    requires InOrder(files) && Fits(IndexOf(Rows(files))) && IndexAt(files, b, n)
    ensures n <= |files| && LoadOf(b).Index? && LoadOf(b).t == IndexOf(Rows(files[..n]))
  {
    hide IndexOf, Rows, Sane, LoadOf, FileOf, ShortStrings;
    var strs :| ShortStrings(strs) && b == FileOf(strs, IndexOf(Rows(files[..n])));
    FitsPrefix(files, n);
    RowsLanded(files[..n]);
    RowsSane(Rows(files[..n]));
    FileBack(strs, IndexOf(Rows(files[..n])), []);
    assert b + [] == b;
  }

  /** Prefixes with as many rows have the same rows. */
  lemma SameCount(files: seq<File>, m: nat, n: nat)
    requires m <= n <= |files| && |Rows(files[..m])| == |Rows(files[..n])|
    ensures Rows(files[..m]) == Rows(files[..n])
  {
    RowsSplit(files[..n], m);
    assert files[..n][..m] == files[..m];
  }

  /** An index a pass takes is of exactly the files its state says, and nothing above them. */
  lemma TakenIsPrefix(d: Disk)
    requires DiskSound(d) && LoadFor(d.index, d.state).Some?
    ensures exists m :: TakenAt(d.files, LoadFor(d.index, d.state).value, d.state.indexedSeq, m)
  {
    hide IndexOf, Rows, LoadOf, InOrder, Fits, IndexAt, Divides;
    var m: nat, n: nat :| Describes(d, m, n);
    IndexReads(d.files, d.index.value, n);
    CountIs(d.files, n);
    SameCount(d.files, m, n);
    assert TakenAt(d.files, LoadFor(d.index, d.state).value, d.state.indexedSeq, m);
  }

  lemma CountIs(files: seq<File>, n: nat)
    requires n <= |files|
    ensures |IndexOf(Rows(files[..n])).entries| == |Rows(files[..n])|
  {
  }

  lemma TakesSound(w: World, w': World)
    requires Sound(w) && Takes(w, w')
    ensures Sound(w')
  {
    hide DiskSound, LoadFor, IndexOf, Rows;
    if LoadFor(w.disk.index, w.disk.state).Some? {
      TakenIsPrefix(w.disk);
    } else {
      NothingTaken(w.disk);
    }
  }

  lemma NothingTaken(d: Disk)
    requires DiskSound(d)
    ensures exists m :: TakenAt(d.files, NO_TABLES, 0, m)
  {
    assert d.files[..0] == [];
    assert TakenAt(d.files, NO_TABLES, 0, 0);
  }

  lemma {:induction false} AboveIs(files: seq<File>, after: nat, m: nat)
    requires m <= |files| && Divides(files, after, m)
    ensures Above(files, after) == files[m..]
  {
    if files != [] {
      var n := |files| - 1;
      if m <= n {
        AboveIs(files[..n], after, m);
        assert files[m..] == files[..n][m..] + [files[n]];
      } else {
        AboveIs(files[..n], after, n);
        assert files[m..] == [];
      }
    }
  }

  lemma {:induction false} ExtendedByIs(a: seq<Row>, b: seq<Row>)
    ensures ExtendedBy(IndexOf(a), b) == IndexOf(a + b)
  {
    hide Extended;
    if b == [] {
      assert a + b == a;
    } else {
      assert (a + b)[..|a + b| - 1] == a + b[..|b|-1];
      ExtendedByIs(a, b[..|b|-1]);
    }
  }

  /** Whatever was taken, the pass then holds the index of all landed files, each record once. */
  lemma CatchesUpSound(w: World, w': World)
    requires Sound(w) && CatchesUp(w, w')
    ensures Sound(w') && w'.pass == Ready(IndexOf(Rows(w.disk.files)))
  {
    hide DiskSound, IndexOf, Rows, ExtendedBy, Above, Divides;
    var files := w.disk.files;
    var m: nat :| TakenAt(files, w.pass.t, w.pass.after, m);
    AboveIs(files, w.pass.after, m);
    ExtendedByIs(Rows(files[..m]), Rows(files[m..]));
    RowsSplit(files, m);
  }

  lemma LandsSound(w: World, w': World, f: File)
    requires Sound(w) && Lands(w, w', f)
    ensures Sound(w')
  {
    hide IndexOf, Rows, InOrder, Fits, StateAt, IndexAt;
    var files := w.disk.files;
    assert (files + [f])[..|files|] == files;
    var m: nat, n: nat :| Describes(w.disk, m, n);
    if w.disk.state.schema == SCHEMA { StateGrows(files, f, w.disk.state, m); }
    if w.disk.index.Some? { IndexGrows(files, f, w.disk.index.value, n); }
    assert Describes(w'.disk, m, n);
  }

  /** No file that lands was already counted as indexed. */
  lemma StateGrows(files: seq<File>, f: File, st: State, m: nat)
    requires InOrder(files + [f]) && StateAt(files, st, m)
    ensures StateAt(files + [f], st, m)
  {
    var more := files + [f];
    assert more[..m] == files[..m];
    assert more[|files|] == f;
    assert files != [] ==> more[|files|-1].seqNo < f.seqNo;
    forall k | 0 <= k < |more| ensures more[k].seqNo <= st.indexedSeq <==> k < m {
      assert k < |files| ==> more[k] == files[k];
    }
  }

  lemma IndexGrows(files: seq<File>, f: File, b: Bytes, n: nat)
    requires IndexAt(files, b, n)
    ensures IndexAt(files + [f], b, n)
  {
    hide IndexOf, Rows, FileOf, ShortStrings;
    assert (files + [f])[..n] == files[..n];
  }

  lemma AppendsSound(w: World, w': World)
    requires Sound(w) && Appends(w, w')
    ensures Sound(w')
  {
    hide DiskSound, IndexOf, ExtendedBy;
    var files := w.disk.files;
    ExtendedByIs(Rows(files[..|files|-1]), files[|files|-1].rows);
  }

  lemma WritesSound(w: World, w': World, strs: seq<Bytes>)
    requires Sound(w) && Writes(w, w', strs)
    ensures Sound(w')
  {
    hide IndexOf, Rows, InOrder, Fits, StateAt, FileOf, ShortStrings;
    var files := w.disk.files;
    var m: nat, n: nat :| Describes(w.disk, m, n);
    assert files[..|files|] == files;
    assert IndexAt(files, w'.disk.index.value, |files|);
    if w.disk.state.schema == SCHEMA { StateBound(files, w.disk.state, m); }
    assert Describes(w'.disk, m, |files|);
  }

  lemma StateBound(files: seq<File>, st: State, m: nat)
    requires StateAt(files, st, m)
    ensures m <= |files|
  {
  }

  lemma SavesSound(w: World, w': World)
    requires Sound(w) && Saves(w, w')
    ensures Sound(w')
  {
    hide IndexOf, Rows, Fits, FileOf, ShortStrings, IndexAt, InOrder;
    var files := w.disk.files;
    assert files[..|files|] == files;
    AllDivided(files);
    CountIs(files, |files|);
    assert Describes(w'.disk, |files|, |files|);
  }

  lemma AllDivided(files: seq<File>)
    requires InOrder(files)
    ensures Divides(files, LandedTo(files), |files|)
  {
  }

  lemma StopsSound(w: World, w': World)
    requires Sound(w) && (Crashes(w, w') || Loses(w, w'))
    ensures Sound(w')
  {
    hide InOrder, Fits, StateAt, IndexAt;
    var m: nat, n: nat :| Describes(w.disk, m, n);
    assert Describes(w'.disk, m, n);
  }

  lemma NextSound(w: World, w': World)
    requires Sound(w) && Next(w, w')
    ensures Sound(w')
  {
    hide Sound, Takes, CatchesUp, Lands, Appends, Writes, Saves, Crashes, Loses;
    if Takes(w, w') { TakesSound(w, w'); }
    else if CatchesUp(w, w') { CatchesUpSound(w, w'); }
    else if f :| Lands(w, w', f) { LandsSound(w, w', f); }
    else if Appends(w, w') { AppendsSound(w, w'); }
    else if strs :| Writes(w, w', strs) { WritesSound(w, w', strs); }
    else if Saves(w, w') { SavesSound(w, w'); }
    else { StopsSound(w, w'); }
  }

  /** A run of passes, from nothing. */
  ghost predicate Run(ws: seq<World>) {
    |ws| > 0 && Init(ws[0]) && forall k :: 0 < k < |ws| ==> Next(ws[k-1], ws[k])
  }

  lemma {:induction false} RunSound(ws: seq<World>, k: nat)
    requires Run(ws) && k < |ws|
    ensures Sound(ws[k])
  {
    hide Sound, Init, Next;
    if k == 0 {
      InitSound(ws[0]);
    } else {
      RunSound(ws, k - 1);
      NextSound(ws[k-1], ws[k]);
    }
  }

  /**
   In every run, with passes stopped anywhere and the index or its state lost at
   any time, whatever a pass takes it then catches up to exactly the index of all
   landed files: every record once, and none twice.
   */
  lemma Recovers(ws: seq<World>, k: nat)
    requires Run(ws) && k < |ws| && ws[k].pass.Ready?
    ensures ws[k].pass.t == IndexOf(Rows(ws[k].disk.files))
    ensures |ws[k].pass.t.entries| == |Rows(ws[k].disk.files)|
  {
    hide IndexOf, Run, DiskSound;
    RunSound(ws, k);
  }

  /**
   What the guard prevents: an index that holds files above its state's sequence, extended from there,
   has those records twice.
   */
  lemma UnguardedDoubles(files: seq<File>, m: nat, n: nat)
    requires m <= n <= |files|
    ensures |ExtendedBy(IndexOf(Rows(files[..n])), Rows(files[m..])).entries| ==
            |Rows(files)| + |Rows(files[m..n])|
    ensures ExtendedBy(IndexOf(Rows(files[..n])), Rows(files[m..])) == IndexOf(Rows(files)) <==> Rows(files[m..n]) == []
  {
    hide Rows, ExtendedBy;
    ExtendedByIs(Rows(files[..n]), Rows(files[m..]));
    RowsSplit(files, m);
    RowsSplit(files[..n], m);
    assert files[..n][..m] == files[..m] && files[..n][m..] == files[m..n];
    if Rows(files[m..n]) == [] {
      assert Rows(files[..m]) + [] == Rows(files[..m]);
    }
  }
}
