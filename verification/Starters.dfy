/**
 Which step started each child stream, and the chain from a stream up to the
 main talk whose work it is. A stream belongs to a main talk only when each
 stream of the chain has exactly one starter; the relations may name several
 starters, or form cycles.
 */
module Starters {
  import opened Costs
  import opened Ledger

  /** A relation that says a step starts a stream. */
  datatype Start = Start(step: string, stream: string)

  /** What the roll-up reads: the document's streams and starts, and what the walk of its trees found. */
  datatype Doc = Doc(streams: seq<string>, starts: seq<Start>, ownerOfNode: map<string, Owner>, order: map<string, nat>,
                     owners: seq<Owner>, streamOf: map<string, string>, main: seq<string>)

  predicate Distinct<T(==)>(s: seq<T>) {
    forall j, k :: 0 <= j < k < |s| ==> s[j] != s[k]
  }

  predicate IsMain(d: Doc, o: Owner) {
    o.Talk? && o.id in d.main
  }

  /** Streams, owners and main talks are each listed once, and the walk knows every step's owner and place. */
  ghost predicate Ready(d: Doc) {
    && Distinct(d.streams) && Distinct(d.owners) && Distinct(d.main)
    && (forall o :: o in d.owners && o.Talk? ==> o.id in d.streamOf)
    && (forall x :: x in d.ownerOfNode ==> x in d.order && d.ownerOfNode[x] in d.owners)
    && (forall t :: t in d.main <==> t in d.streamOf && d.streamOf[t] == MAIN)
    && (forall t :: t in d.main ==> Talk(t) in d.owners)
  }

  function StreamOf(d: Doc, o: Owner): string {
    if o.Loose? then o.stream else if o.id in d.streamOf then d.streamOf[o.id] else ""
  }

  /** Relation k starts stream s from a step of owner o. */
  predicate StartsAt(d: Doc, s: string, o: Owner, k: int) {
    && 0 <= k < |d.starts| && d.starts[k].stream == s
    && s in d.streams && s != MAIN && s != ""
    && d.starts[k].step in d.ownerOfNode && d.ownerOfNode[d.starts[k].step] == o
  }

  /** Owner o holds a step that starts stream s. */
  ghost predicate Starts(d: Doc, s: string, o: Owner) {
    exists k :: StartsAt(d, s, o, k)
  }

  function OrderOf(d: Doc, step: string): nat {
    if step in d.order then d.order[step] else 0
  }

  /** A step that is not in the document comes before all. */
  lemma OrderIs(d: Doc, step: string)
    ensures step in d.order ==> OrderOf(d, step) == d.order[step]
    ensures step !in d.order ==> OrderOf(d, step) == 0
  {
  }

  /** Relation k is the one that names the earliest step of o that starts s, the first listed among equals. */
  ghost predicate Earliest(d: Doc, s: string, o: Owner, k: int) {
    && StartsAt(d, s, o, k)
    && (forall l :: StartsAt(d, s, o, l) ==> OrderOf(d, d.starts[k].step) <= OrderOf(d, d.starts[l].step))
    && (forall l :: StartsAt(d, s, o, l) && OrderOf(d, d.starts[k].step) == OrderOf(d, d.starts[l].step) ==> k <= l)
  }

  /** The earliest step of o that starts s is this one. */
  ghost predicate StartedBy(d: Doc, s: string, o: Owner, step: string) {
    exists k :: Earliest(d, s, o, k) && d.starts[k].step == step
  }

  /** The step that starts a stream, of an owner, is one. */
  lemma OneEarliest(d: Doc, s: string, o: Owner, a: string, b: string)
    requires StartedBy(d, s, o, a) && StartedBy(d, s, o, b)
    ensures a == b
  {
    var j :| Earliest(d, s, o, j) && d.starts[j].step == a;
    var k :| Earliest(d, s, o, k) && d.starts[k].step == b;
    assert StartsAt(d, s, o, j) && StartsAt(d, s, o, k);
  }

  ghost predicate SoleStarter(d: Doc, s: string, o: Owner) {
    Starts(d, s, o) && forall p :: Starts(d, s, p) ==> p == o
  }

  /** The one owner that starts a stream, when there is exactly one. */
  ghost function Starter(d: Doc, s: string): (r: Option<Owner>)
    ensures r.Some? ==> SoleStarter(d, s, r.value)
    ensures r.None? ==> forall o :: !SoleStarter(d, s, o)
  {
    if exists o :: SoleStarter(d, s, o) then
      var o :| SoleStarter(d, s, o);
      Some(o)
    else None
  }

  // ---------------------------------------------------------------------
  // The chain from a stream to its main talk.
  // ---------------------------------------------------------------------

  /** Following sole starters k times from stream s leads to main talk t. */
  ghost predicate Reaches(d: Doc, s: string, t: string, k: nat)
    decreases k
  {
    && k > 0 && Starter(d, s).Some?
    && var o := Starter(d, s).value;
       if o == Talk(t) then k == 1 else Reaches(d, StreamOf(d, o), t, k - 1)
  }

  /** The chain is one: it leads to one main talk, in one number of steps. */
  lemma {:induction false} OneChain(d: Doc, s: string, t: string, k: nat, u: string, l: nat)
    requires Ready(d) && t in d.main && u in d.main
    requires Reaches(d, s, t, k) && Reaches(d, s, u, l)
    ensures t == u && k == l
    decreases k
  {
    var o := Starter(d, s).value;
    if o != Talk(t) && o != Talk(u) {
      OneChain(d, StreamOf(d, o), t, k - 1, u, l - 1);
    } else {
      NothingStartsMain(d);
    }
  }

  lemma NothingStartsMain(d: Doc)
    ensures Starter(d, MAIN).None? && Starter(d, "").None?
  {
  }

  /** The place, in main talk t, of the step at the top of the chain from s. */
  ghost predicate PlacedAt(d: Doc, s: string, t: string, k: nat, place: nat)
    decreases k
  {
    && k > 0 && Starter(d, s).Some?
    && var o := Starter(d, s).value;
       if o == Talk(t) then k == 1 && exists step :: StartedBy(d, s, o, step) && place == OrderOf(d, step)
       else PlacedAt(d, StreamOf(d, o), t, k - 1, place)
  }

  lemma {:induction false} PlacedReaches(d: Doc, s: string, t: string, k: nat, place: nat)
    requires PlacedAt(d, s, t, k, place)
    ensures Reaches(d, s, t, k)
    decreases k
  {
    if Starter(d, s).value != Talk(t) { PlacedReaches(d, StreamOf(d, Starter(d, s).value), t, k - 1, place); }
  }

  // ---------------------------------------------------------------------
  // Reading the starts.
  // ---------------------------------------------------------------------

  /** The starts listed before n. */
  function Before(d: Doc, n: nat): Doc
    requires n <= |d.starts|
  {
    d.(starts := d.starts[..n])
  }

  /** Per stream, each owner that starts it, with the earliest step of its that does. */
  ghost predicate StartersFound(d: Doc, starters: map<string, map<Owner, string>>) {
    && (forall s, o :: s in starters && o in starters[s] ==> StartedBy(d, s, o, starters[s][o]))
    && (forall s, o :: Starts(d, s, o) ==> s in starters && o in starters[s])
    && (forall s :: s in starters ==> starters[s] != map[])
  }

  function Under(starters: map<string, map<Owner, string>>, s: string): map<Owner, string> {
    if s in starters then starters[s] else map[]
  }

  lemma StartsBefore(d: Doc, n: nat, s: string, o: Owner, k: int)
    requires n < |d.starts|
    ensures StartsAt(Before(d, n + 1), s, o, k) <==> StartsAt(Before(d, n), s, o, k) || (k == n && StartsAt(d, s, o, n))
    ensures StartsAt(Before(d, n), s, o, k) ==> Before(d, n).starts[k] == d.starts[k]
  {
  }

  /** A start changes nothing for the other streams and owners. */
  lemma OthersStay(d: Doc, n: nat, s: string, o: Owner)
    requires n < |d.starts| && !StartsAt(d, s, o, n)
    ensures Starts(Before(d, n + 1), s, o) <==> Starts(Before(d, n), s, o)
    ensures forall step :: StartedBy(Before(d, n), s, o, step) ==> StartedBy(Before(d, n + 1), s, o, step)
  {
    var a, b := Before(d, n), Before(d, n + 1);
    forall k ensures StartsAt(b, s, o, k) <==> StartsAt(a, s, o, k) {
      StartsBefore(d, n, s, o, k);
    }
    if Starts(a, s, o) {
      var k :| StartsAt(a, s, o, k);
      assert StartsAt(b, s, o, k);
    }
    forall step | StartedBy(a, s, o, step) ensures StartedBy(b, s, o, step) {
      var k :| Earliest(a, s, o, k) && a.starts[k].step == step;
      assert Earliest(b, s, o, k);
    }
  }

  /** A later start by the same owner takes over only when its step is strictly earlier. */
  lemma TakesOver(d: Doc, n: nat, s: string, o: Owner, step: string)
    requires n < |d.starts| && StartsAt(d, s, o, n) && StartedBy(Before(d, n), s, o, step)
    ensures StartedBy(Before(d, n + 1), s, o,
                      if OrderOf(d, d.starts[n].step) < OrderOf(d, step) then d.starts[n].step else step)
  {
    var a, b := Before(d, n), Before(d, n + 1);
    forall k ensures StartsAt(b, s, o, k) <==> StartsAt(a, s, o, k) || k == n {
      StartsBefore(d, n, s, o, k);
    }
    var k :| Earliest(a, s, o, k) && a.starts[k].step == step;
    if OrderOf(d, d.starts[n].step) < OrderOf(d, step) {
      assert Earliest(b, s, o, n);
    } else {
      assert Earliest(b, s, o, k);
    }
  }

  lemma FirstStart(d: Doc, n: nat, s: string, o: Owner)
    requires n < |d.starts| && StartsAt(d, s, o, n) && !Starts(Before(d, n), s, o)
    ensures StartedBy(Before(d, n + 1), s, o, d.starts[n].step)
  {
    var a, b := Before(d, n), Before(d, n + 1);
    forall k | StartsAt(b, s, o, k) ensures k == n {
      StartsBefore(d, n, s, o, k);
    }
    StartsBefore(d, n, s, o, n);
    assert Earliest(b, s, o, n);
  }

  lemma StartedMeansStarts(d: Doc, s: string, o: Owner, step: string)
    requires StartedBy(d, s, o, step)
    ensures Starts(d, s, o)
  {
  }

  lemma FoundGrows(d: Doc, n: nat, starters: map<string, map<Owner, string>>, s: string, o: Owner, step: string)
    requires n < |d.starts| && StartersFound(Before(d, n), starters)
    requires StartsAt(d, s, o, n)
    requires StartedBy(Before(d, n + 1), s, o, step)
    ensures StartersFound(Before(d, n + 1), starters[s := Under(starters, s)[o := step]])
  {
    hide StartedBy, Starts, StartsAt;
    var a, b := Before(d, n), Before(d, n + 1);
    var after := starters[s := Under(starters, s)[o := step]];
    forall z, p | z in after && p in after[z] ensures StartedBy(b, z, p, after[z][p]) {
      if z != s || p != o {
        assert z in starters && p in starters[z];
        NotAt(d, n, z, p, s, o);
        OthersStay(d, n, z, p);
      }
    }
    forall z, p | Starts(b, z, p) ensures z in after && p in after[z] {
      if z != s || p != o {
        NotAt(d, n, z, p, s, o);
        OthersStay(d, n, z, p);
      }
    }
    forall z | z in after ensures after[z] != map[] {
      assert z == s ==> o in after[z];
    }
  }

  lemma NotAt(d: Doc, n: nat, z: string, p: Owner, s: string, o: Owner)
    requires n < |d.starts| && StartsAt(d, s, o, n) && (z != s || p != o)
    ensures !StartsAt(d, z, p, n)
  {
  }

  /** Finds, for each stream, the owners that start it. */
  method FindStarters(d: Doc) returns (starters: map<string, map<Owner, string>>)
    ensures StartersFound(d, starters)
  {
    hide StartersFound, StartedBy, Starts;
    starters := map[];
    NoStarters(d);
    for n := 0 to |d.starts|
      invariant StartersFound(Before(d, n), starters)
    {
      var r := d.starts[n];
      if r.stream !in d.streams || r.stream == "" || r.stream == MAIN || r.step !in d.ownerOfNode {
        NothingFound(d, n, starters);
        continue;
      }
      var o := d.ownerOfNode[r.step];
      var from := Under(starters, r.stream);
      FoundIs(Before(d, n), starters, r.stream, o);
      if o in from {
        TakesOver(d, n, r.stream, o, from[o]);
      } else {
        FirstStart(d, n, r.stream, o);
      }
      if o !in from || OrderOf(d, r.step) < OrderOf(d, from[o]) {
        FoundGrows(d, n, starters, r.stream, o, r.step);
        starters := starters[r.stream := from[o := r.step]];
      } else {
        FoundGrows(d, n, starters, r.stream, o, from[o]);
        assert from[o := from[o]] == from;
        assert starters[r.stream := from] == starters;
      }
    }
    assert Before(d, |d.starts|) == d;
  }

  lemma NoStarters(d: Doc)
    ensures StartersFound(Before(d, 0), map[])
  {
  }

  lemma NothingFound(d: Doc, n: nat, starters: map<string, map<Owner, string>>)
    requires n < |d.starts| && StartersFound(Before(d, n), starters)
    requires forall s, o :: !StartsAt(d, s, o, n)
    ensures StartersFound(Before(d, n + 1), starters)
  {
    hide StartedBy, Starts, StartsAt;
    var a, b := Before(d, n), Before(d, n + 1);
    forall s, o | s in starters && o in starters[s] ensures StartedBy(b, s, o, starters[s][o]) {
      OthersStay(d, n, s, o);
    }
    forall s, o | Starts(b, s, o) ensures s in starters && o in starters[s] {
      OthersStay(d, n, s, o);
    }
  }

  lemma FoundIs(d: Doc, starters: map<string, map<Owner, string>>, s: string, o: Owner)
    requires StartersFound(d, starters)
    ensures o in Under(starters, s) ==> StartedBy(d, s, o, starters[s][o])
    ensures o in Under(starters, s) <==> Starts(d, s, o)
  {
    if o in Under(starters, s) { StartedMeansStarts(d, s, o, starters[s][o]); }
  }
}
