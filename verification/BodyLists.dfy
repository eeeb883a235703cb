/**
 The message list of one request body, as the index keeps it: whole, or the
 front of an earlier body's list with more after it.
 */
module BodyLists {
  import opened Messages

  /** How deep a chain of copies may go. */
  const MAX_DEPTH := 32

  const LIST_ABSENT := "messages:absent"
  const UNRECOGNISED := "messages:unrecognised_shape"
  const LIST_TOO_LARGE := "messages:too_large"

  datatype Role = RoleUnknown | RoleRequest | RoleResponse
  datatype Thread = ThreadNone | ThreadCreate | ThreadContinue
  datatype ListKind = ListAbsent | ListWhole | ListRelative | ListUnavailable
  datatype ReplyKind = ReplyAbsent | ReplyEntry | ReplyUnavailable

  /** Ids, forms and digests of strings are interned: 0 is none. */
  datatype Body = Body(
    role: Role, form: nat,
    thread: Thread, threadPrevious: nat,
    system: nat, systemUnknown: bool,
    list: ListKind, listBase: nat, listKeep: nat, listWhy: string,
    msgFirst: nat, msgCount: nat,
    replyKind: ReplyKind, reply: Message)

  /** What a body says about its own list: its length and depth, or why it has none. */
  datatype OwnList = OwnList(length: nat, depth: nat, why: string)

  function Refused(why: string): OwnList {
    OwnList(0, 0, why)
  }

  /** The bodies of an index, their messages, and the first body of each record id. */
  datatype Table = Table(bodies: seq<Body>, messages: seq<Message>, bodyOf: map<nat, nat>) {

    /** A body names its messages within the table. */
    ghost predicate Valid() {
      forall r :: 0 <= r < |bodies| ==> bodies[r].msgFirst + bodies[r].msgCount <= |messages|
    }

    function Mine(r: nat): seq<Message>
      requires Valid() && r < |bodies|
    {
      messages[bodies[r].msgFirst..bodies[r].msgFirst + bodies[r].msgCount]
    }

    /** Whether a body's base is named, and landed before it. */
    predicate HasBase(r: nat)
      requires r < |bodies|
    {
      bodies[r].listBase in bodyOf && bodyOf[bodies[r].listBase] < r
    }

    function Base(r: nat): nat
      requires r < |bodies| && HasBase(r)
    {
      bodyOf[bodies[r].listBase]
    }

    // -------------------------------------------------------------------
    // What a body's list means.
    // -------------------------------------------------------------------

    /** The bases a list goes back through are earlier requests of its form, each holding what is kept of it. */
    ghost predicate Rooted(r: nat, depth: nat)
      requires r < |bodies|
      decreases depth
    {
      var y := bodies[r];
      if depth == 0 then y.list.ListWhole?
      else
        && y.list.ListRelative?
        && HasBase(r)
        && bodies[Base(r)].role.RoleRequest?
        && bodies[Base(r)].form == y.form
        && Rooted(Base(r), depth - 1)
        && y.listKeep <= ListSize(Base(r), depth - 1)
    }

    ghost function ListSize(r: nat, depth: nat): nat
      requires r < |bodies|
    {
      bodies[r].msgCount + if depth == 0 then 0 else bodies[r].listKeep
    }

    /** The list itself: the base's list cut to what is kept, then what was added. */
    ghost function Content(r: nat, depth: nat): (c: seq<Message>)
      requires Valid() && r < |bodies| && Rooted(r, depth)
      ensures |c| == ListSize(r, depth)
      decreases depth
    {
      if depth == 0 then Mine(r)
      else Content(Base(r), depth - 1)[..bodies[r].listKeep] + Mine(r)
    }

    /** The first n entries of a list over a base: the base's front, then what was added. */
    lemma ContentParts(r: nat, depth: nat, n: nat)
      requires Valid() && r < |bodies| && Rooted(r, depth) && depth > 0 && n <= ListSize(r, depth)
      ensures
        var keep := bodies[r].listKeep;
        var base := Content(Base(r), depth - 1);
        var front := Content(r, depth)[..n];
        && keep <= |base|
        && (n > keep ==> front[..keep] == base[..keep] && front[keep..] == Mine(r)[..n - keep])
        && (n <= keep ==> front == base[..n])
    {
    }

    /** A body's list holds: it is rooted at some depth a chain of copies may have. */
    ghost predicate Holds(r: nat, depth: nat)
      requires r < |bodies|
    {
      depth <= MAX_DEPTH && Rooted(r, depth)
    }

    lemma {:induction false} RootedOnce(r: nat, d: nat, e: nat)
      requires r < |bodies| && Rooted(r, d) && Rooted(r, e)
      ensures d == e
      decreases d
    {
      if d > 0 && e > 0 { RootedOnce(Base(r), d - 1, e - 1); }
    }

    /** Whether a measure says exactly what the body's list is. */
    ghost predicate Measures(r: nat, l: OwnList)
      requires r < |bodies|
    {
      && (l.why == "" ==> Holds(r, l.depth) && l.length == ListSize(r, l.depth))
      && (l.why != "" ==> forall d: nat :: !Holds(r, d))
      && (l.why != "" ==> l == Refused(Reason(bodies[r])))
    }

    lemma WholeHolds(r: nat)
      requires r < |bodies| && bodies[r].list.ListWhole?
      ensures Measures(r, OwnList(bodies[r].msgCount, 0, ""))
    {
      assert Holds(r, 0);
    }

    /** A body has one measure, whatever was measured before it. */
    lemma {:induction false} MeasureOnce(r: nat, l: OwnList, m: OwnList)
      requires r < |bodies| && Measures(r, l) && Measures(r, m)
      ensures l == m
    {
      if l.why == "" && m.why == "" {
        RootedOnce(r, l.depth, m.depth);
      }
    }

    /** The one measure a body has. */
    ghost function OwnMeasure(r: nat): (l: OwnList)
      requires r < |bodies|
      ensures Measures(r, l)
    {
      if exists d: nat :: Holds(r, d) then
        var d: nat :| Holds(r, d);
        OwnList(ListSize(r, d), d, "")
      else Refused(Reason(bodies[r]))
    }

    function Reason(y: Body): string {
      match y.list
      case ListUnavailable => "messages:" + y.listWhy
      case ListAbsent => LIST_ABSENT
      case _ => UNRECOGNISED
    }
  }

  /** Measures of own lists, kept once taken, over one index. */
  class OwnLists {
    const t: Table
    const maxEntries: nat
    var lists: map<nat, OwnList>

    ghost predicate Valid()
      reads this
    {
      && t.Valid()
      && forall r :: r in lists ==> r < |t.bodies| && t.Measures(r, lists[r])
    }

    constructor (t: Table, maxEntries: nat)
      requires t.Valid()
      ensures Valid() && this.t == t && this.maxEntries == maxEntries && lists == map[]
    {
      this.t := t;
      this.maxEntries := maxEntries;
      lists := map[];
    }

    /** A base that does not hold, is too deep or too short leaves no depth at which the list over it holds. */
    lemma RefusedByBase(row: nat, prior: OwnList)
      requires row < |t.bodies| && t.bodies[row].list.ListRelative? && t.HasBase(row) && t.Measures(t.Base(row), prior)
      requires prior.why != "" || prior.depth >= MAX_DEPTH || prior.length < t.bodies[row].listKeep
      ensures forall d: nat :: !t.Holds(row, d)
    {
      forall d: nat ensures !t.Holds(row, d) {
        if d > 0 && prior.why == "" && t.Rooted(t.Base(row), d - 1) {
          t.RootedOnce(t.Base(row), d - 1, prior.depth);
        }
        assert d > 0 && prior.why != "" ==> !t.Holds(t.Base(row), d - 1);
      }
    }

    lemma AcceptedByBase(row: nat, prior: OwnList)
      requires row < |t.bodies| && t.bodies[row].list.ListRelative? && t.HasBase(row) && t.Measures(t.Base(row), prior)
      requires t.bodies[t.Base(row)].role.RoleRequest? && t.bodies[t.Base(row)].form == t.bodies[row].form
      requires prior.why == "" && prior.depth < MAX_DEPTH && prior.length >= t.bodies[row].listKeep
      ensures t.Measures(row, OwnList(t.bodies[row].listKeep + t.bodies[row].msgCount, prior.depth + 1, ""))
    {
      assert t.Holds(row, prior.depth + 1);
    }

    /** A body with no base its list could be over has no depth at which it holds. */
    lemma RefusedAlone(row: nat)
      requires row < |t.bodies| && !t.bodies[row].list.ListWhole?
      requires t.bodies[row].list.ListRelative? && t.HasBase(row) ==>
        !t.bodies[t.Base(row)].role.RoleRequest? || t.bodies[t.Base(row)].form != t.bodies[row].form
      ensures t.Measures(row, Refused(t.Reason(t.bodies[row])))
    {
    }

    /** One body's measure, from its base's, which is known. */
    method OwnOne(row: nat) returns (l: OwnList)
      requires Valid() && row < |t.bodies|
      requires Ready(row)
      ensures t.Measures(row, l)
    {
      hide Table.Rooted;
      var y := t.bodies[row];
      if y.list == ListWhole {
        t.WholeHolds(row);
        return OwnList(y.msgCount, 0, "");
      }
      if y.list == ListUnavailable {
        RefusedAlone(row);
        return Refused("messages:" + y.listWhy);
      }
      if y.list == ListAbsent {
        RefusedAlone(row);
        return Refused(LIST_ABSENT);
      }
      if !t.HasBase(row) {
        RefusedAlone(row);
        return Refused(UNRECOGNISED);
      }
      var base := t.Base(row);
      var b := t.bodies[base];
      if b.role != RoleRequest || b.form != y.form {
        RefusedAlone(row);
        return Refused(UNRECOGNISED);
      }
      var prior := lists[base];
      if prior.why != "" || prior.depth >= MAX_DEPTH || prior.length < y.listKeep {
        RefusedByBase(row, prior);
        return Refused(UNRECOGNISED);
      }
      AcceptedByBase(row, prior);
      return OwnList(y.listKeep + y.msgCount, prior.depth + 1, "");
    }

    /** A chain of bases from row. */
    ghost predicate Chained(chain: seq<nat>, row: nat)
    {
      && (forall k :: 0 <= k < |chain| ==> chain[k] < |t.bodies|)
      && (forall k :: 0 <= k < |chain| - 1 ==> t.HasBase(chain[k]) && t.Base(chain[k]) == chain[k + 1])
      && (chain != [] ==> chain[0] == row)
    }

    /** Where a chain goes on. */
    ghost predicate Onward(chain: seq<nat>, row: nat, r: nat) {
      && Chained(chain, row)
      && if chain == [] then r == row else t.HasBase(chain[|chain| - 1]) && t.Base(chain[|chain| - 1]) == r
    }

    lemma ChainGrows(chain: seq<nat>, row: nat, r: nat)
      requires Onward(chain, row, r) && r < |t.bodies|
      ensures Chained(chain + [r], row)
    {
      var next := chain + [r];
      forall k | 0 <= k < |next| - 1 ensures t.HasBase(next[k]) && t.Base(next[k]) == next[k + 1] {
        assert k < |chain| - 1 ==> t.Base(chain[k]) == chain[k + 1];
      }
    }

    /** What a body needs to be measured is there. */
    ghost predicate Ready(r: nat)
      requires r < |t.bodies|
      reads this
    {
      t.bodies[r].list.ListRelative? && t.HasBase(r) ==> t.Base(r) in lists
    }

    /** One walk back to a measured or whole body, then forward; every measure taken is kept and is right. */
    method OwnOf(row: nat) returns (l: OwnList)
      requires Valid() && row < |t.bodies|
      modifies this`lists
      ensures Valid() && row in lists && l == lists[row] && t.Measures(row, l)
      ensures forall r :: r in old(lists) ==> r in lists && lists[r] == old(lists[r])
    {
      var chain := WalkBack(row);
      Forward(chain, row);
      l := lists[row];
    }

    method WalkBack(row: nat) returns (chain: seq<nat>)
      requires row < |t.bodies|
      ensures Chained(chain, row)
      ensures if chain == [] then row in lists else Ready(chain[|chain| - 1])
    {
      chain := [];
      var r: nat := row;
      while r !in lists
        invariant r < |t.bodies| && Onward(chain, row, r)
        decreases r
      {
        ChainGrows(chain, row, r);
        chain := chain + [r];
        if t.bodies[r].list != ListRelative || !t.HasBase(r) { return; }
        r := t.Base(r);
      }
    }

    method Forward(chain: seq<nat>, row: nat)
      requires Valid() && Chained(chain, row)
      requires chain != [] ==> Ready(chain[|chain| - 1])
      modifies this`lists
      ensures Valid() && (chain != [] ==> row in lists)
      ensures forall r :: r in old(lists) ==> r in lists && lists[r] == old(lists[r])
    {
      var i := |chain|;
      while i > 0
        invariant 0 <= i <= |chain|
        invariant Valid()
        invariant i > 0 ==> Ready(chain[i - 1])
        invariant i < |chain| ==> chain[i] in lists
        invariant forall r :: r in old(lists) ==> r in lists && lists[r] == old(lists[r])
      {
        i := i - 1;
        Measure(chain[i]);
      }
    }

    /** Takes one body's measure, its base's being known, and keeps it. */
    method Measure(r: nat)
      requires Valid() && r < |t.bodies| && Ready(r)
      modifies this`lists
      ensures Valid() && r in lists
      ensures forall x :: x in old(lists) ==> x in lists && lists[x] == old(lists[x])
    {
      var one := OwnOne(r);
      if r in lists { t.MeasureOnce(r, lists[r], one); }
      lists := lists[r := one];
    }

    /** Whether a body has a list to compare: one that holds within the bound. */
    ghost predicate Comparable(row: nat, depth: nat)
      requires row < |t.bodies|
    {
      t.Holds(row, depth) && t.ListSize(row, depth) <= maxEntries
    }

    /** Walks a body back to its bases and rebuilds the list, when every step and the size are within bounds. */
    method Own(row: nat) returns (out: seq<Message>, why: string, ghost depth: nat)
      requires Valid() && row < |t.bodies|
      modifies this`lists
      ensures Valid()
      ensures forall r :: r in old(lists) ==> r in lists && lists[r] == old(lists[r])
      ensures why == "" <==> exists d: nat :: Comparable(row, d)
      ensures why == "" ==> Comparable(row, depth) && out == t.Content(row, depth)
      ensures why != "" ==> out == [] && (why == t.Reason(t.bodies[row]) || why == LIST_TOO_LARGE)
    {
      var l := OwnOf(row);
      depth := l.depth;
      if l.why != "" { return [], l.why, depth; }
      if l.length > maxEntries {
        forall d: nat | t.Holds(row, d) ensures d == l.depth { t.RootedOnce(row, d, l.depth); }
        return [], LIST_TOO_LARGE, depth;
      }
      var y := t.bodies[row];
      assert Comparable(row, depth);
      if y.list == ListWhole { return t.Mine(row), "", depth; }
      var buffer := new Message[l.length](_ => Entry(false, 0, 0));
      Fill(row, buffer, depth);
      assert t.Content(row, depth)[..l.length] == t.Content(row, depth);
      out, why := buffer[..], "";
    }

    /** Writes the first out.Length entries of a list that holds, and nothing past them. */
    method Fill(row: nat, out: array<Message>, ghost depth: nat)
      requires Valid() && row < |t.bodies| && t.Rooted(row, depth) && out.Length <= t.ListSize(row, depth)
      modifies out
      ensures out[..] == t.Content(row, depth)[..out.Length]
    {
      var r: nat, n: nat := row, out.Length;
      ghost var d: nat := depth;
      ghost var want := t.Content(row, depth)[..out.Length];
      while true
        invariant r < |t.bodies| && t.Rooted(r, d) && n <= out.Length && n <= t.ListSize(r, d)
        invariant want[..n] == t.Content(r, d)[..n]
        invariant out[n..] == want[n..]
        decreases d
      {
        var y := t.bodies[r];
        var mine := t.Mine(r);
        if y.list == ListWhole {
          CopyInto(out, 0, n, mine);
          return;
        }
        t.ContentParts(r, d, n);
        if n > y.listKeep {
          CutFrom(want, y.listKeep, n);
          CopyInto(out, y.listKeep, n, mine);
          JoinedFrom(out[..], want, y.listKeep, n);
          n := y.listKeep;
        }
        r, d := t.Base(r), d - 1;
      }
    }

    lemma CutFrom<T>(s: seq<T>, from: nat, to: nat)
      requires from <= to <= |s|
      ensures s[from..to] == s[..to][from..]
    {
    }

    lemma JoinedFrom<T>(x: seq<T>, y: seq<T>, from: nat, to: nat)
      requires from <= to <= |x| == |y| && x[from..to] == y[from..to] && x[to..] == y[to..]
      ensures x[from..] == y[from..]
    {
      assert x[from..] == x[from..to] + x[to..];
      assert y[from..] == y[from..to] + y[to..];
    }

    /** The built-in copy into out[from..to]: as much of src as there is room for. */
    method CopyInto(out: array<Message>, from: nat, to: nat, src: seq<Message>)
      requires from <= to <= out.Length && to - from <= |src|
      modifies out
      ensures out[from..to] == src[..to - from]
      ensures out[..from] == old(out[..from]) && out[to..] == old(out[to..])
    {
      for i := from to to
        invariant out[from..i] == src[..i - from]
        invariant out[..from] == old(out[..from]) && out[to..] == old(out[to..])
      {
        out[i] := src[i - from];
      }
    }
  }
}
