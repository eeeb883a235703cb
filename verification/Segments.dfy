/**
 Activity windows: the main stream's talks in the order they began, cut wherever
 the time between two talks is longer than the idle gap.
 */
module Segments {

  import opened Epochs
  import opened StableSort

  /** A talk, where its first record landed, and its first and last record times, 0 where no record says. */
  datatype TalkTime = TalkTime(id: NodeId, at: nat, first: nat, last: nat)

  datatype Window = Window(talks: seq<TalkTime>, from: nat, through: nat)

  /** Whether a talk begins a window of its own after the one before it. */
  predicate Quiet(before: TalkTime, t: TalkTime, gap: int) {
    t.first != 0 && before.last != 0 && t.first - before.last > gap
  }

  lemma QuietIs(before: TalkTime, t: TalkTime, gap: int)
    ensures Quiet(before, t, gap) <==> t.first != 0 && before.last != 0 && t.first > before.last + gap
  {
  }

  /** The talks of the windows, in order. */
  function Talks(ws: seq<Window>): seq<TalkTime> {
    if ws == [] then [] else Talks(ws[..|ws|-1]) + ws[|ws|-1].talks
  }

  predicate IsFrom(talks: seq<TalkTime>, from: nat) {
    && (from != 0 ==> exists t :: t in talks && t.first == from)
    && (forall t :: t in talks && t.first != 0 ==> from <= t.first)
    && (from == 0 ==> forall t :: t in talks ==> t.first == 0)
  }

  predicate IsThrough(talks: seq<TalkTime>, through: nat) {
    && (through != 0 ==> exists t :: t in talks && t.last == through)
    && (forall t :: t in talks ==> t.last <= through)
  }

  /** A window of talks with no quiet between any two, and its time range. */
  predicate WindowOk(w: Window, gap: int) {
    && w.talks != [] && (forall k :: 0 < k < |w.talks| ==> !Quiet(w.talks[k-1], w.talks[k], gap))
    && IsFrom(w.talks, w.from) && IsThrough(w.talks, w.through)
  }

  /** There is a quiet between the last talk of one window and the first of the next. */
  predicate Parted(w: Window, next: Window, gap: int) {
    w.talks != [] && next.talks != [] && Quiet(w.talks[|w.talks|-1], next.talks[0], gap)
  }

  /** Windows with a quiet between each two. */
  predicate CutAtQuiet(ws: seq<Window>, gap: int) {
    && (forall k :: 0 <= k < |ws| ==> WindowOk(ws[k], gap))
    && (forall k :: 0 <= k < |ws| - 1 ==> Parted(ws[k], ws[k+1], gap))
  }

  /** Cuts the talks into windows. */
  method CutWindows(main: seq<TalkTime>, gap: int) returns (ws: seq<Window>)
    ensures CutAtQuiet(ws, gap) && Talks(ws) == Sorted(main, (t: TalkTime) => t.first)
  {
    hide CutAtQuiet, WindowOk, Quiet, IsFrom, IsThrough, Follows, Sorted, Talks;
    var talks := Sorted(main, (t: TalkTime) => t.first);
    ws := [];
    NoWindows(gap);
    if talks == [] { return; }
    var cur := Window([talks[0]], talks[0].first, talks[0].last);
    Opened(talks[0], gap);
    FirstFollows(cur, gap);
    for i := 1 to |talks|
      invariant cur.talks != [] && cur.talks[|cur.talks|-1] == talks[i-1]
      invariant CutAtQuiet(ws, gap) && WindowOk(cur, gap) && Follows(ws, cur, gap)
      invariant Talks(ws) + cur.talks == talks[..i]
    {
      var t := talks[i];
      assert talks[..i+1] == talks[..i] + [t];
      if t.first != 0 && talks[i-1].last != 0 && t.first - talks[i-1].last > gap {
        assert Quiet(talks[i-1], t, gap) by { QuietIs(talks[i-1], t, gap); }
        Flushed(ws, cur, t, gap);
        ws := ws + [cur];
        cur := Window([t], t.first, t.last);
      } else {
        QuietIs(talks[i-1], t, gap);
        Joined(ws, cur, t, gap);
        var from := if cur.from == 0 || (t.first != 0 && t.first < cur.from) then t.first else cur.from;
        cur := Window(cur.talks + [t], from, if t.last > cur.through then t.last else cur.through);
      }
    }
    assert talks[..|talks|] == talks;
    Flushed(ws, cur, talks[0], gap);
    ws := ws + [cur];
  }

  predicate Follows(ws: seq<Window>, cur: Window, gap: int) {
    ws != [] ==> Parted(ws[|ws|-1], cur, gap)
  }

  lemma FirstFollows(cur: Window, gap: int)
    ensures Follows([], cur, gap) && Talks([]) == []
  {
  }

  lemma NoWindows(gap: int)
    ensures CutAtQuiet([], gap) && Talks([]) == []
  {
  }

  lemma Opened(t: TalkTime, gap: int)
    ensures WindowOk(Window([t], t.first, t.last), gap)
  {
    assert t in [t];
  }

  lemma Flushed(ws: seq<Window>, cur: Window, t: TalkTime, gap: int)
    requires CutAtQuiet(ws, gap) && WindowOk(cur, gap) && Follows(ws, cur, gap)
    ensures CutAtQuiet(ws + [cur], gap) && Talks(ws + [cur]) == Talks(ws) + cur.talks
    ensures WindowOk(Window([t], t.first, t.last), gap)
    ensures Quiet(cur.talks[|cur.talks|-1], t, gap) ==> Follows(ws + [cur], Window([t], t.first, t.last), gap)
  {
    hide Quiet, IsFrom, IsThrough;
    assert (ws + [cur])[..|ws|] == ws;
    assert cur.talks != [];
    Opened(t, gap);
  }

  lemma Joined(ws: seq<Window>, cur: Window, t: TalkTime, gap: int)
    requires WindowOk(cur, gap) && Follows(ws, cur, gap)
    requires cur.talks != [] && !Quiet(cur.talks[|cur.talks|-1], t, gap)
    ensures var from := if cur.from == 0 || (t.first != 0 && t.first < cur.from) then t.first else cur.from;
      var through := if t.last > cur.through then t.last else cur.through;
      WindowOk(Window(cur.talks + [t], from, through), gap) && Follows(ws, Window(cur.talks + [t], from, through), gap)
  {
    hide Quiet;
    var more := cur.talks + [t];
    assert t in more && forall u :: u in cur.talks ==> u in more;
    assert forall u :: u in more ==> u in cur.talks || u == t;
  }
}
