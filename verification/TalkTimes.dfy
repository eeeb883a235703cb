/**
 When the main stream's talks ran, from the times of the records in their runs,.
 */
module TalkTimes {

  import opened Epochs
  import opened Talks
  import Segments

  type TalkTime = Segments.TalkTime

  /** Entry i is in a run of talk t. */
  ghost predicate InTalk(l: Lineage, i: nat, t: NodeId) {
    i < |l.es| && l.es[i].run != 0 && TalkOfRun(l, i) == t
  }

  /** The earliest time of the talk's entries before n, 0 when none says. */
  ghost predicate FirstIs(l: Lineage, ts: seq<nat>, n: nat, t: NodeId, first: nat)
    requires n <= |ts|
  {
    && (first != 0 ==> exists i: nat :: i < n && InTalk(l, i, t) && ts[i] == first)
    && forall i: nat :: i < n && InTalk(l, i, t) && ts[i] != 0 ==> 0 < first <= ts[i]
  }

  /** The latest time of the talk's entries before n. */
  ghost predicate LastIs(l: Lineage, ts: seq<nat>, n: nat, t: NodeId, last: nat)
    requires n <= |ts|
  {
    && (last != 0 ==> exists i: nat :: i < n && InTalk(l, i, t) && ts[i] == last)
    && forall i: nat :: i < n && InTalk(l, i, t) ==> ts[i] <= last
  }

  /** The talk begins at the record that landed here. */
  ghost predicate BeganAt(l: Lineage, n: nat, t: NodeId, at: nat)
    requires n <= |l.es| == |l.ats|
  {
    exists i: nat :: i < n && BeginsTalk(l, i) && t == RunTalk(l.id, l.es[i].run) && at == l.ats[i]
  }

  ghost predicate Timed(l: Lineage, ts: seq<nat>, n: nat, x: TalkTime)
    requires n <= |ts| == |l.es| == |l.ats|
  {
    FirstIs(l, ts, n, x.id, x.first) && LastIs(l, ts, n, x.id, x.last) && BeganAt(l, n, x.id, x.at)
  }

  function Ids(xs: seq<TalkTime>): seq<NodeId> {
    seq(|xs|, k requires 0 <= k < |xs| => xs[k].id)
  }

  /** The stream's talks, in the order they began, each with its times. */
  ghost predicate TimesAre(l: Lineage, ts: seq<nat>, xs: seq<TalkTime>)
    requires |ts| == |l.es| == |l.ats|
  {
    Ids(xs) == Begun(l, |l.es|) && forall k :: 0 <= k < |xs| ==> Timed(l, ts, |l.es|, xs[k])
  }

  // ---------------------------------------------------------------- which talks there are

  /** The talk going on is one that began. */
  lemma {:induction false} GoingOnBegan(l: Lineage, n: nat)
    requires n <= |l.es| && l.main
    ensures TalkAt(l, n).Some? ==> TalkAt(l, n).value in Begun(l, n)
    decreases n
  {
    hide BeginsTalk, Runs;
    if n > 0 { GoingOnBegan(l, n - 1); }
  }

  lemma {:induction false} BegunStays(l: Lineage, m: nat, n: nat, t: NodeId)
    requires m <= n <= |l.es| && t in Begun(l, m)
    ensures t in Begun(l, n)
    decreases n
  {
    hide BeginsTalk;
    if m < n { BegunStays(l, m, n - 1, t); }
  }

  lemma NotBegun(l: Lineage, i: nat)
    requires i < |l.es| && BeginsTalk(l, i)
    ensures RunTalk(l.id, l.es[i].run) !in Begun(l, i)
  {
    hide Opens;
    BegunAre(l, i);
  }

  /** The talk of a run is met for the first time exactly where it begins. */
  lemma MetWhereBegun(l: Lineage, i: nat)
    requires i < |l.es| && l.main && l.es[i].run != 0
    ensures BeginsTalk(l, i) <==> TalkOfRun(l, i) !in Begun(l, i)
    ensures BeginsTalk(l, i) ==> TalkOfRun(l, i) == RunTalk(l.id, l.es[i].run)
    ensures TalkOfRun(l, i) in Begun(l, i + 1)
  {
    hide Runs, Opens, Begun, TalkOfRun;
    if FirstOfRun(l, i) {
      FirstIsOwn(l, i);
      GoingOnBegan(l, i + 1);
      if BeginsTalk(l, i) {
        NotBegun(l, i);
      } else {
        NoneBefore(l, i);
        GoingOnBegan(l, i);
      }
    } else {
      var j := EarlierOfRun(l, i);
      var k := FirstFrom(l, i, 0);
      TalkOfFirst(l, i);
      GoingOnBegan(l, k + 1);
      InOrderOf(l, i, j);
      BegunStays(l, k + 1, i, TalkOfRun(l, i));
      BegunStays(l, i, i + 1, TalkOfRun(l, i));
    }
  }

  lemma TalkOfFirst(l: Lineage, i: nat)
    requires i < |l.es| && l.es[i].run != 0
    ensures TalkAt(l, FirstFrom(l, i, 0) + 1) == Some(TalkOfRun(l, i))
  {
    assert l.es[FirstFrom(l, i, 0)].run in Runs(l, FirstFrom(l, i, 0) + 1);
  }

  lemma InOrderOf(l: Lineage, i: nat, j: nat)
    requires j < i < |l.es| && l.es[i].run == l.es[j].run
    ensures FirstFrom(l, i, 0) <= j
  {
  }

  // ---------------------------------------------------------------- the times

  /** A talk's times with one more record's in them. */
  function WithTime(x: TalkTime, ts: nat): TalkTime {
    if ts == 0 then x
    else x.(first := if x.first == 0 || ts < x.first then ts else x.first, last := if ts > x.last then ts else x.last)
  }

  lemma TimedOther(l: Lineage, ts: seq<nat>, i: nat, x: TalkTime)
    requires i < |ts| == |l.es| == |l.ats| && Timed(l, ts, i, x) && !InTalk(l, i, x.id)
    ensures Timed(l, ts, i + 1, x)
  {
    hide InTalk, BeginsTalk;
  }

  lemma TimedMore(l: Lineage, ts: seq<nat>, i: nat, x: TalkTime)
    requires i < |ts| == |l.es| == |l.ats| && Timed(l, ts, i, x) && InTalk(l, i, x.id)
    ensures Timed(l, ts, i + 1, WithTime(x, ts[i]))
  {
    hide InTalk, BeginsTalk;
    var y := WithTime(x, ts[i]);
    assert FirstIs(l, ts, i + 1, x.id, y.first);
    assert LastIs(l, ts, i + 1, x.id, y.last);
  }

  lemma TimedFirst(l: Lineage, ts: seq<nat>, i: nat)
    requires i < |ts| == |l.es| == |l.ats| && BeginsTalk(l, i) && TalkOfRun(l, i) == RunTalk(l.id, l.es[i].run)
    ensures Timed(l, ts, i + 1, WithTime(Segments.TalkTime(TalkOfRun(l, i), l.ats[i], 0, 0), ts[i]))
  {
    hide Opens, TalkOfRun;
    var t := TalkOfRun(l, i);
    forall j: nat | j < i ensures !InTalk(l, j, t) {
      if InTalk(l, j, t) {
        MetWhereBegun(l, j);
        BegunStays(l, j + 1, i, t);
        NotBegun(l, i);
      }
    }
    assert InTalk(l, i, t);
    TimesOfOne(l, ts, i, t);
  }

  lemma TimesOfOne(l: Lineage, ts: seq<nat>, i: nat, t: NodeId)
    requires i < |ts| && InTalk(l, i, t) && forall j: nat :: j < i ==> !InTalk(l, j, t)
    ensures FirstIs(l, ts, i + 1, t, ts[i]) && LastIs(l, ts, i + 1, t, ts[i])
  {
    hide InTalk;
  }

  lemma BegunNext(l: Lineage, i: nat)
    requires i < |l.es|
    ensures Begun(l, i + 1) == Begun(l, i) + if BeginsTalk(l, i) then [RunTalk(l.id, l.es[i].run)] else []
    ensures l.es[i].run == 0 ==> !BeginsTalk(l, i)
  {
    hide Runs, Opens;
  }

  /** Times the main stream's talks, from the nodes its records are in. */
  method TimeTalks(l: Lineage, ts: seq<nat>, container: map<nat, NodeId>) returns (xs: seq<TalkTime>)
    requires Fits(l) && l.main && |ts| == |l.es|
    requires forall i :: 0 <= i < |l.es| ==> l.ats[i] in container && container[l.ats[i]] == Where(l, i)
    ensures Fits(l) && TimesAre(l, ts, xs)
  {
    hide Fits, Begun, TalkOfRun, Timed, BeginsTalk, Runs, TalkAt, InTalk;
    Lengths(l);
    var order: seq<NodeId>, times: map<NodeId, TalkTime> := [], map[];
    NoneBegun(l);
    for i := 0 to |l.es|
      invariant order == Begun(l, i) && forall t :: t in times <==> t in order
      invariant forall t :: t in times ==> times[t].id == t && Timed(l, ts, i, times[t])
    {
      BegunNext(l, i);
      ghost var was := times;
      if l.es[i].run == 0 {
        forall t | t in times ensures Timed(l, ts, i + 1, times[t]) {
          TimedOther(l, ts, i, times[t]) by { NoRunNoTalk(l, i, t); }
        }
        continue;
      }
      var t := container[l.ats[i]].talk;
      MetWhereBegun(l, i);
      TalkIs(l, i, t);
      if t !in times {
        order, times := order + [t], times[t := Segments.TalkTime(t, l.ats[i], 0, 0)];
        TimedFirst(l, ts, i);
      } else {
        TimedMore(l, ts, i, times[t]);
      }
      times := times[t := WithTime(times[t], ts[i])];
      forall u | u in times ensures times[u].id == u && Timed(l, ts, i + 1, times[u]) {
        if u != t { TimedOther(l, ts, i, was[u]) by { OtherTalk(l, i, t, u); } }
      }
    }
    xs := seq(|order|, k requires 0 <= k < |order| => times[order[k]]);
    assert Ids(xs) == order;
  }

  lemma NoneBegun(l: Lineage)
    ensures Begun(l, 0) == []
  {
  }

  lemma NoRunNoTalk(l: Lineage, i: nat, t: NodeId)
    requires i < |l.es| && l.es[i].run == 0
    ensures !InTalk(l, i, t)
  {
  }

  lemma TalkIs(l: Lineage, i: nat, t: NodeId)
    requires Fits(l) && i < |l.es| && l.es[i].run != 0 && Where(l, i).Run? && Where(l, i).talk == t
    ensures TalkOfRun(l, i) == t && InTalk(l, i, t)
  {
    hide TalkOfRun;
  }

  lemma OtherTalk(l: Lineage, i: nat, t: NodeId, u: NodeId)
    requires InTalk(l, i, t) && u != t
    ensures !InTalk(l, i, u)
  {
    hide TalkOfRun;
  }
}
