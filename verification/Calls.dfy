/**
 The provider calls of a session: the records that name one call, gathered from
 every stream and put in landed order.
 */
module Calls {

  import opened Epochs
  import opened Streams
  import opened StableSort

  predicate IsFragment(r: Record) {
    r.kind.Assistant? && r.call != 0 && r.entry.stream != 0
  }

  /** The records as assembly reads them: stream after stream. */
  function Walk(lanes: seq<Lane>): (ats: seq<nat>)
    ensures forall i: nat :: i in ats <==> exists k :: 0 <= k < |lanes| && i in lanes[k].ats
  {
    if lanes == [] then []
    else
      var n := |lanes| - 1;
      assert forall k :: 0 <= k < n ==> lanes[..n][k] == lanes[k];
      Walk(lanes[..n]) + lanes[n].ats
  }

  ghost predicate Within(canon: seq<Record>, ats: seq<nat>) {
    forall k :: 0 <= k < |ats| ==> ats[k] < |canon|
  }

  /** Of these records, those that are fragments of a call. */
  ghost function FragmentsIn(canon: seq<Record>, call: nat, ats: seq<nat>): (f: seq<nat>)
    requires Within(canon, ats)
    ensures forall i: nat :: i in f <==> i in ats && i < |canon| && IsFragment(canon[i]) && canon[i].call == call
    ensures Distinct(ats) ==> Distinct(f)
  {
    if ats == [] then []
    else
      var n := |ats| - 1;
      assert ats == ats[..n] + [ats[n]];
      FragmentsIn(canon, call, ats[..n]) + if IsFragment(canon[ats[n]]) && canon[ats[n]].call == call then [ats[n]]
        else []
  }

  ghost predicate Distinct(s: seq<nat>) {
    forall j, k :: 0 <= j < k < |s| ==> s[j] != s[k]
  }

  /** No record is read twice. */
  lemma {:induction false} WalkOnce(canon: seq<Record>, lanes: seq<Lane>, n: nat)
    requires Partitioned(canon, lanes, |canon|) && n <= |lanes|
    ensures Distinct(Walk(lanes[..n])) && Within(canon, Walk(lanes[..n]))
  {
    hide Partitioned, Walk;
    if n == 0 {
      NothingWalked(lanes);
    } else {
      var m := n - 1;
      WalkOnce(canon, lanes, m);
      LaneWalked(canon, lanes, m);
      var before := Walk(lanes[..m]);
      forall i: nat | i in before ensures i !in lanes[m].ats {
        var k :| 0 <= k < m && i in lanes[..m][k].ats;
        assert i < |canon| by { var q :| 0 <= q < |before| && before[q] == i; }
        OneLane(canon, lanes, i);
      }
      LaneOnce(canon, lanes, m);
      JoinOnce(before, lanes[m].ats);
    }
  }

  lemma LaneOnce(canon: seq<Record>, lanes: seq<Lane>, k: nat)
    requires Partitioned(canon, lanes, |canon|) && k < |lanes|
    ensures Distinct(lanes[k].ats) && Within(canon, lanes[k].ats)
  {
    assert LaneOk(canon, lanes[k], |canon|);
  }

  lemma JoinOnce(a: seq<nat>, b: seq<nat>)
    requires Distinct(a) && Distinct(b) && forall i: nat :: i in a ==> i !in b
    ensures Distinct(a + b)
  {
    var c := a + b;
    forall j, k | 0 <= j < k < |c| ensures c[j] != c[k] {
      assert j < |a| ==> c[j] in a;
      assert k >= |a| ==> c[k] in b;
    }
  }

  /** A record is read just when it names a stream. */
  lemma WalkedIff(canon: seq<Record>, lanes: seq<Lane>, i: nat)
    requires Partitioned(canon, lanes, |canon|) && i < |canon|
    ensures i in Walk(lanes) <==> canon[i].entry.stream != 0
  {
    OneLane(canon, lanes, i);
  }

  /** The fragments met so far, by call, and the calls in the order they were met. */
  ghost predicate Gathered(canon: seq<Record>, byCall: map<nat, seq<nat>>, order: seq<nat>, ats: seq<nat>)
    requires Within(canon, ats)
  {
    && (forall c :: c in byCall ==> byCall[c] == FragmentsIn(canon, c, ats) != [])
    && (forall i: nat :: i in ats && i < |canon| && IsFragment(canon[i]) ==> canon[i].call in byCall)
    && (forall c :: c in order <==> c in byCall) && Distinct(order)
  }

  /** Each call that a streamed record names: its fragments are all of them, in landed order. */
  ghost predicate Grouped(canon: seq<Record>, byCall: map<nat, seq<nat>>, order: seq<nat>) {
    && (forall c :: c in byCall ==> c != 0 && AllFragments(canon, c, byCall[c]))
    && (forall i :: 0 <= i < |canon| && IsFragment(canon[i]) ==> canon[i].call in byCall)
    && (forall c :: c in order <==> c in byCall) && Distinct(order)
  }

  ghost predicate AllFragments(canon: seq<Record>, call: nat, f: seq<nat>) {
    && f != [] && (forall j, k :: 0 <= j < k < |f| ==> f[j] < f[k])
    && forall i: nat :: i in f <==> i < |canon| && IsFragment(canon[i]) && canon[i].call == call
  }

  /** Groups the calls' fragments, whatever streams they landed in. */
  method GroupCalls(canon: seq<Record>, lanes: seq<Lane>) returns (byCall: map<nat, seq<nat>>, order: seq<nat>)
    requires Partitioned(canon, lanes, |canon|)
    ensures Grouped(canon, byCall, order)
  {
    hide Partitioned, Gathered, FragmentsIn, Walk, IsFragment, Grouped, Within, Distinct;
    byCall, order := map[], [];
    ghost var done: seq<nat> := [];
    WalkOnce(canon, lanes, 0);
    NoneGathered(canon);
    NothingWalked(lanes);
    for k := 0 to |lanes|
      invariant done == Walk(lanes[..k]) && Within(canon, done)
      invariant Gathered(canon, byCall, order, done)
    {
      LaneWalked(canon, lanes, k);
      ghost var before := done;
      for p := 0 to |lanes[k].ats|
        invariant done == before + lanes[k].ats[..p] && Within(canon, done)
        invariant Gathered(canon, byCall, order, done)
      {
        var at := lanes[k].ats[p];
        AtWithin(canon, lanes[k].ats, p, done);
        GatheredNext(canon, byCall, order, done, at);
        var r := canon[at];
        if IsFragment(r) {
          ghost var was := byCall;
          if r.call !in byCall {
            byCall, order := byCall[r.call := []], order + [r.call];
          }
          byCall := byCall[r.call := byCall[r.call] + [at]];
          assert byCall == WithFragment(was, r.call, at);
        }
        done := done + [at];
        assert before + lanes[k].ats[..p] + [at] == before + lanes[k].ats[..p+1];
      }
      assert lanes[k].ats[..|lanes[k].ats|] == lanes[k].ats;
    }
    assert lanes[..|lanes|] == lanes;
    ghost var walked := byCall;
    for n := 0 to |order|
      invariant byCall.Keys == walked.Keys
      invariant forall c :: c in byCall ==>
                  byCall[c] == if c in order[..n] then Sorted(walked[c], (i: nat) => i) else walked[c]
    {
      InOrderKeys(canon, walked, order, done, order[n]);
      assert order[..n+1] == order[..n] + [order[n]];
      NotYet(canon, walked, order, done, n);
      byCall := byCall[order[n] := Sorted(byCall[order[n]], (i: nat) => i)];
    }
    assert order[..|order|] == order;
    GroupedAtLast(canon, lanes, walked, order, byCall);
  }

  lemma NotYet(canon: seq<Record>, byCall: map<nat, seq<nat>>, order: seq<nat>, ats: seq<nat>, n: nat)
    requires Within(canon, ats) && Gathered(canon, byCall, order, ats) && n < |order|
    ensures order[n] !in order[..n]
  {
  }

  lemma InOrderKeys(canon: seq<Record>, byCall: map<nat, seq<nat>>, order: seq<nat>, ats: seq<nat>, c: nat)
    requires Within(canon, ats) && Gathered(canon, byCall, order, ats)
    ensures c in order <==> c in byCall
  {
  }

  lemma NoneGathered(canon: seq<Record>)
    ensures Gathered(canon, map[], [], [])
  {
  }

  lemma AtWithin(canon: seq<Record>, ats: seq<nat>, p: nat, done: seq<nat>)
    requires Within(canon, ats) && p < |ats| && Within(canon, done)
    ensures ats[p] < |canon| && Within(canon, done + [ats[p]])
  {
  }

  lemma NothingWalked(lanes: seq<Lane>)
    ensures Walk(lanes[..0]) == []
  {
  }

  lemma LaneWalked(canon: seq<Record>, lanes: seq<Lane>, k: nat)
    requires Partitioned(canon, lanes, |canon|) && k < |lanes|
    ensures Walk(lanes[..k+1]) == Walk(lanes[..k]) + lanes[k].ats
    ensures Within(canon, lanes[k].ats)
  {
    assert lanes[..k+1][..k] == lanes[..k];
    LaneOnce(canon, lanes, k);
  }

  lemma GatheredNext(canon: seq<Record>, byCall: map<nat, seq<nat>>, order: seq<nat>, ats: seq<nat>, at: nat)
    requires Within(canon, ats) && Gathered(canon, byCall, order, ats) && at < |canon|
    ensures !IsFragment(canon[at]) ==> Gathered(canon, byCall, order, ats + [at])
    ensures IsFragment(canon[at]) ==>
              Gathered(canon, WithFragment(byCall, canon[at].call, at), WithCall(byCall, order, canon[at].call),
                       ats + [at])
  {
    hide FragmentsIn, IsFragment;
    var c := canon[at].call;
    var more := ats + [at];
    forall d
      ensures FragmentsIn(canon, d, more) ==
              FragmentsIn(canon, d, ats) + if IsFragment(canon[at]) && c == d then [at] else []
    {
      FragmentsNext(canon, d, ats, at);
    }
    if IsFragment(canon[at]) && c !in byCall { NoFragments(canon, c, ats); }
    assert Within(canon, more);
    forall i: nat | i in more && i < |canon| && IsFragment(canon[i])
      ensures canon[i].call in WithFragment(byCall, c, at) || !IsFragment(canon[at]) {}
  }

  function WithFragment(byCall: map<nat, seq<nat>>, c: nat, at: nat): map<nat, seq<nat>> {
    byCall[c := (if c in byCall then byCall[c] else []) + [at]]
  }

  function WithCall(byCall: map<nat, seq<nat>>, order: seq<nat>, c: nat): seq<nat> {
    if c in byCall then order else order + [c]
  }

  lemma FragmentsNext(canon: seq<Record>, d: nat, ats: seq<nat>, at: nat)
    requires Within(canon, ats) && at < |canon|
    ensures FragmentsIn(canon, d, ats + [at]) ==
            FragmentsIn(canon, d, ats) + if IsFragment(canon[at]) && canon[at].call == d then [at] else []
  {
    assert (ats + [at])[..|ats|] == ats;
  }

  lemma {:induction false} NoFragments(canon: seq<Record>, c: nat, ats: seq<nat>)
    requires Within(canon, ats) && forall i: nat :: i in ats && i < |canon| && IsFragment(canon[i]) ==>
               canon[i].call != c
    ensures FragmentsIn(canon, c, ats) == []
  {
    if ats != [] { NoFragments(canon, c, ats[..|ats|-1]); }
  }

  lemma GroupedAtLast(canon: seq<Record>, lanes: seq<Lane>, walked: map<nat, seq<nat>>, order: seq<nat>,
                      byCall: map<nat, seq<nat>>)
    requires Partitioned(canon, lanes, |canon|) && Within(canon, Walk(lanes))
    requires Gathered(canon, walked, order, Walk(lanes)) && byCall.Keys == walked.Keys
    requires forall c :: c in byCall ==> byCall[c] == if c in order then Sorted(walked[c], (i: nat) => i) else walked[c]
    ensures Grouped(canon, byCall, order)
  {
    hide Partitioned, Walk, FragmentsIn, AllFragments, Sorted, Distinct;
    WalkOnce(canon, lanes, |lanes|);
    assert lanes[..|lanes|] == lanes;
    forall i: nat | i < |canon| ensures i in Walk(lanes) <==> canon[i].entry.stream != 0 { WalkedIff(canon, lanes, i); }
    forall c | c in byCall ensures c != 0 && AllFragments(canon, c, byCall[c]) {
      SortedFragments(canon, c, Walk(lanes), walked[c]);
    }
  }

  /** Fragments put in order are the same fragments, each once. */
  lemma SortedFragments(canon: seq<Record>, c: nat, ats: seq<nat>, f: seq<nat>)
    requires Within(canon, ats) && Distinct(ats) && f == FragmentsIn(canon, c, ats) && f != []
    requires forall i: nat :: i < |canon| ==> (i in ats <==> canon[i].entry.stream != 0)
    ensures c != 0 && AllFragments(canon, c, Sorted(f, (i: nat) => i))
  {
    hide FragmentsIn, Sorted;
    var s := Sorted(f, (i: nat) => i);
    forall i: nat ensures i in s <==> i in f { assert i in multiset(s) <==> i in multiset(f); }
    assert f[0] in f;
    forall j, k | 0 <= j < k < |s| ensures s[j] < s[k] {
      OnceEach(f, s, j, k);
    }
  }

  lemma OnceEach(f: seq<nat>, s: seq<nat>, j: nat, k: nat)
    requires Distinct(f) && multiset(s) == multiset(f) && j < k < |s|
    ensures s[j] != s[k]
  {
    OnceIn(f, s[j]);
    assert s == s[..k] + [s[k]] + s[k+1..];
    assert s[j] in s[..k] by { assert s[..k][j] == s[j]; }
    assert multiset(s)[s[j]] == multiset(s[..k])[s[j]] + multiset{s[k]}[s[j]] + multiset(s[k+1..])[s[j]];
  }

  lemma {:induction false} OnceIn(f: seq<nat>, x: nat)
    requires Distinct(f)
    ensures multiset(f)[x] <= 1
  {
    if f != [] {
      var n := |f| - 1;
      assert f == f[..n] + [f[n]];
      OnceIn(f[..n], x);
      assert f[n] !in f[..n];
    }
  }
}
