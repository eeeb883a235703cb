/**
 Joining the bodies exchanged with a model provider to the calls they belong
 to: by the call a body names, or by the request before it and the prompt, and
 only ever when one body and one call could be meant.
 */
module ProviderJoin {

  datatype Option<T> = None | Some(value: T)

  datatype Role = Request | Response | Unknown

  /** One provider body; identifiers are numbers, 0 where there is none. */
  datatype Body = Body(role: Role, prompt: nat, previous: nat, request: nat, msg: nat)

  /** One provider call, in the order the calls of a stream landed. */
  datatype Call = Call(stream: nat, msg: nat, prompt: nat)

  datatype Key = Key(previous: nat, prompt: nat)

  // ---------------------------------------------------------------------
  // Gaps.
  // ---------------------------------------------------------------------

  /** An indexed record: its stream, its line there, and whether it is a line of the transcript. */
  datatype Entry = Entry(stream: nat, line: nat, transcript: bool)

  /** The lines of a stream's transcript, as they landed. */
  function LinesOf(entries: seq<Entry>, stream: nat): seq<nat> {
    if entries == [] then []
    else
      var n := |entries| - 1;
      LinesOf(entries[..n], stream) + if entries[n].stream == stream && entries[n].transcript then [entries[n].line]
        else []
  }

  /** The highest line of these. */
  function Highest(lines: seq<nat>): nat {
    if lines == [] then 0
    else
      var h := Highest(lines[..|lines|-1]);
      if lines[|lines|-1] > h then lines[|lines|-1] else h
  }

  /** Every line up to this one has landed among the first n. */
  ghost predicate AllBefore(lines: seq<nat>, n: nat, line: nat)
    requires n <= |lines|
  {
    forall v :: 1 <= v < line ==> v in lines[..n]
  }

  /** Some line landed before one that comes ahead of it. */
  ghost predicate Skips(lines: seq<nat>) {
    exists i :: 0 <= i < |lines| && !AllBefore(lines, i, lines[i])
  }

  lemma SkipsNext(lines: seq<nat>, line: nat)
    ensures Skips(lines + [line]) <==> Skips(lines) || !AllBefore(lines, |lines|, line)
  {
    var more := lines + [line];
    assert forall i :: 0 <= i <= |lines| ==> more[..i] == lines[..i];
    assert forall i :: 0 <= i < |lines| ==> more[i] == lines[i];
    assert more[|lines|] == line;
    if Skips(lines) {
      var i :| 0 <= i < |lines| && !AllBefore(lines, i, lines[i]);
      assert !AllBefore(more, i, more[i]);
    }
    if !AllBefore(lines, |lines|, line) { assert !AllBefore(more, |lines|, more[|lines|]); }
  }

  lemma {:induction false} SkipsOn(lines: seq<nat>, more: seq<nat>)
    requires Skips(lines)
    ensures Skips(lines + more)
  {
    if more == [] {
      assert lines + more == lines;
    } else {
      var n := |more| - 1;
      SkipsOn(lines, more[..n]);
      SkipsNext(lines + more[..n], more[n]);
      assert lines + more == lines + more[..n] + [more[n]];
    }
  }

  lemma {:induction false} LinesGrow(entries: seq<Entry>, n: nat, stream: nat)
    requires n <= |entries|
    ensures exists more :: LinesOf(entries, stream) == LinesOf(entries[..n], stream) + more
    decreases |entries|
  {
    if n == |entries| {
      assert entries[..n] == entries;
      assert LinesOf(entries, stream) == LinesOf(entries[..n], stream) + [];
    } else {
      var last := |entries| - 1;
      LinesGrow(entries[..last], n, stream);
      assert entries[..last][..n] == entries[..n];
      var more :| LinesOf(entries[..last], stream) == LinesOf(entries[..n], stream) + more;
      var tail := if entries[last].stream == stream && entries[last].transcript then [entries[last].line] else [];
      assert LinesOf(entries, stream) == LinesOf(entries[..n], stream) + (more + tail);
    }
  }

  /** Says whether a stream's lines, as they landed, skip one. */
  method HasGap(entries: seq<Entry>, stream: nat) returns (gap: bool)
    ensures gap <==> Skips(LinesOf(entries, stream))
  {
    hide Skips;
    var prev := 0;
    assert !Skips([]) by { NothingSkips(); }
    for i := 0 to |entries|
      invariant prev == Highest(LinesOf(entries[..i], stream))
      invariant AllBefore(LinesOf(entries[..i], stream), |LinesOf(entries[..i], stream)|, prev + 1)
      invariant !Skips(LinesOf(entries[..i], stream))
    {
      assert entries[..i+1][..i] == entries[..i];
      var e := entries[i];
      var lines := LinesOf(entries[..i], stream);
      if e.stream != stream || !e.transcript {
        assert LinesOf(entries[..i+1], stream) == lines;
        continue;
      }
      assert LinesOf(entries[..i+1], stream) == lines + [e.line];
      assert (lines + [e.line])[..|lines|] == lines;
      HighestTops(lines);
      SkipsNext(lines, e.line);
      assert lines[..|lines|] == lines;
      if e.line > prev + 1 {
        assert prev + 1 !in lines;
        LinesGrow(entries, i + 1, stream);
        var more :| LinesOf(entries, stream) == LinesOf(entries[..i+1], stream) + more;
        SkipsOn(LinesOf(entries[..i+1], stream), more);
        return true;
      }
      assert forall v :: v in lines + [e.line] <==> v in lines || v == e.line;
      assert (lines + [e.line])[..|lines + [e.line]|] == lines + [e.line];
      if e.line > prev { prev := e.line; }
    }
    assert entries[..|entries|] == entries;
    gap := false;
  }

  lemma NothingSkips()
    ensures !Skips([])
  {
  }

  /** The streams of these calls whose landed lines skip one. */
  ghost function GapsOf(calls: seq<Call>, entries: seq<Entry>): set<nat> {
    set c | 0 <= c < |calls| && Skips(LinesOf(entries, calls[c].stream)) :: calls[c].stream
  }

  method FindGaps(calls: seq<Call>, entries: seq<Entry>) returns (gapped: set<nat>)
    ensures gapped == GapsOf(calls, entries)
  {
    hide Skips, LinesOf;
    gapped := {};
    var done: set<nat> := {};
    for c := 0 to |calls|
      invariant done == set k | 0 <= k < c :: calls[k].stream
      invariant forall s :: s in gapped <==> s in done && Skips(LinesOf(entries, s))
    {
      if calls[c].stream in done { continue; }
      var gap := HasGap(entries, calls[c].stream);
      done := done + {calls[c].stream};
      if gap { gapped := gapped + {calls[c].stream}; }
    }
  }

  lemma {:induction false} HighestTops(lines: seq<nat>)
    ensures forall v :: v in lines ==> v <= Highest(lines)
  {
    if lines != [] {
      var n := |lines| - 1;
      HighestTops(lines[..n]);
      assert lines == lines[..n] + [lines[n]];
    }
  }

  // ---------------------------------------------------------------------
  // What joins.
  // ---------------------------------------------------------------------

  /** Body i, of a role, names a call by its message. */
  predicate Names(bodies: seq<Body>, role: Role, msg: nat, i: int) {
    0 <= i < |bodies| && bodies[i].role == role && bodies[i].msg == msg && msg != 0
  }

  ghost predicate OnlyNames(bodies: seq<Body>, role: Role, msg: nat, i: int) {
    Names(bodies, role, msg, i) && forall j :: Names(bodies, role, msg, j) ==> j == i
  }

  /** The one body of a role that names a call, when there is exactly one. */
  ghost function Named(bodies: seq<Body>, role: Role, msg: nat): (r: Option<nat>)
    ensures r.Some? ==> OnlyNames(bodies, role, msg, r.value)
    ensures r.None? ==> forall i :: !OnlyNames(bodies, role, msg, i)
  {
    if exists i: nat :: OnlyNames(bodies, role, msg, i) then
      var i: nat :| OnlyNames(bodies, role, msg, i);
      Some(i)
    else None
  }

  /** A request that names no call carries a key: the request before it, and its prompt. */
  predicate Carries(bodies: seq<Body>, key: Key, i: int) {
    && 0 <= i < |bodies| && bodies[i].role == Request && bodies[i].msg == 0 && bodies[i].prompt != 0
    && Key(bodies[i].previous, bodies[i].prompt) == key
  }

  /** The request id call i's response carries, 0 when there is no one response or it carries none. */
  ghost function ResponseRequest(bodies: seq<Body>, calls: seq<Call>, i: nat): nat
    requires i < |calls|
  {
    var r := Named(bodies, Response, calls[i].msg);
    if r.None? then 0 else bodies[r.value].request
  }

  /** The key call i's request would carry, when nothing is missing that would say it. */
  ghost function KeyOf(bodies: seq<Body>, calls: seq<Call>, gapped: set<nat>, i: nat): Option<Key>
    requires i < |calls|
  {
    var k := calls[i];
    if Named(bodies, Request, k.msg).Some? || k.stream in gapped || k.prompt == 0 then None
    else if i > 0 && calls[i-1].stream == k.stream then
      var previous := ResponseRequest(bodies, calls, i - 1);
      if previous == 0 then None else Some(Key(previous, k.prompt))
    else Some(Key(0, k.prompt))
  }

  ghost predicate HasKey(bodies: seq<Body>, calls: seq<Call>, gapped: set<nat>, key: Key, i: int) {
    0 <= i < |calls| && KeyOf(bodies, calls, gapped, i) == Some(key)
  }

  /** Exactly one request and exactly one call carry a key. */
  ghost predicate Unique(bodies: seq<Body>, calls: seq<Call>, gapped: set<nat>, key: Key, body: int, call: int) {
    && Carries(bodies, key, body) && (forall j :: Carries(bodies, key, j) ==> j == body)
    && HasKey(bodies, calls, gapped, key, call) && (forall j :: HasKey(bodies, calls, gapped, key, j) ==> j == call)
  }

  /** Body b is call c's request. */
  ghost predicate IsRequest(bodies: seq<Body>, calls: seq<Call>, gapped: set<nat>, c: nat, b: int)
    requires c < |calls|
  {
    || OnlyNames(bodies, Request, calls[c].msg, b)
    || (KeyOf(bodies, calls, gapped, c).Some?
        && Unique(bodies, calls, gapped, KeyOf(bodies, calls, gapped, c).value, b, c))
  }

  /** Calls are told apart by the messages they are fragments of. */
  predicate DistinctCalls(calls: seq<Call>) {
    forall j, k :: 0 <= j < k < |calls| && calls[j].msg != 0 ==> calls[j].msg != calls[k].msg
  }

  /** No body is the request of two calls, and no call has two. */
  lemma RequestsInjective(bodies: seq<Body>, calls: seq<Call>, gapped: set<nat>, c: nat, b: int, c': nat, b': int)
    requires DistinctCalls(calls) && c < |calls| && c' < |calls|
    requires IsRequest(bodies, calls, gapped, c, b) && IsRequest(bodies, calls, gapped, c', b')
    ensures b == b' <==> c == c'
  {
    hide KeyOf, Named;
    KeyedUnnamed(bodies, calls, gapped, c);
    KeyedUnnamed(bodies, calls, gapped, c');
  }

  lemma KeyedUnnamed(bodies: seq<Body>, calls: seq<Call>, gapped: set<nat>, c: nat)
    requires c < |calls|
    ensures KeyOf(bodies, calls, gapped, c).Some? ==> forall b :: !OnlyNames(bodies, Request, calls[c].msg, b)
  {
  }

  /** No body is the response of two calls, no call has two, and none is a response and a request. */
  lemma ResponsesInjective(bodies: seq<Body>, calls: seq<Call>, gapped: set<nat>, c: nat, b: int, c': nat, b': int)
    requires DistinctCalls(calls) && c < |calls| && c' < |calls|
    requires OnlyNames(bodies, Response, calls[c].msg, b) && OnlyNames(bodies, Response, calls[c'].msg, b')
    ensures b == b' <==> c == c'
    ensures !IsRequest(bodies, calls, gapped, c', b)
  {
    hide KeyOf;
  }

  /**
   A call no request names gets one by key exactly when one request and one call carry the key; none in
   a stream with a gap, nor after a call whose response is not known.
   */
  lemma KeyJoinExact(bodies: seq<Body>, calls: seq<Call>, gapped: set<nat>, c: nat)
    requires c < |calls| && Named(bodies, Request, calls[c].msg).None?
    ensures (exists b :: IsRequest(bodies, calls, gapped, c, b)) <==>
            KeyOf(bodies, calls, gapped, c).Some? && exists b ::
              Unique(bodies, calls, gapped, KeyOf(bodies, calls, gapped, c).value, b, c)
    ensures calls[c].stream in gapped ==> forall b :: !IsRequest(bodies, calls, gapped, c, b)
    ensures c > 0 && calls[c-1].stream == calls[c].stream && ResponseRequest(bodies, calls, c - 1) == 0 ==>
              forall b :: !IsRequest(bodies, calls, gapped, c, b)
  {
    hide Unique;
    forall b ensures !OnlyNames(bodies, Request, calls[c].msg, b) { }
    var k := KeyOf(bodies, calls, gapped, c);
    if b :| IsRequest(bodies, calls, gapped, c, b) {
      assert Unique(bodies, calls, gapped, k.value, b, c);
    }
    if k.Some? {
      if b :| Unique(bodies, calls, gapped, k.value, b, c) {
        assert IsRequest(bodies, calls, gapped, c, b);
      }
    }
  }

  // ---------------------------------------------------------------------
  // The join as it runs.
  // ---------------------------------------------------------------------

  /** The bodies before n of a role that name each message, in order. */
  ghost predicate GroupedByMsg(bodies: seq<Body>, role: Role, m: map<nat, seq<nat>>, n: nat) {
    && (forall msg, k :: msg in m && 0 <= k < |m[msg]| ==> m[msg][k] < n && Names(bodies, role, msg, m[msg][k]))
    && (forall msg, j, k :: msg in m && 0 <= j < k < |m[msg]| ==> m[msg][j] < m[msg][k])
    && (forall msg, i :: 0 <= i < n && Names(bodies, role, msg, i) ==> msg in m && i in m[msg])
  }

  ghost predicate GroupedByKey(bodies: seq<Body>, m: map<Key, seq<nat>>, n: nat) {
    && (forall key, k :: key in m && 0 <= k < |m[key]| ==> m[key][k] < n && Carries(bodies, key, m[key][k]))
    && (forall key, j, k :: key in m && 0 <= j < k < |m[key]| ==> m[key][j] < m[key][k])
    && (forall key, i :: 0 <= i < n && Carries(bodies, key, i) ==> key in m && i in m[key])
  }

  function Hits<K>(m: map<K, seq<nat>>, k: K): seq<nat> {
    if k in m then m[k] else []
  }

  method GroupByMsg(bodies: seq<Body>, role: Role) returns (m: map<nat, seq<nat>>)
    ensures GroupedByMsg(bodies, role, m, |bodies|)
  {
    m := map[];
    for i := 0 to |bodies|
      invariant GroupedByMsg(bodies, role, m, i)
    {
      var y := bodies[i];
      if y.msg != 0 && y.role == role {
        MsgGrows(bodies, role, m, i);
        m := m[y.msg := Hits(m, y.msg) + [i]];
      }
    }
  }

  lemma MsgGrows(bodies: seq<Body>, role: Role, m: map<nat, seq<nat>>, i: nat)
    requires i < |bodies| && bodies[i].role == role && bodies[i].msg != 0 && GroupedByMsg(bodies, role, m, i)
    ensures GroupedByMsg(bodies, role, m[bodies[i].msg := Hits(m, bodies[i].msg) + [i]], i + 1)
  {
    var was := Hits(m, bodies[i].msg);
    var now := was + [i];
    assert forall k :: 0 <= k < |now| ==> now[k] == if k < |was| then was[k] else i;
    assert forall x :: x in was ==> x in now;
    assert now[|was|] == i;
  }

  method GroupByKey(bodies: seq<Body>) returns (m: map<Key, seq<nat>>)
    ensures GroupedByKey(bodies, m, |bodies|)
  {
    m := map[];
    for i := 0 to |bodies|
      invariant GroupedByKey(bodies, m, i)
    {
      var y := bodies[i];
      if y.role == Request && y.msg == 0 && y.prompt != 0 {
        KeyGrows(bodies, m, i);
        m := m[Key(y.previous, y.prompt) := Hits(m, Key(y.previous, y.prompt)) + [i]];
      }
    }
  }

  lemma KeyGrows(bodies: seq<Body>, m: map<Key, seq<nat>>, i: nat)
    requires i < |bodies| && bodies[i].role == Request && bodies[i].msg == 0 && bodies[i].prompt != 0
    requires GroupedByKey(bodies, m, i)
    ensures var key := Key(bodies[i].previous, bodies[i].prompt);
            GroupedByKey(bodies, m[key := Hits(m, key) + [i]], i + 1)
  {
    var was := Hits(m, Key(bodies[i].previous, bodies[i].prompt));
    var now := was + [i];
    assert forall k :: 0 <= k < |now| ==> now[k] == if k < |was| then was[k] else i;
    assert forall x :: x in was ==> x in now;
    assert now[|was|] == i;
  }

  /** One hit is the only body that names the message. */
  lemma OneHit(bodies: seq<Body>, role: Role, m: map<nat, seq<nat>>, msg: nat)
    requires GroupedByMsg(bodies, role, m, |bodies|)
    ensures Named(bodies, role, msg) == if |Hits(m, msg)| == 1 then Some(Hits(m, msg)[0]) else None
  {
    var hits := Hits(m, msg);
    if |hits| == 1 {
      assert Names(bodies, role, msg, hits[0]);
      forall j | Names(bodies, role, msg, j) ensures j == hits[0] { assert j in hits; }
      assert OnlyNames(bodies, role, msg, hits[0]);
    } else if |hits| == 0 {
      forall i ensures !OnlyNames(bodies, role, msg, i) { assert Names(bodies, role, msg, i) ==> i in hits; }
    } else {
      assert Names(bodies, role, msg, hits[0]) && Names(bodies, role, msg, hits[1]) && hits[0] < hits[1];
      forall i ensures !OnlyNames(bodies, role, msg, i) { }
    }
  }

  /** How many calls before n have a key. */
  ghost function CallsWith(bodies: seq<Body>, calls: seq<Call>, gapped: set<nat>, key: Key, n: nat): nat
    requires n <= |calls|
  {
    if n == 0 then 0
    else CallsWith(bodies, calls, gapped, key, n - 1)
           + if KeyOf(bodies, calls, gapped, n - 1) == Some(key) then 1 else 0
  }

  lemma {:induction false} NoneWith(bodies: seq<Body>, calls: seq<Call>, gapped: set<nat>, key: Key, n: nat)
    requires n <= |calls|
    ensures CallsWith(bodies, calls, gapped, key, n) == 0 <==>
              forall j :: 0 <= j < n ==> !HasKey(bodies, calls, gapped, key, j)
  {
    hide KeyOf;
    if n > 0 {
      NoneWith(bodies, calls, gapped, key, n - 1);
      assert HasKey(bodies, calls, gapped, key, n - 1) <==> KeyOf(bodies, calls, gapped, n - 1) == Some(key);
    }
  }

  /** Counting one says that one call has the key. */
  lemma {:induction false} OneWith(bodies: seq<Body>, calls: seq<Call>, gapped: set<nat>, key: Key, c: nat, n: nat)
    requires c < n <= |calls| && HasKey(bodies, calls, gapped, key, c)
    ensures CallsWith(bodies, calls, gapped, key, n) == 1 <==>
              forall j :: 0 <= j < n && HasKey(bodies, calls, gapped, key, j) ==> j == c
    decreases n
  {
    hide KeyOf;
    if c == n - 1 {
      NoneWith(bodies, calls, gapped, key, c);
    } else {
      OneWith(bodies, calls, gapped, key, c, n - 1);
      if HasKey(bodies, calls, gapped, key, n - 1) { NoneWith(bodies, calls, gapped, key, n - 1); }
    }
  }

  /** The calls' requests and responses, by call. */
  method Join(bodies: seq<Body>, calls: seq<Call>, gapped: set<nat>)
    returns (requestFor: map<nat, nat>, responseOf: map<nat, nat>)
    ensures forall c :: c in requestFor ==> c < |calls| && IsRequest(bodies, calls, gapped, c, requestFor[c])
    ensures forall c: nat, b :: c < |calls| && IsRequest(bodies, calls, gapped, c, b) ==>
              c in requestFor && requestFor[c] == b
    ensures forall c: nat :: c in responseOf <==> c < |calls| && Named(bodies, Response, calls[c].msg).Some?
    ensures forall c :: c in responseOf ==> Some(responseOf[c]) == Named(bodies, Response, calls[c].msg)
  {
    hide KeyOf, OnlyNames, Unique;
    var requests := GroupByMsg(bodies, Request);
    var responses := GroupByMsg(bodies, Response);
    var named: map<nat, nat>;
    named, responseOf := JoinNamed(bodies, calls, requests, responses);
    var byKey := GroupByKey(bodies);
    var keys, count := KeyCalls(bodies, calls, gapped, named, responseOf);
    requestFor := JoinKeyed(bodies, calls, gapped, named, byKey, keys, count);
  }

  /** A session's join: the calls' requests and responses, when what landed says which streams have gaps. */
  method JoinSession(bodies: seq<Body>, calls: seq<Call>, entries: seq<Entry>)
    returns (requestFor: map<nat, nat>, responseOf: map<nat, nat>)
    ensures forall c :: c in requestFor ==>
              c < |calls| && IsRequest(bodies, calls, GapsOf(calls, entries), c, requestFor[c])
    ensures forall c: nat, b :: c < |calls| && IsRequest(bodies, calls, GapsOf(calls, entries), c, b) ==>
              c in requestFor && requestFor[c] == b
    ensures forall c: nat :: c in responseOf <==> c < |calls| && Named(bodies, Response, calls[c].msg).Some?
    ensures forall c :: c in responseOf ==> Some(responseOf[c]) == Named(bodies, Response, calls[c].msg)
    ensures DistinctCalls(calls) ==>
              forall c, k :: c in requestFor && k in requestFor && requestFor[c] == requestFor[k] ==> c == k
    ensures forall c :: c in requestFor && Skips(LinesOf(entries, calls[c].stream)) ==>
              OnlyNames(bodies, Request, calls[c].msg, requestFor[c])
  {
    hide KeyOf, OnlyNames, Named, Unique, Skips, LinesOf, IsRequest, DistinctCalls;
    var gapped := FindGaps(calls, entries);
    requestFor, responseOf := Join(bodies, calls, gapped);
    if DistinctCalls(calls) {
      forall c, k | c in requestFor && k in requestFor && requestFor[c] == requestFor[k] ensures c == k {
        RequestsInjective(bodies, calls, gapped, c, requestFor[c], k, requestFor[k]);
      }
    }
    forall c | c in requestFor && Skips(LinesOf(entries, calls[c].stream))
      ensures OnlyNames(bodies, Request, calls[c].msg, requestFor[c])
    {
      GappedNamed(bodies, calls, gapped, c, requestFor[c]);
    }
  }

  lemma GappedNamed(bodies: seq<Body>, calls: seq<Call>, gapped: set<nat>, c: nat, b: int)
    requires c < |calls| && calls[c].stream in gapped && IsRequest(bodies, calls, gapped, c, b)
    ensures OnlyNames(bodies, Request, calls[c].msg, b)
  {
  }

  /** Joins the bodies that name their call. */
  method JoinNamed(bodies: seq<Body>, calls: seq<Call>, requests: map<nat, seq<nat>>, responses: map<nat, seq<nat>>)
    returns (named: map<nat, nat>, responseOf: map<nat, nat>)
    requires GroupedByMsg(bodies, Request, requests, |bodies|) && GroupedByMsg(bodies, Response, responses, |bodies|)
    ensures NamedFor(bodies, calls, Request, named) && NamedFor(bodies, calls, Response, responseOf)
  {
    hide Named, GroupedByMsg;
    named, responseOf := map[], map[];
    for c := 0 to |calls|
      invariant forall k: nat :: k in named <==> k < c && Named(bodies, Request, calls[k].msg).Some?
      invariant forall k :: k in named ==> Some(named[k]) == Named(bodies, Request, calls[k].msg)
      invariant forall k: nat :: k in responseOf <==> k < c && Named(bodies, Response, calls[k].msg).Some?
      invariant forall k :: k in responseOf ==> Some(responseOf[k]) == Named(bodies, Response, calls[k].msg)
    {
      OneHit(bodies, Request, requests, calls[c].msg);
      OneHit(bodies, Response, responses, calls[c].msg);
      if calls[c].msg == 0 {
        NoMessage(bodies);
        continue;
      }
      if |Hits(responses, calls[c].msg)| == 1 { responseOf := responseOf[c := Hits(responses, calls[c].msg)[0]]; }
      if |Hits(requests, calls[c].msg)| == 1 { named := named[c := Hits(requests, calls[c].msg)[0]]; }
    }
  }

  lemma NoMessage(bodies: seq<Body>)
    ensures Named(bodies, Request, 0).None? && Named(bodies, Response, 0).None?
  {
  }

  ghost predicate NamedFor(bodies: seq<Body>, calls: seq<Call>, role: Role, m: map<nat, nat>) {
    && (forall k: nat :: k in m <==> k < |calls| && Named(bodies, role, calls[k].msg).Some?)
    && (forall k :: k in m ==> Some(m[k]) == Named(bodies, role, calls[k].msg))
  }

  /** Works out each call's key, and how many calls have each. */
  method KeyCalls(bodies: seq<Body>, calls: seq<Call>, gapped: set<nat>, named: map<nat, nat>, responseOf: map<nat,
                  nat>)
    returns (keys: map<nat, Key>, count: map<Key, nat>)
    requires NamedFor(bodies, calls, Request, named) && NamedFor(bodies, calls, Response, responseOf)
    ensures forall c: nat :: c in keys <==> c < |calls| && KeyOf(bodies, calls, gapped, c).Some?
    ensures forall c :: c in keys ==> Some(keys[c]) == KeyOf(bodies, calls, gapped, c)
    ensures forall key :: (if key in count then count[key] else 0) == CallsWith(bodies, calls, gapped, key, |calls|)
  {
    hide KeyOf, NamedFor;
    keys, count := map[], map[];
    for c := 0 to |calls|
      invariant forall k: nat :: k in keys <==> k < c && KeyOf(bodies, calls, gapped, k).Some?
      invariant forall k :: k in keys ==> Some(keys[k]) == KeyOf(bodies, calls, gapped, k)
      invariant forall key :: (if key in count then count[key] else 0) == CallsWith(bodies, calls, gapped, key, c)
    {
      var k := calls[c];
      KeyIs(bodies, calls, gapped, named, responseOf, c);
      if c in named || k.stream in gapped || k.prompt == 0 { continue; }
      var previous := 0;
      if c > 0 && calls[c-1].stream == k.stream {
        if c - 1 !in responseOf || bodies[responseOf[c-1]].request == 0 { continue; }
        previous := bodies[responseOf[c-1]].request;
      }
      var key := Key(previous, k.prompt);
      keys := keys[c := key];
      count := count[key := (if key in count then count[key] else 0) + 1];
    }
  }

  lemma KeyIs(bodies: seq<Body>, calls: seq<Call>, gapped: set<nat>, named: map<nat, nat>, responseOf: map<nat, nat>,
              c: nat)
    requires c < |calls| && NamedFor(bodies, calls, Request, named) && NamedFor(bodies, calls, Response, responseOf)
    ensures c > 0 && c - 1 in responseOf ==> responseOf[c-1] < |bodies|
    ensures KeyOf(bodies, calls, gapped, c) ==
            if c in named || calls[c].stream in gapped || calls[c].prompt == 0 then None
            else if c > 0 && calls[c-1].stream == calls[c].stream then
              (if c - 1 !in responseOf || bodies[responseOf[c-1]].request == 0 then None
               else Some(Key(bodies[responseOf[c-1]].request, calls[c].prompt)))
            else Some(Key(0, calls[c].prompt))
  {
  }

  /** Joins the requests that name no call, one request and one call to a key. */
  method JoinKeyed(bodies: seq<Body>, calls: seq<Call>, gapped: set<nat>, named: map<nat, nat>, byKey: map<Key,
                   seq<nat>>,
                   keys: map<nat, Key>, count: map<Key, nat>) returns (requestFor: map<nat, nat>)
    requires NamedFor(bodies, calls, Request, named) && GroupedByKey(bodies, byKey, |bodies|)
    requires forall c: nat :: c in keys <==> c < |calls| && KeyOf(bodies, calls, gapped, c).Some?
    requires forall c :: c in keys ==> Some(keys[c]) == KeyOf(bodies, calls, gapped, c)
    requires forall key :: (if key in count then count[key] else 0) == CallsWith(bodies, calls, gapped, key, |calls|)
    ensures forall c :: c in requestFor ==> c < |calls| && IsRequest(bodies, calls, gapped, c, requestFor[c])
    ensures forall c: nat, b :: c < |calls| && IsRequest(bodies, calls, gapped, c, b) ==>
              c in requestFor && requestFor[c] == b
  {
    hide KeyOf, OnlyNames, Unique, NamedFor, GroupedByKey, CallsWith;
    requestFor := named;
    NamedIs(bodies, calls, gapped, named);
    for c := 0 to |calls|
      invariant forall k :: k in requestFor ==> k < |calls| && (k in named || k < c)
      invariant forall k :: k in named ==> k in requestFor && requestFor[k] == named[k]
      invariant forall k :: k in requestFor ==> IsRequest(bodies, calls, gapped, k, requestFor[k])
      invariant forall k: nat, b :: k < c && IsRequest(bodies, calls, gapped, k, b) ==>
                  k in requestFor && requestFor[k] == b
    {
      KeyedIs(bodies, calls, gapped, named, byKey, keys, count, c);
      if c !in keys { continue; }
      var hits := Hits(byKey, keys[c]);
      if |hits| == 1 && count[keys[c]] == 1 {
        requestFor := requestFor[c := hits[0]];
      }
    }
  }

  lemma NamedIs(bodies: seq<Body>, calls: seq<Call>, gapped: set<nat>, named: map<nat, nat>)
    requires NamedFor(bodies, calls, Request, named)
    ensures forall k :: k in named ==> k < |calls| && IsRequest(bodies, calls, gapped, k, named[k])
  {
    hide KeyOf, Unique;
  }

  /** A call's request, when it is not named, is the one hit of its key, when it alone has the key. */
  lemma KeyedIs(bodies: seq<Body>, calls: seq<Call>, gapped: set<nat>, named: map<nat, nat>, byKey: map<Key, seq<nat>>,
                keys: map<nat, Key>, count: map<Key, nat>, c: nat)
    requires c < |calls| && NamedFor(bodies, calls, Request, named) && GroupedByKey(bodies, byKey, |bodies|)
    requires forall c: nat :: c in keys <==> c < |calls| && KeyOf(bodies, calls, gapped, c).Some?
    requires forall c :: c in keys ==> Some(keys[c]) == KeyOf(bodies, calls, gapped, c)
    requires forall key :: (if key in count then count[key] else 0) == CallsWith(bodies, calls, gapped, key, |calls|)
    ensures c in keys ==> keys[c] in count && c !in named
    ensures c in keys ==> forall b :: IsRequest(bodies, calls, gapped, c, b) <==>
              |Hits(byKey, keys[c])| == 1 && count[keys[c]] == 1 && b == Hits(byKey, keys[c])[0]
    ensures c !in keys ==> forall b :: IsRequest(bodies, calls, gapped, c, b) <==> c in named && b == named[c]
  {
    hide KeyOf, Named, CallsWith, GroupedByKey;
    KeyedUnnamed(bodies, calls, gapped, c);
    NamedOnly(bodies, calls, named, c);
    if c in keys {
      var key := keys[c];
      assert HasKey(bodies, calls, gapped, key, c);
      NoneWith(bodies, calls, gapped, key, |calls|);
      OneWith(bodies, calls, gapped, key, c, |calls|);
      OneCarries(bodies, byKey, key);
    }
  }

  lemma NamedOnly(bodies: seq<Body>, calls: seq<Call>, named: map<nat, nat>, c: nat)
    requires c < |calls| && NamedFor(bodies, calls, Request, named)
    ensures forall b :: OnlyNames(bodies, Request, calls[c].msg, b) <==> c in named && b == named[c]
  {
  }

  lemma OneCarries(bodies: seq<Body>, byKey: map<Key, seq<nat>>, key: Key)
    requires GroupedByKey(bodies, byKey, |bodies|)
    ensures forall b :: (Carries(bodies, key, b) && forall j :: Carries(bodies, key, j) ==> j == b) <==>
              |Hits(byKey, key)| == 1 && b == Hits(byKey, key)[0]
  {
    var hits := Hits(byKey, key);
    assert |hits| > 0 ==> Carries(bodies, key, hits[0]);
    assert |hits| > 1 ==> Carries(bodies, key, hits[1]) && hits[0] < hits[1];
    forall b | Carries(bodies, key, b) && forall j :: Carries(bodies, key, j) ==> j == b
      ensures |hits| == 1 && b == hits[0]
    {
      assert b in hits;
    }
    if |hits| == 1 {
      assert Carries(bodies, key, hits[0]);
      forall j | Carries(bodies, key, j) ensures j == hits[0] { assert j in hits; }
    }
  }
}
