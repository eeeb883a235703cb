/**
 Which call a child stream's work went back to. The way back is taken only when
 it is exact: one call started the stream directly, and its own one result came.
 */
module Spawns {

  datatype Option<T> = None | Some(value: T)

  /** Evidence that a stream was started: by a tool use, in a batch, or by an agent; 0 where it does not say. */
  datatype Edge = Edge(tool: nat, batch: nat, parent: nat, stream: nat)

  /**
   A tool use as it was joined: the stream that made it, and whether its result is one, its own, and no
   acknowledgement.
   */
  datatype Use = Use(made: bool, stream: nat, answered: bool, ambiguous: bool, acknowledged: bool, written: bool)

  predicate Links(e: Edge) {
    e.stream != 0 && (e.tool != 0 || e.batch != 0 || e.parent != 0)
  }

  /** Keeps each usable edge once, as it is first met. */
  method KeepEdges(found: seq<Edge>) returns (edges: seq<Edge>)
    ensures forall e :: e in edges <==> e in found && e.stream != 0 && (e.tool != 0 || e.batch != 0 || e.parent != 0)
    ensures forall j, k :: 0 <= j < k < |edges| ==> edges[j] != edges[k]
  {
    edges := [];
    var seen: set<Edge> := {};
    for i := 0 to |found|
      invariant forall e :: e in seen <==> e in edges
      invariant forall e :: e in edges <==> e in found[..i] && Links(e)
      invariant forall j, k :: 0 <= j < k < |edges| ==> edges[j] != edges[k]
    {
      var e := found[i];
      assert found[..i+1] == found[..i] + [e];
      if !Links(e) || e in seen { continue; }
      seen, edges := seen + {e}, edges + [e];
    }
    assert found[..|found|] == found;
  }

  /** What becomes of the edges: those resolved, and per child the agents its sidecar names. */
  datatype Resolved = Resolved(edges: seq<Edge>, startedBy: map<nat, seq<nat>>)

  predicate Resolves(e: Edge, landed: set<nat>, known: set<nat>) {
    e.stream in landed && if e.tool == 0 then e.parent != 0 && e.parent in landed else e.tool in known
  }

  /**
   An edge of a stream that landed, that names a call that is known, or names none and an agent whose
   stream landed.
   */
  predicate Joins(e: Edge, landed: set<nat>, known: set<nat>) {
    && e.stream in landed
    && (e.tool != 0 ==> e.tool in known)
    && (e.tool == 0 ==> e.parent != 0 && e.parent in landed)
  }

  /** Joins the edges of streams that landed to calls, or to the agents that started them. */
  method ResolveEdges(edges: seq<Edge>, landed: set<nat>, known: set<nat>) returns (r: Resolved, spawned: set<nat>)
    ensures forall e :: e in r.edges <==> e in edges && Joins(e, landed, known)
    ensures forall s, p :: NamedStarter(r.startedBy, s, p) <==> NamesStarter(edges, landed, s, p)
    ensures forall s :: s in spawned <==> exists e :: e in edges && e.stream == s && Joins(e, landed, known)
  {
    var kept: seq<Edge> := [];
    var startedBy: map<nat, seq<nat>> := map[];
    spawned := {};
    for i := 0 to |edges|
      invariant forall e :: e in kept <==> e in edges[..i] && Joins(e, landed, known)
      invariant forall s, p :: NamedStarter(startedBy, s, p) <==> NamesStarter(edges[..i], landed, s, p)
      invariant forall s :: s in spawned <==> exists e :: e in kept && e.stream == s
    {
      hide NamesStarter, NamedStarter;
      var e := edges[i];
      assert edges[..i+1] == edges[..i] + [e];
      NamesMore(edges[..i], e, landed);
      if e.stream !in landed { continue; }
      if e.parent != 0 {
        StarterNamed(startedBy, e.stream, e.parent);
        startedBy := startedBy[e.stream := (if e.stream in startedBy then startedBy[e.stream] else []) + [e.parent]];
      }
      if !Resolves(e, landed, known) { continue; }
      assert forall x :: x in kept + [e] <==> x in kept || x == e;
      kept, spawned := kept + [e], spawned + {e.stream};
    }
    assert edges[..|edges|] == edges;
    r := Resolved(kept, startedBy);
  }

  /** An edge to a stream that landed names the agent that started it. */
  ghost predicate NamesStarter(edges: seq<Edge>, landed: set<nat>, s: nat, p: nat) {
    p != 0 && exists e :: e in edges && e.stream == s && e.stream in landed && e.parent == p
  }

  lemma NamesMore(edges: seq<Edge>, e: Edge, landed: set<nat>)
    ensures var more := edges + [e];
      forall s, p :: NamesStarter(more, landed, s, p) <==>
        NamesStarter(edges, landed, s, p) || (p != 0 && e.stream == s && e.stream in landed && e.parent == p)
  {
    var more := edges + [e];
    assert e in more && forall x :: x in edges ==> x in more;
    assert forall x :: x in more ==> x in edges || x == e;
  }

  ghost predicate NamedStarter(startedBy: map<nat, seq<nat>>, s: nat, p: nat) {
    s in startedBy && p in startedBy[s]
  }

  lemma StarterNamed(startedBy: map<nat, seq<nat>>, s: nat, p: nat)
    ensures var more := startedBy[s := (if s in startedBy then startedBy[s] else []) + [p]];
      forall t, q :: NamedStarter(more, t, q) <==> NamedStarter(startedBy, t, q) || (t == s && q == p)
  {
    var was := if s in startedBy then startedBy[s] else [];
    var more := startedBy[s := was + [p]];
    forall t, q ensures NamedStarter(more, t, q) <==> NamedStarter(startedBy, t, q) || (t == s && q == p) {
      assert q in was + [p] <==> q in was || q == p;
      assert t == s ==> more[t] == was + [p];
    }
  }

  /** An edge that says which call, or which batch, started this stream. */
  predicate Claims(e: Edge, s: nat) {
    e.stream == s && (e.tool != 0 || e.batch != 0)
  }

  /** The one call every edge that claims the stream names, in no batch. */
  predicate SoleCall(edges: seq<Edge>, s: nat, tool: nat) {
    (exists e :: e in edges && Claims(e, s)) && forall e :: e in edges && Claims(e, s) ==>
      e.tool == tool && e.batch == 0
  }

  /**
   The exact way back: the sole call, its own one result that is no acknowledgement, and nobody who says
   otherwise.
   */
  predicate WayBack(edges: seq<Edge>, startedBy: seq<nat>, reported: bool, uses: map<nat, Use>, s: nat, tool: nat) {
    && SoleCall(edges, s, tool) && !reported
    && tool in uses && uses[tool].made && uses[tool].answered && !uses[tool].ambiguous && !uses[tool].acknowledged
      && uses[tool].written
    && forall p :: p in startedBy ==> p == uses[tool].stream
  }

  /** The call a stream's work went back to, when there is exactly that way back. */
  method ReturnedTo(edges: seq<Edge>, startedBy: seq<nat>, reported: bool, uses: map<nat, Use>, s: nat)
    returns (call: Option<nat>)
    ensures call.Some? ==> WayBack(edges, startedBy, reported, uses, s, call.value)
    ensures call.None? ==> forall tool :: !WayBack(edges, startedBy, reported, uses, s, tool)
  {
    var found: Option<Edge> := None;
    for i := 0 to |edges|
      invariant found.None? ==> forall e :: e in edges[..i] ==> !Claims(e, s)
      invariant found.Some? ==> found.value in edges[..i] && Claims(found.value, s)
      invariant found.Some? ==> forall e :: e in edges[..i] && Claims(e, s) ==>
                  e.tool == found.value.tool && e.batch == found.value.batch
    {
      var e := edges[i];
      assert edges[..i+1] == edges[..i] + [e];
      if e.stream != s || (e.tool == 0 && e.batch == 0) { continue; }
      if found.Some? && (found.value.tool != e.tool || found.value.batch != e.batch) {
        assert e in edges && found.value in edges;
        return None;
      }
      if found.None? { found := Some(e); }
    }
    assert edges[..|edges|] == edges;
    if found.None? || found.value.batch != 0 || reported { return None; }
    var tool := found.value.tool;
    if tool !in uses || !uses[tool].made || !uses[tool].answered || uses[tool].ambiguous || uses[tool].acknowledged {
      return None;
    }
    for i := 0 to |startedBy|
      invariant forall p :: p in startedBy[..i] ==> p == uses[tool].stream
    {
      assert startedBy[..i+1] == startedBy[..i] + [startedBy[i]];
      if startedBy[i] != uses[tool].stream { assert startedBy[i] in startedBy; return None; }
    }
    assert startedBy[..|startedBy|] == startedBy;
    if !uses[tool].written { return None; }
    call := Some(tool);
  }

  /** A stream went back to one call at most. */
  lemma OneWayBack(edges: seq<Edge>, startedBy: seq<nat>, reported: bool, uses: map<nat, Use>, s: nat, t: nat, u: nat)
    requires WayBack(edges, startedBy, reported, uses, s, t) && WayBack(edges, startedBy, reported, uses, s, u)
    ensures t == u
  {
    var e :| e in edges && Claims(e, s);
  }

  /** More edges, and whatever else is then known, can take a way back away, but not turn it to another call. */
  lemma EvidenceNeverTurns(edges: seq<Edge>, startedBy: seq<nat>, reported: bool, uses: map<nat, Use>, t: nat,
                           more: seq<Edge>, startedBy': seq<nat>, reported': bool, uses': map<nat, Use>, u: nat, s: nat)
    requires WayBack(edges, startedBy, reported, uses, s, t)
    requires WayBack(edges + more, startedBy', reported', uses', s, u)
    ensures t == u
  {
    var e :| e in edges && Claims(e, s);
    assert e in edges + more;
  }
}
