/**
 Relations as they are observed, one observation after another: the same edge
 seen twice is one relation, as strong as the strongest that saw it, unless
 sources disagreed once, which nothing seen later can undo.
 */
module Relations {

  datatype Quality = Conflict | ExactUnique | ExactAmbiguous | StrongInference | WeakInference | Unresolved

  /** How much a quality licenses; a conflict is not one to be outranked. */
  function Rank(q: Quality): nat {
    match q
    case ExactUnique => 5
    case ExactAmbiguous => 4
    case StrongInference => 3
    case WeakInference => 2
    case _ => 0
  }

  datatype Ref = Ref(sequence: nat, row: nat)

  /** One sighting of an edge, which its type and ends tell apart. */
  datatype Observation = Observation(edge: nat, quality: Quality, evidence: seq<Ref>)

  datatype Relation = Relation(quality: Quality, evidence: seq<Ref>)

  /** Evidence that is a landed position. */
  function Landed(refs: seq<Ref>): (kept: seq<Ref>)
    ensures forall r :: r in kept <==> r in refs && r.sequence != 0
  {
    if refs == [] then []
    else
      var n := |refs| - 1;
      assert refs == refs[..n] + [refs[n]];
      Landed(refs[..n]) + if refs[n].sequence != 0 then [refs[n]] else []
  }

  /** The sightings of one edge. */
  function Of(obs: seq<Observation>, edge: nat): (own: seq<Observation>)
    ensures forall o :: o in own <==> o in obs && o.edge == edge
  {
    if obs == [] then []
    else
      var n := |obs| - 1;
      assert obs == obs[..n] + [obs[n]];
      Of(obs[..n], edge) + if obs[n].edge == edge then [obs[n]] else []
  }

  /** All the evidence of these sightings, in order. */
  function EvidenceOf(obs: seq<Observation>): seq<Ref> {
    if obs == [] then [] else EvidenceOf(obs[..|obs|-1]) + Landed(obs[|obs|-1].evidence)
  }

  /** A quality these sightings support: a conflict when one of them was, else one of theirs that none outranks. */
  ghost predicate Supported(obs: seq<Observation>, q: Quality) {
    && (q.Conflict? <==> exists o :: o in obs && o.quality.Conflict?)
    && (exists o :: o in obs && o.quality == q)
    && (!q.Conflict? ==> forall o :: o in obs ==> Rank(o.quality) <= Rank(q))
  }

  /**
   What the relations say of what was seen: an edge per edge seen, its quality supported and its
   evidence all kept.
   */
  ghost predicate Says(rels: map<nat, Relation>, obs: seq<Observation>) {
    forall e :: EdgeSays(rels, obs, e)
  }

  ghost predicate EdgeSays(rels: map<nat, Relation>, obs: seq<Observation>, e: nat) {
    && (e in rels <==> Of(obs, e) != [])
    && (e in rels ==> Supported(Of(obs, e), rels[e].quality) && rels[e].evidence == EvidenceOf(Of(obs, e)))
  }

  class Relater {
    var rels: map<nat, Relation>
    ghost var seen: seq<Observation>

    ghost predicate Valid()
      reads this
    {
      Says(rels, seen)
    }

    constructor ()
      ensures Valid() && seen == []
    {
      rels, seen := map[], [];
    }

    /** Records an edge, or confirms one recorded before. */
    method Relate(o: Observation)
      requires Valid()
      modifies this
      ensures Valid() && seen == old(seen) + [o]
      ensures forall e :: e != o.edge ==> (e in rels <==> e in old(rels)) && (e in rels ==> rels[e] == old(rels)[e])
    {
      hide Says, Supported, EvidenceOf, Landed, Rank;
      ghost var before := rels;
      var evidence := Landed(o.evidence);
      if o.edge in rels {
        var prev := rels[o.edge];
        var quality := prev.quality;
        if prev.quality.Conflict? || o.quality.Conflict? {
          quality := Conflict;
        } else if Rank(o.quality) > Rank(prev.quality) {
          quality := o.quality;
        }
        rels := rels[o.edge := Relation(quality, prev.evidence + evidence)];
      } else {
        rels := rels[o.edge := Relation(o.quality, evidence)];
      }
      SaysMore(before, seen, o, rels);
      seen := seen + [o];
    }
  }

  lemma OfMore(obs: seq<Observation>, o: Observation, e: nat)
    ensures Of(obs + [o], e) == if o.edge == e then Of(obs, e) + [o] else Of(obs, e)
  {
    assert (obs + [o])[..|obs|] == obs;
  }

  lemma SaysMore(before: map<nat, Relation>, obs: seq<Observation>, o: Observation, now: map<nat, Relation>)
    requires Says(before, obs) && now.Keys == before.Keys + {o.edge} && forall e :: e in before && e != o.edge ==>
               now[e] == before[e]
    requires now[o.edge].evidence == (if o.edge in before then before[o.edge].evidence else []) + Landed(o.evidence)
    requires o.edge !in before ==> now[o.edge].quality == o.quality
    requires o.edge in before ==> now[o.edge].quality == Merged(before[o.edge].quality, o.quality)
    ensures Says(now, obs + [o])
  {
    hide EdgeSays, Merged, Landed;
    forall e ensures EdgeSays(now, obs + [o], e) {
      assert EdgeSays(before, obs, e);
      EdgeSaysMore(before, obs, o, now, e);
    }
  }

  lemma EdgeSaysMore(before: map<nat, Relation>, obs: seq<Observation>, o: Observation, now: map<nat, Relation>, e: nat)
    requires EdgeSays(before, obs, e) && now.Keys == before.Keys + {o.edge}
    requires (e in before && e != o.edge ==> now[e] == before[e])
    requires now[o.edge].evidence == (if o.edge in before then before[o.edge].evidence else []) + Landed(o.evidence)
    requires o.edge !in before ==> now[o.edge].quality == o.quality
    requires o.edge in before ==> now[o.edge].quality == Merged(before[o.edge].quality, o.quality)
    ensures EdgeSays(now, obs + [o], e)
  {
    hide Supported, EvidenceOf, Landed, Merged, Of;
    OfMore(obs, o, e);
    if e == o.edge {
      var own := Of(obs, e);
      SupportedMore(own, o, if e in before then before[e].quality else o.quality);
      EvidenceMore(own, o);
    }
  }

  /** What two qualities of one edge come to. */
  function Merged(p: Quality, q: Quality): Quality {
    if p.Conflict? || q.Conflict? then Conflict else if Rank(q) > Rank(p) then q else p
  }

  lemma SupportedMore(obs: seq<Observation>, o: Observation, q: Quality)
    ensures obs != [] && Supported(obs, q) ==> Supported(obs + [o], Merged(q, o.quality))
    ensures obs == [] ==> Supported(obs + [o], o.quality)
  {
    var more := obs + [o];
    assert o in more && forall p :: p in obs ==> p in more;
    assert forall p :: p in more ==> p in obs || p == o;
  }

  lemma EvidenceMore(obs: seq<Observation>, o: Observation)
    ensures EvidenceOf(obs + [o]) == EvidenceOf(obs) + Landed(o.evidence)
    ensures EvidenceOf([]) == []
  {
    assert (obs + [o])[..|obs|] == obs;
  }

  ghost predicate Sighted(obs: seq<Observation>, q: Quality) {
    exists o :: o in obs && o.quality == q
  }

  /** What sightings come to is said by which qualities were sighted. */
  lemma SupportedIs(obs: seq<Observation>, q: Quality)
    requires Supported(obs, q)
    ensures Sighted(obs, q) && (q.Conflict? <==> Sighted(obs, Conflict))
    ensures forall r :: !q.Conflict? && Sighted(obs, r) ==> Rank(r) <= Rank(q)
  {
  }

  /** In whatever order an edge is sighted, it comes to one quality. */
  lemma OrderFree(a: seq<Observation>, b: seq<Observation>, p: Quality, q: Quality)
    requires multiset(a) == multiset(b) && Supported(a, p) && Supported(b, q)
    ensures p == q
  {
    hide Supported, Sighted;
    SupportedIs(a, p);
    SupportedIs(b, q);
    forall r ensures Sighted(a, r) <==> Sighted(b, r) { SameSighted(a, b, r); }
  }

  lemma SameSighted(a: seq<Observation>, b: seq<Observation>, q: Quality)
    requires multiset(a) == multiset(b)
    ensures Sighted(a, q) <==> Sighted(b, q)
  {
    forall o: Observation ensures o in a <==> o in b { assert o in multiset(a) <==> o in multiset(b); }
  }

  /** A conflict, once seen, stays. */
  lemma ConflictStays(obs: seq<Observation>, more: seq<Observation>, p: Quality, q: Quality)
    requires Supported(obs, p) && p.Conflict? && Supported(obs + more, q)
    ensures q.Conflict?
  {
    var x :| x in obs && x.quality.Conflict?;
    assert x in obs + more;
  }

  /**
   The strongest quality seen stands: certain before ambiguous before inferred, and unresolved only
   where nothing else was seen.
   */
  lemma StrongestStands(obs: seq<Observation>, q: Quality)
    requires Supported(obs, q)
    ensures Seen(obs, Conflict) ==> q == Conflict
    ensures !Seen(obs, Conflict) && Seen(obs, ExactUnique) ==> q == ExactUnique
    ensures !Seen(obs, Conflict) && !Seen(obs, ExactUnique) && Seen(obs, ExactAmbiguous) ==> q == ExactAmbiguous
    ensures q == StrongInference ==> !Seen(obs, ExactAmbiguous)
    ensures !Seen(obs, Conflict) && Seen(obs, StrongInference) ==> q in {ExactUnique, ExactAmbiguous, StrongInference}
    ensures q == WeakInference ==> !Seen(obs, StrongInference)
    ensures q == Unresolved ==> forall o :: o in obs ==> o.quality == Unresolved
  {
  }

  ghost predicate Seen(obs: seq<Observation>, q: Quality) {
    exists o :: o in obs && o.quality == q
  }
}
