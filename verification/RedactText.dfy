/**
 Replacing what was found: stretches that overlap are merged, each merged one is replaced, and every
 other byte is kept.
 */
module RedactText {
  import opened JsonGrammar
  import opened RedactViews
  import opened Redact
  import opened StableSort

  const DEPTH := 4

  /** "[redacted]" */
  const REDACTED: Bytes := [0x5B, 0x72, 0x65, 0x64, 0x61, 0x63, 0x74, 0x65, 0x64, 0x5D]

  // ---------------------------------------------------------------------
  // Merging.
  // ---------------------------------------------------------------------

  function Start(): Span -> int {
    (sp: Span) => sp.from as int
  }

  /** One more span: joined to the last when it begins inside it. */
  function With(m: seq<Span>, sp: Span): (r: seq<Span>)
    ensures r != [] && |r| <= |m| + 1
  {
    if m != [] && sp.from < m[|m|-1].until
    then m[..|m|-1] + [Span(m[|m|-1].from, if m[|m|-1].until > sp.until then m[|m|-1].until else sp.until)]
    else m + [sp]
  }

  /** Spans in order of where they begin, with those that overlap joined. */
  function Merged(ss: seq<Span>): (m: seq<Span>)
    ensures (m == [] <==> ss == []) && |m| <= |ss|
  {
    if ss == [] then [] else With(Merged(ss[..|ss|-1]), ss[|ss|-1])
  }

  predicate Inside(a: Span, b: Span) {
    b.from <= a.from && a.until <= b.until
  }

  predicate InSome(x: int, ss: seq<Span>) {
    exists k :: 0 <= k < |ss| && ss[k].from <= x < ss[k].until
  }

  /** One after another, none empty, all within the text. */
  predicate Apart(m: seq<Span>, n: nat) {
    AllWithin(m, n) && forall k :: 0 < k < |m| ==> m[k-1].until <= m[k].from
  }

  predicate InsideSome(sp: Span, m: seq<Span>) {
    exists j :: 0 <= j < |m| && Inside(sp, m[j])
  }

  lemma InsideGrows(sp: Span, m: seq<Span>, last: Span)
    requires m != [] && Inside(m[|m|-1], last)
    ensures InsideSome(sp, m) ==> InsideSome(sp, m[..|m|-1] + [last])
  {
    if InsideSome(sp, m) {
      var j :| 0 <= j < |m| && Inside(sp, m[j]);
      var after := m[..|m|-1] + [last];
      assert j < |m| - 1 ==> after[j] == m[j];
      assert after[|m|-1] == last;
      assert Inside(sp, after[j]);
    }
  }

  lemma InsideStays(sp: Span, m: seq<Span>, x: Span)
    ensures InsideSome(sp, m) ==> InsideSome(sp, m + [x])
    ensures InsideSome(x, m + [x])
  {
    if InsideSome(sp, m) {
      var j :| 0 <= j < |m| && Inside(sp, m[j]);
      assert (m + [x])[j] == m[j];
    }
    assert (m + [x])[|m|] == x;
  }

  lemma InSomeOfBoth(x: int, ss: seq<Span>, sp: Span)
    ensures InSome(x, ss + [sp]) <==> InSome(x, ss) || sp.from <= x < sp.until
  {
    if InSome(x, ss) {
      var k :| 0 <= k < |ss| && ss[k].from <= x < ss[k].until;
      assert (ss + [sp])[k] == ss[k];
    }
    assert (ss + [sp])[|ss|] == sp;
  }

  /** These lie apart, and take in exactly what the spans took in, each span whole. */
  ghost predicate MergeOf(ss: seq<Span>, m: seq<Span>, n: nat) {
    && Apart(m, n) && (m == [] <==> ss == [])
    && (forall k :: 0 <= k < |ss| ==> InsideSome(ss[k], m))
    && (forall x :: InSome(x, m) <==> InSome(x, ss))
    && (ss != [] ==> m[|m|-1].from <= ss[|ss|-1].from)
  }

  /** Merged spans lie apart, and take in exactly what the spans took in, each span whole. */
  lemma {:induction false} MergedIs(ss: seq<Span>, n: nat)
    requires AllWithin(ss, n) && InOrder(ss, Start())
    ensures MergeOf(ss, Merged(ss), n)
  {
    hide MergeOf, With;
    if ss == [] {
      NothingMerged(n);
    } else {
      var k := |ss| - 1;
      MergedIs(ss[..k], n);
      assert ss == ss[..k] + [ss[k]];
      assert k > 0 ==> Start()(ss[k-1]) <= Start()(ss[k]);
      MergedMore(ss[..k], ss[k], Merged(ss[..k]), n);
    }
  }

  lemma NothingMerged(n: nat)
    ensures MergeOf([], [], n)
  {
  }

  lemma {:induction false} MergedMore(before: seq<Span>, sp: Span, m: seq<Span>, n: nat)
    requires MergeOf(before, m, n) && sp.from < sp.until <= n && (before != [] ==> before[|before|-1].from <= sp.from)
    ensures MergeOf(before + [sp], With(m, sp), n)
  {
    hide InSome, InsideSome, Inside, With;
    WithIs(m, sp);
    if m != [] && sp.from < m[|m|-1].until {
      MergedJoins(before, sp, m, n);
    } else {
      MergedAdds(before, sp, m, n);
    }
  }

  lemma WithIs(m: seq<Span>, sp: Span)
    ensures m != [] && sp.from < m[|m|-1].until ==>
              With(m, sp) ==
              m[..|m|-1] + [Span(m[|m|-1].from, if m[|m|-1].until > sp.until then m[|m|-1].until else sp.until)]
    ensures !(m != [] && sp.from < m[|m|-1].until) ==> With(m, sp) == m + [sp]
  {
  }

  lemma MergedAdds(before: seq<Span>, sp: Span, m: seq<Span>, n: nat)
    requires Apart(m, n) && sp.from < sp.until <= n && (m != [] ==> m[|m|-1].until <= sp.from)
    requires forall k :: 0 <= k < |before| ==> InsideSome(before[k], m)
    requires forall x :: InSome(x, m) <==> InSome(x, before)
    ensures Apart(m + [sp], n)
    ensures forall k :: 0 <= k < |before + [sp]| ==> InsideSome((before + [sp])[k], m + [sp])
    ensures forall x :: InSome(x, m + [sp]) <==> InSome(x, before + [sp])
  {
    hide InSome, InsideSome, Inside;
    forall k | 0 <= k < |before + [sp]| ensures InsideSome((before + [sp])[k], m + [sp]) {
      InsideStays(if k < |before| then before[k] else sp, m, sp);
    }
    forall x ensures InSome(x, m + [sp]) <==> InSome(x, before + [sp]) {
      InSomeOfBoth(x, m, sp);
      InSomeOfBoth(x, before, sp);
    }
  }

  lemma MergedJoins(before: seq<Span>, sp: Span, m: seq<Span>, n: nat)
    requires Apart(m, n) && sp.from < sp.until <= n && m != [] && m[|m|-1].from <= sp.from < m[|m|-1].until
    requires forall k :: 0 <= k < |before| ==> InsideSome(before[k], m)
    requires forall x :: InSome(x, m) <==> InSome(x, before)
    ensures var last := Span(m[|m|-1].from, if m[|m|-1].until > sp.until then m[|m|-1].until else sp.until);
            && Apart(m[..|m|-1] + [last], n)
            && (forall k :: 0 <= k < |before + [sp]| ==> InsideSome((before + [sp])[k], m[..|m|-1] + [last]))
            && (forall x :: InSome(x, m[..|m|-1] + [last]) <==> InSome(x, before + [sp]))
  {
    hide InSome, InsideSome;
    var was := m[|m|-1];
    var last := Span(was.from, if was.until > sp.until then was.until else sp.until);
    var first := m[..|m|-1];
    assert m == first + [was];
    InsideStays(last, first, last);
    forall k | 0 <= k < |before + [sp]| ensures InsideSome((before + [sp])[k], first + [last]) {
      if k < |before| { InsideGrows(before[k], m, last); } else { InsideLast(sp, first, last); }
    }
    forall x ensures InSome(x, first + [last]) <==> InSome(x, before + [sp]) {
      InSomeOfBoth(x, first, last);
      InSomeOfBoth(x, first, was);
      InSomeOfBoth(x, before, sp);
    }
  }

  lemma InsideLast(sp: Span, first: seq<Span>, last: Span)
    requires Inside(sp, last)
    ensures InsideSome(sp, first + [last])
  {
    assert (first + [last])[|first|] == last;
  }

  // ---------------------------------------------------------------------
  // Replacing.
  // ---------------------------------------------------------------------

  /** Where the first quote stands; all of it when there is none. */
  function FirstQuote(s: Bytes): (q: nat)
    ensures q <= |s| && (q < |s| ==> s[q] == QUOTE) && forall k :: 0 <= k < q ==> s[k] != QUOTE
  {
    if s == [] || s[0] == QUOTE then 0 else 1 + FirstQuote(s[1..])
  }

  /** A stretch is a literal in quotes escaped alike at both ends. */
  predicate Quotes(s: Bytes, q: nat) {
    && q < |s| && s[q] == QUOTE && (forall k :: 0 <= k < q ==> s[k] == BACKSLASH)
    && |s| >= 2 * (q + 1) && s[|s| - q - 1..] == s[..q+1]
  }

  /**
   The text put in place of a stretch: the mark alone, or between the quotes of a stretch that is one
   whole literal.
   */
  function Replacement(s: Bytes): Bytes {
    var q := FirstQuote(s);
    if Quotes(s, q) then s[..q+1] + REDACTED + s[..q+1] else REDACTED
  }

  /** A quote as it stands under some levels of escapes: backslashes, then the quote. */
  predicate IsQuote(e: Bytes) {
    e != [] && e[|e|-1] == QUOTE && forall k :: 0 <= k < |e| - 1 ==> e[k] == BACKSLASH
  }

  /** A whole literal: the same escaped quote at both ends, apart. */
  predicate Literal(s: Bytes, e: Bytes) {
    IsQuote(e) && |s| >= 2 * |e| && s[..|e|] == e && s[|s|-|e|..] == e
  }

  /** A literal is put as its own two quotes with the mark between them, and any other stretch as the mark alone. */
  lemma ReplacementIs(s: Bytes)
    ensures forall e :: Literal(s, e) ==> Replacement(s) == e + REDACTED + e
    ensures (forall e :: !Literal(s, e)) ==> Replacement(s) == REDACTED
  {
    var q := FirstQuote(s);
    if Quotes(s, q) {
      assert Literal(s, s[..q+1]);
    }
    forall e | Literal(s, e) ensures Replacement(s) == e + REDACTED + e {
      assert forall k :: 0 <= k < |e| ==> s[k] == s[..|e|][k] == e[k];
      assert q == |e| - 1 && s[..q+1] == e;
    }
  }

  /** No byte of the secret is one a replacement has: a quote, a backslash or a byte of the mark. */
  predicate Foreign(sec: Bytes) {
    sec != [] && forall k :: 0 <= k < |sec| ==> sec[k] != QUOTE && sec[k] != BACKSLASH && sec[k] !in REDACTED
  }

  lemma ReplacementBytes(s: Bytes)
    ensures Replacement(s) != [] && forall b :: b in Replacement(s) ==> b == QUOTE || b == BACKSLASH || b in REDACTED
  {
    if e :| Literal(s, e) {
      ReplacementIs(s);
      assert forall b :: b in e ==> b == QUOTE || b == BACKSLASH;
    } else {
      ReplacementIs(s);
    }
  }

  /** The pieces of a text from at on: what is kept before each span, and what stands for the span. */
  function Rebuilt(s: Bytes, m: seq<Span>, reps: seq<Bytes>, at: nat): Bytes
    requires Apart(m, |s|) && |reps| == |m| && at <= |s| && (m != [] ==> at <= m[0].from)
    decreases |m|
  {
    if m == [] then s[at..]
    else
      assert Apart(m[1..], |s|) by { ApartTail(m, |s|); }
      s[at..m[0].from] + reps[0] + Rebuilt(s, m[1..], reps[1..], m[0].until)
  }

  lemma ApartTail(m: seq<Span>, n: nat)
    requires Apart(m, n) && m != []
    ensures Apart(m[1..], n) && (m[1..] != [] ==> m[0].until <= m[1..][0].from)
  {
    forall k | 0 < k < |m[1..]| ensures m[1..][k-1].until <= m[1..][k].from {
      assert m[k].until <= m[k+1].from;
    }
  }

  function Stretches(s: Bytes, m: seq<Span>): (r: seq<Bytes>)
    requires AllWithin(m, |s|)
    ensures |r| == |m| && forall k :: 0 <= k < |m| ==> r[k] == s[m[k].from..m[k].until]
  {
    seq(|m|, k requires 0 <= k < |m| => s[m[k].from..m[k].until])
  }

  function Replacements(s: Bytes, m: seq<Span>): (r: seq<Bytes>)
    requires AllWithin(m, |s|)
    ensures |r| == |m| && forall k :: 0 <= k < |m| ==> r[k] == Replacement(s[m[k].from..m[k].until])
  {
    seq(|m|, k requires 0 <= k < |m| => Replacement(s[m[k].from..m[k].until]))
  }

  /** Putting back what stood there gives the text again: every other byte is kept, in order. */
  lemma {:induction false} PutBack(s: Bytes, m: seq<Span>, at: nat)
    requires Apart(m, |s|) && at <= |s| && (m != [] ==> at <= m[0].from)
    ensures Rebuilt(s, m, Stretches(s, m), at) == s[at..]
    decreases |m|
  {
    if m != [] {
      ApartTail(m, |s|);
      PutBack(s, m[1..], m[0].until);
      assert Stretches(s, m)[1..] == Stretches(s, m[1..]);
      assert s[at..] == s[at..m[0].from] + s[m[0].from..m[0].until] + s[m[0].until..];
    }
  }

  /** The text with what was found taken out of it. */
  function Redacted(dec: Decoder, secrets: seq<Bytes>, s: Bytes): Bytes
    requires NoEmpty(secrets)
  {
    var m := Taken(dec, secrets, s);
    TakenApart(dec, secrets, s);
    Rebuilt(s, m, Replacements(s, m), 0)
  }

  /** The merged stretches that are replaced. */
  function Taken(dec: Decoder, secrets: seq<Bytes>, s: Bytes): seq<Span>
    requires NoEmpty(secrets)
  {
    Merged(Sorted(FoundFrom(dec, secrets, ViewOf(s), DEPTH), Start()))
  }

  lemma {:induction false} TakenApart(dec: Decoder, secrets: seq<Bytes>, s: Bytes)
    requires NoEmpty(secrets)
    ensures Apart(Taken(dec, secrets, s), |s|)
    ensures forall sp :: sp in FoundFrom(dec, secrets, ViewOf(s), DEPTH) ==> InsideSome(sp, Taken(dec, secrets, s))
  {
    hide FoundFrom, ViewOf, Merged, Sorted, InsideSome;
    var found := FoundFrom(dec, secrets, ViewOf(s), DEPTH);
    var sorted := Sorted(found, Start());
    ViewOfTiles(s);
    FoundInText(dec, secrets, ViewOf(s), |s|, DEPTH);
    forall k | 0 <= k < |sorted| ensures sorted[k].from < sorted[k].until <= |s| {
      assert sorted[k] in multiset(sorted);
      assert sorted[k] in found;
    }
    MergedIs(sorted, |s|);
    forall sp | sp in found ensures InsideSome(sp, Merged(sorted)) {
      assert sp in multiset(found);
      assert sp in sorted;
    }
  }

  /**
   Every occurrence of a secret, in the text or in any view of it with up to DEPTH
   levels of escapes decoded, came from a stretch that shares a byte's whole source
   with a replaced one.
   */
  lemma {:induction false} OccurrencesTaken(dec: Decoder, secrets: seq<Bytes>, s: Bytes, level: nat, sec: Bytes, p: nat)
    requires NoEmpty(secrets) && level <= DEPTH && sec in secrets && Occurs(ViewAt(s, level).text, sec, p)
    ensures OccurrenceIn(Taken(dec, secrets, s), ViewAt(s, level), sec, p)
  {
    hide FoundFrom, Merged, Sorted, Occurs, Taken, Levels, ViewOf;
    ViewOfTiles(s);
    OccurrencesFound(dec, secrets, ViewOf(s), |s|, DEPTH, level, sec, p);
    TakenApart(dec, secrets, s);
    var found, m := FoundFrom(dec, secrets, ViewOf(s), DEPTH), Taken(dec, secrets, s);
    var k :| 0 <= k < |found| && exists x: nat :: p <= x < p + |sec| && TakesIn(found[k], ViewAt(s, level), x);
    var x: nat :| p <= x < p + |sec| && TakesIn(found[k], ViewAt(s, level), x);
    assert found[k] in found;
    var j :| 0 <= j < |m| && Inside(found[k], m[j]);
    assert TakesIn(m[j], ViewAt(s, level), x);
  }

  /** A literal, of any view below DEPTH, that holds a secret within the levels left is replaced whole. */
  lemma {:induction false} LiteralsTaken(dec: Decoder, secrets: seq<Bytes>, s: Bytes, level: nat, l: Quoted)
    requires NoEmpty(secrets) && level < DEPTH && l in LiteralsFrom(dec, ViewAt(s, level).text, 0)
    requires Holds(dec, secrets, ViewOf(l.decoded), DEPTH - level - 1)
    ensures l.from < l.last < |ViewAt(s, level).text|
    ensures InsideSome(Span(ViewAt(s, level).from[l.from], ViewAt(s, level).until[l.last]), Taken(dec, secrets, s))
  {
    hide FoundFrom, Merged, Sorted, Taken, Holds, LiteralsFrom, InsideSome, Levels;
    ViewOfTiles(s);
    ViewOfTiles(l.decoded);
    FoundIffHolds(dec, secrets, ViewOf(l.decoded), |l.decoded|, DEPTH - level - 1);
    LiteralsFound(dec, secrets, ViewOf(s), |s|, DEPTH, level, l);
    TakenApart(dec, secrets, s);
  }

  /**
   Something is taken out exactly where a secret is held, within DEPTH levels; a text that holds none is
   left as it is.
   */
  lemma {:induction false} CleanStays(dec: Decoder, secrets: seq<Bytes>, s: Bytes)
    requires NoEmpty(secrets)
    ensures Taken(dec, secrets, s) == [] <==> !Holds(dec, secrets, ViewOf(s), DEPTH)
    ensures !Holds(dec, secrets, ViewOf(s), DEPTH) ==> Redacted(dec, secrets, s) == s
  {
    hide FoundFrom, Holds;
    ViewOfTiles(s);
    FoundIffHolds(dec, secrets, ViewOf(s), |s|, DEPTH);
    if FoundFrom(dec, secrets, ViewOf(s), DEPTH) == [] {
      assert Sorted(FoundFrom(dec, secrets, ViewOf(s), DEPTH), Start()) == [];
      assert s[0..] == s;
    } else {
      assert |Sorted(FoundFrom(dec, secrets, ViewOf(s), DEPTH), Start())| > 0;
    }
  }

  /** A text that has the mark nowhere in it is changed exactly when it holds a secret. */
  lemma {:induction false} ChangedIffHeld(dec: Decoder, secrets: seq<Bytes>, s: Bytes)
    requires NoEmpty(secrets) && forall p: nat :: !Occurs(s, REDACTED, p)
    ensures Redacted(dec, secrets, s) != s <==> Holds(dec, secrets, ViewOf(s), DEPTH)
  {
    hide Holds, FoundFrom, Merged, Sorted, FirstQuote, Quotes, Occurs;
    CleanStays(dec, secrets, s);
    var m := Taken(dec, secrets, s);
    TakenApart(dec, secrets, s);
    if m != [] {
      var reps := Replacements(s, m);
      var x := s[m[0].from..m[0].until];
      MarkIn(x);
      var q: nat :| Occurs(Replacement(x), REDACTED, q);
      ApartTail(m, |s|);
      var rest := Rebuilt(s, m[1..], reps[1..], m[0].until);
      assert Redacted(dec, secrets, s) == s[0..m[0].from] + Replacement(x) + rest;
      OccursWithin(s[0..m[0].from], Replacement(x), rest, REDACTED, q);
    }
  }

  /**
   What stands in a rebuilt text, and shares no byte with what was put there, stands in the text outside
   every stretch.
   */
  lemma {:induction false} OccursOutside(s: Bytes, m: seq<Span>, reps: seq<Bytes>, at: nat, sec: Bytes, p: nat)
    returns (q: nat)
    requires Apart(m, |s|) && |reps| == |m| && at <= |s| && (m != [] ==> at <= m[0].from) && sec != []
    requires forall k :: 0 <= k < |reps| ==> reps[k] != [] && forall b :: b in sec ==> b !in reps[k]
    requires Occurs(Rebuilt(s, m, reps, at), sec, p)
    ensures at <= q && Occurs(s, sec, q)
    ensures forall k :: 0 <= k < |m| ==> q + |sec| <= m[k].from || m[k].until <= q
    decreases |m|
  {
    if m == [] {
      q := at + p;
      assert s[at..][p..p + |sec|] == s[q..q + |sec|];
      return;
    }
    ApartTail(m, |s|);
    var a, b, c := s[at..m[0].from], reps[0], Rebuilt(s, m[1..], reps[1..], m[0].until);
    var out := a + b + c;
    assert Rebuilt(s, m, reps, at) == out;
    NoStraddle(a, b, c, sec, p);
    if p + |sec| <= |a| {
      q := at + p;
      assert s[q..q + |sec|] == out[p..p + |sec|];
      FirstIsFirst(m, |s|);
    } else {
      var r: nat := p - |a| - |b|;
      assert c[r..r + |sec|] == out[p..p + |sec|];
      q := OccursOutside(s, m[1..], reps[1..], m[0].until, sec, r);
      assert forall k :: 0 < k < |m| ==> m[k] == m[1..][k-1];
    }
  }

  /** What shares no byte with a piece does not reach into it. */
  lemma NoStraddle(a: Bytes, b: Bytes, c: Bytes, sec: Bytes, p: nat)
    requires Occurs(a + b + c, sec, p) && sec != [] && b != [] && forall x :: x in sec ==> x !in b
    ensures p + |sec| <= |a| || p >= |a| + |b|
  {
    if p + |sec| > |a| && p < |a| + |b| { Shared(a, b, c, sec, p); }
  }

  lemma Shared(a: Bytes, b: Bytes, c: Bytes, sec: Bytes, p: nat)
    requires Occurs(a + b + c, sec, p) && sec != [] && b != [] && p + |sec| > |a| && p < |a| + |b|
    ensures exists x :: x in sec && x in b
  {
    var x := if p >= |a| then p else |a|;
    assert (a + b + c)[p..p + |sec|][x - p] == (a + b + c)[x] == b[x - |a|];
    assert sec[x - p] in sec && b[x - |a|] in b;
  }

  lemma {:induction false} FirstIsFirst(m: seq<Span>, n: nat)
    requires Apart(m, n) && m != []
    ensures forall k :: 0 <= k < |m| ==> m[0].from <= m[k].from
  {
    if |m| > 1 {
      ApartTail(m, n);
      FirstIsFirst(m[1..], n);
      assert forall k :: 0 < k < |m| ==> m[k] == m[1..][k-1];
    }
  }

  /** A secret with no byte in common with quotes, backslashes and the mark is nowhere in the text that comes out. */
  lemma {:induction false} SecretGone(dec: Decoder, secrets: seq<Bytes>, s: Bytes, sec: Bytes, p: nat)
    requires NoEmpty(secrets) && sec in secrets && Foreign(sec)
    ensures !Occurs(Redacted(dec, secrets, s), sec, p)
  {
    hide FoundFrom, Merged, Sorted, Taken, Rebuilt, Replacement, Foreign, Occurs;
    var m := Taken(dec, secrets, s);
    TakenApart(dec, secrets, s);
    var reps := Replacements(s, m);
    if Occurs(Redacted(dec, secrets, s), sec, p) {
      forall k | 0 <= k < |reps| ensures reps[k] != [] && forall b :: b in sec ==> b !in reps[k] {
        ReplacementBytes(s[m[k].from..m[k].until]);
        ForeignBytes(sec);
      }
      assert sec != [] by { ForeignBytes(sec); }
      var q := OccursOutside(s, m, reps, 0, sec, p);
      OccurrencesTaken(dec, secrets, s, 0, sec, q);
      NotTaken(s, m, sec, q);
    }
  }

  lemma ForeignBytes(sec: Bytes)
    requires Foreign(sec)
    ensures sec != [] && forall b :: b in sec ==> b != QUOTE && b != BACKSLASH && b !in REDACTED
  {
  }

  lemma NotTaken(s: Bytes, m: seq<Span>, sec: Bytes, q: nat)
    requires Occurs(s, sec, q) && forall k :: 0 <= k < |m| ==> q + |sec| <= m[k].from || m[k].until <= q
    ensures !OccurrenceIn(m, ViewAt(s, 0), sec, q)
  {
  }

  lemma MarkIn(x: Bytes)
    ensures exists q: nat :: Occurs(Replacement(x), REDACTED, q)
  {
    var q := FirstQuote(x);
    if Quotes(x, q) {
      OccursWithin(x[..q+1], REDACTED, x[..q+1], REDACTED, 0);
    } else {
      assert Replacement(x) == REDACTED && REDACTED[0..0 + |REDACTED|] == REDACTED;
      assert Occurs(Replacement(x), REDACTED, 0);
    }
  }

  lemma OccursWithin(a: Bytes, b: Bytes, c: Bytes, sec: Bytes, q: nat)
    requires Occurs(b, sec, q)
    ensures Occurs(a + b + c, sec, |a| + q)
  {
    assert (a + b + c)[|a| + q..|a| + q + |sec|] == b[q..q + |sec|];
  }

  /** The mark itself, where it is a secret, is held and yet comes out as it went in. */
  lemma {:induction false} MarkStays(dec: Decoder, secrets: seq<Bytes>)
    requires NoEmpty(secrets) && REDACTED in secrets
    ensures Holds(dec, secrets, ViewOf(REDACTED), DEPTH) && Redacted(dec, secrets, REDACTED) == REDACTED
  {
    hide Holds, Later, Merged, Sorted, Rebuilt, FirstQuote, Quotes, Replacement, SpansOf, InView;
    var s := REDACTED;
    var whole := Span(0, |s|);
    CleanStays(dec, secrets, s);
    TakenApart(dec, secrets, s);
    WholeSeen(secrets, s);
    assert whole in FoundFrom(dec, secrets, ViewOf(s), DEPTH);
    var m := Taken(dec, secrets, s);
    var j :| 0 <= j < |m| && Inside(whole, m[j]);
    WholeAlone(m, |s|, j);
    assert s[0..|s|] == s;
    MarkUnquoted();
    assert Replacements(s, m) == Stretches(s, m);
    PutBack(s, m, 0);
    assert s[0..] == s;
  }

  lemma MarkUnquoted()
    ensures Replacement(REDACTED) == REDACTED
  {
    assert REDACTED[0] != QUOTE && REDACTED[0] != BACKSLASH;
  }

  /** A text that is a secret is found whole. */
  lemma {:induction false} WholeSeen(secrets: seq<Bytes>, s: Bytes)
    requires NoEmpty(secrets) && s in secrets
    ensures Span(0, |s|) in InView(ViewOf(s), secrets)
  {
    hide FirstFrom;
    var n := |secrets| - 1;
    if s == secrets[n] {
      assert s[0..0 + |s|] == s && Occurs(s, s, 0);
      assert FirstFrom(s, s, 0) == Some(0);
      assert SpansOf(ViewOf(s), s, 0)[0] == Span(0, |s|);
    } else {
      assert secrets == secrets[..n] + [secrets[n]];
      WholeSeen(secrets[..n], s);
    }
  }

  lemma RisesTo(m: seq<Span>, n: nat, k: nat)
    requires Apart(m, n) && 0 < k < |m|
    ensures 0 < m[k-1].until <= m[k].from < n
  {
    assert m[k-1].until <= m[k].from;
  }

  lemma WholeAlone(m: seq<Span>, n: nat, j: nat)
    requires Apart(m, n) && j < |m| && Inside(Span(0, n), m[j])
    ensures m == [Span(0, n)]
  {
    if j > 0 { RisesTo(m, n, j); }
    if j + 1 < |m| { RisesTo(m, n, j + 1); }
  }

  /** Takes secrets out of texts, and counts the stretches taken. */
  class Redactor {
    const secrets: seq<Bytes>
    const dec: Decoder
    var count: nat

    ghost predicate Valid() {
      NoEmpty(secrets)
    }

    /** Keeps each secret once, and none that is empty. */
    constructor (given: seq<Bytes>, dec: Decoder)
      ensures Valid() && count == 0 && this.dec == dec
      ensures forall x :: x in secrets <==> x in given && x != []
      ensures forall j, k :: 0 <= j < k < |secrets| ==> secrets[j] != secrets[k]
    {
      var out: seq<Bytes> := [];
      for k := 0 to |given|
        invariant NoEmpty(out)
        invariant forall x :: x in out <==> x in given[..k] && x != []
        invariant forall i, j :: 0 <= i < j < |out| ==> out[i] != out[j]
      {
        if given[k] != [] && given[k] !in out { out := out + [given[k]]; }
      }
      assert given[..|given|] == given;
      secrets, this.dec, count := out, dec, 0;
    }

    /** Takes the secrets out of a text. */
    method Text(s: Bytes) returns (out: Bytes)
      requires Valid()
      modifies this
      ensures out == Redacted(dec, secrets, s)
      ensures forall sec, p: nat :: sec in secrets && Foreign(sec) ==> !Occurs(out, sec, p)
      ensures count == old(count) + |Taken(dec, secrets, s)|
    {
      hide FoundFrom, Holds, Rebuilt, Replacement, Sorted, Occurs, Foreign;
      ViewOfTiles(s);
      CleanStays(dec, secrets, s);
      TakenApart(dec, secrets, s);
      forall sec, p: nat | sec in secrets && Foreign(sec) ensures !Occurs(Redacted(dec, secrets, s), sec, p) {
        SecretGone(dec, secrets, s, sec, p);
      }
      var spans := Find(dec, secrets, s, DEPTH);
      if spans == [] {
        FoundIffHolds(dec, secrets, ViewOf(s), |s|, DEPTH);
        return s;
      }
      var merged := Merge(Sorted(spans, Start()));
      out := Rebuild(s, merged);
      count := count + |merged|;
    }
  }

  method Merge(ss: seq<Span>) returns (m: seq<Span>)
    requires ss != []
    ensures m == Merged(ss)
  {
    hide Merged, With;
    m := [ss[0]];
    MergedFirst(ss);
    for k := 1 to |ss|
      invariant m != [] && m == Merged(ss[..k])
    {
      MergedNext(ss, k);
      WithIs(m, ss[k]);
      var last := m[|m|-1];
      if ss[k].from < last.until {
        m := m[..|m|-1] + [Span(last.from, if last.until > ss[k].until then last.until else ss[k].until)];
      } else {
        m := m + [ss[k]];
      }
    }
    assert ss[..|ss|] == ss;
  }

  lemma MergedFirst(ss: seq<Span>)
    requires ss != []
    ensures Merged(ss[..1]) == [ss[0]]
  {
    assert ss[..1][..0] == [] && ss[..1] == [ss[0]];
    assert [] + [ss[0]] == [ss[0]];
  }

  lemma MergedNext(ss: seq<Span>, k: nat)
    requires k < |ss|
    ensures Merged(ss[..k+1]) == With(Merged(ss[..k]), ss[k])
  {
    assert ss[..k+1][..k] == ss[..k];
  }

  /** Writes a text with each of these stretches replaced. */
  method Rebuild(s: Bytes, m: seq<Span>) returns (out: Bytes)
    requires Apart(m, |s|)
    ensures out == Rebuilt(s, m, Replacements(s, m), 0)
  {
    hide Replacement;
    out := [];
    var at: nat := 0;
    ghost var reps := Replacements(s, m);
    assert m[0..] == m && reps[0..] == reps;
    for k := 0 to |m|
      invariant at <= |s| && Apart(m[k..], |s|) && (k < |m| ==> at <= m[k].from)
      invariant out + Rebuilt(s, m[k..], reps[k..], at) == Rebuilt(s, m, reps, 0)
    {
      ApartTail(m[k..], |s|);
      assert m[k..][1..] == m[k+1..] && reps[k..][1..] == reps[k+1..] && m[k..][0] == m[k] && reps[k..][0] == reps[k];
      RebuiltNext(s, m[k..], reps[k..], at, out);
      out := out + s[at..m[k].from] + Replacement(s[m[k].from..m[k].until]);
      at := m[k].until;
    }
    out := out + s[at..];
  }

  lemma RebuiltNext(s: Bytes, m: seq<Span>, reps: seq<Bytes>, at: nat, out: Bytes)
    requires Apart(m, |s|) && |reps| == |m| && m != [] && at <= m[0].from
    requires Apart(m[1..], |s|) && (|m| > 1 ==> m[0].until <= m[1..][0].from)
    ensures out + Rebuilt(s, m, reps, at) ==
              (out + s[at..m[0].from] + reps[0]) + Rebuilt(s, m[1..], reps[1..], m[0].until)
  {
    var a, b, c := s[at..m[0].from], reps[0], Rebuilt(s, m[1..], reps[1..], m[0].until);
    assert out + (a + b + c) == (out + a + b) + c;
  }
}
