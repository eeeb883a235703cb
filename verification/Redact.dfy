/**
 Taking secrets out of a text. A secret is looked for in the text as written,
 in each view with one more level of escapes decoded, and in every JSON string
 literal of each view; each stretch found is replaced, and nothing else.
 */
module Redact {
  import opened JsonGrammar
  import opened RedactViews
  import opened StableSort

  /** A stretch of a text, from inclusive to until exclusive. */
  datatype Span = Span(from: nat, until: nat)

  /** How a string literal, its quotes included, decodes; None for one that does not. */
  type Decoder = Bytes -> Option<Bytes>

  // ---------------------------------------------------------------------
  // Occurrences.
  // ---------------------------------------------------------------------

  predicate Occurs(text: Bytes, sec: Bytes, p: nat) {
    p + |sec| <= |text| && text[p..p + |sec|] == sec
  }

  /** The first occurrence at or after i. */
  function FirstFrom(text: Bytes, sec: Bytes, i: nat): (r: Option<nat>)
    ensures r.Some? ==> i <= r.value && Occurs(text, sec, r.value) && forall p :: i <= p < r.value ==>
              !Occurs(text, sec, p)
    ensures r.None? ==> forall p :: i <= p ==> !Occurs(text, sec, p)
    decreases |text| - i
  {
    if i + |sec| > |text| then None
    else if text[i..i + |sec|] == sec then Some(i)
    else FirstFrom(text, sec, i + 1)
  }

  /** The spans of one secret in a view, each search going on after the occurrence found. */
  function SpansOf(v: View, sec: Bytes, i: nat): (r: seq<Span>)
    requires Shaped(v) && sec != []
    decreases |v.text| - i
  {
    var j := FirstFrom(v.text, sec, i);
    if j.None? then [] else [Span(v.from[j.value], v.until[j.value + |sec| - 1])] + SpansOf(v, sec, j.value + |sec|)
  }

  /** A span takes in the whole stretch byte p of a view came from. */
  predicate TakesIn(sp: Span, v: View, p: nat) {
    p < |v.from| && p < |v.until| && sp.from <= v.from[p] && v.until[p] <= sp.until
  }

  /** An occurrence shares a byte with one of these spans. */
  ghost predicate OccurrenceIn(spans: seq<Span>, v: View, sec: Bytes, p: nat) {
    exists k :: 0 <= k < |spans| && exists x: nat :: p <= x < p + |sec| && TakesIn(spans[k], v, x)
  }

  /** Every occurrence, the ones that overlap another too, shares a byte with a span found. */
  lemma {:induction false} OccurrenceTaken(v: View, n: nat, sec: Bytes, i: nat, p: nat)
    requires Tiles(v, 0, n) && sec != [] && Occurs(v.text, sec, p) && i <= p
    ensures OccurrenceIn(SpansOf(v, sec, i), v, sec, p)
    decreases |v.text| - i
  {
    var j := FirstFrom(v.text, sec, i).value;
    var spans := SpansOf(v, sec, i);
    if p < j + |sec| {
      StretchesRise(v, 0, n, j, p);
      StretchesRise(v, 0, n, p, j + |sec| - 1);
      assert TakesIn(spans[0], v, p);
    } else {
      OccurrenceTaken(v, n, sec, j + |sec|, p);
      var rest := SpansOf(v, sec, j + |sec|);
      var k :| 0 <= k < |rest| && exists x: nat :: p <= x < p + |sec| && TakesIn(rest[k], v, x);
      assert spans[k + 1] == rest[k];
    }
  }

  /** Every span found is of an occurrence. */
  lemma {:induction false} SpansAreOccurrences(v: View, n: nat, sec: Bytes, i: nat, k: nat)
    requires Tiles(v, 0, n) && sec != [] && k < |SpansOf(v, sec, i)|
    ensures exists p: nat :: Occurs(v.text, sec, p) && SpansOf(v, sec, i)[k] == Span(v.from[p], v.until[p + |sec| - 1])
    ensures SpansOf(v, sec, i)[k].from < SpansOf(v, sec, i)[k].until <= n
    decreases k
  {
    hide Tiles, FirstFrom, Occurs;
    TilesShaped(v, 0, n);
    var j := FirstFrom(v.text, sec, i).value;
    if k == 0 {
      OccurrenceStretch(v, n, sec, j);
    } else {
      SpansAreOccurrences(v, n, sec, j + |sec|, k - 1);
    }
  }

  lemma OccurrenceStretch(v: View, n: nat, sec: Bytes, p: nat)
    requires Tiles(v, 0, n) && sec != [] && Occurs(v.text, sec, p)
    ensures v.from[p] < v.until[p + |sec| - 1] <= n
  {
    StretchesRise(v, 0, n, p, p + |sec| - 1);
  }

  /** The spans of every secret. */
  function InView(v: View, secrets: seq<Bytes>): seq<Span>
    requires Shaped(v) && forall k :: 0 <= k < |secrets| ==> secrets[k] != []
  {
    if secrets == [] then [] else InView(v, secrets[..|secrets|-1]) + SpansOf(v, secrets[|secrets|-1], 0)
  }

  // ---------------------------------------------------------------------
  // Literals.
  // ---------------------------------------------------------------------

  datatype Quoted = Quoted(from: nat, last: nat, decoded: Bytes)

  /** How many backslashes stand right before i. */
  function SlashesBefore(s: Bytes, i: nat): nat
    requires i <= |s|
  {
    if i == 0 || s[i-1] != BACKSLASH then 0 else 1 + SlashesBefore(s, i - 1)
  }

  /** The first quote at or after j that no escape takes. */
  function CloseFrom(s: Bytes, j: nat): (r: Option<nat>)
    ensures r.Some? ==> j <= r.value < |s| && s[r.value] == QUOTE
    decreases |s| - j
  {
    if j >= |s| then None
    else if s[j] == BACKSLASH then CloseFrom(s, j + 2)
    else if s[j] == QUOTE then Some(j)
    else CloseFrom(s, j + 1)
  }

  /** The literals from byte i on: from each quote no backslash escapes to the quote that closes it. */
  function LiteralsFrom(dec: Decoder, s: Bytes, i: nat): (r: seq<Quoted>)
    ensures forall k :: 0 <= k < |r| ==> i <= r[k].from < r[k].last < |s|
    decreases |s| - i
  {
    if i >= |s| then []
    else if s[i] != QUOTE || SlashesBefore(s, i) % 2 == 1 then LiteralsFrom(dec, s, i + 1)
    else
      var end := CloseFrom(s, i + 1);
      if end.None? then []
      else
        var d := dec(s[i..end.value + 1]);
        (if d.Some? then [Quoted(i, end.value, d.value)] else []) + LiteralsFrom(dec, s, i + 1)
  }

  /** A quote no backslash escapes: an even number of them stand right before it. */
  predicate Bare(s: Bytes, i: nat) {
    i < |s| && s[i] == QUOTE && SlashesBefore(s, i) % 2 == 0
  }

  /** Backslashes right before a place, and no more of them. */
  lemma {:induction false} SlashesAre(s: Bytes, i: nat)
    requires i <= |s|
    ensures SlashesBefore(s, i) <= i && (forall k :: i - SlashesBefore(s, i) <= k < i ==> s[k] == BACKSLASH)
    ensures SlashesBefore(s, i) < i ==> s[i - SlashesBefore(s, i) - 1] != BACKSLASH
  {
    if i > 0 && s[i-1] == BACKSLASH { SlashesAre(s, i - 1); }
  }

  /** The scan for the closing quote finds the first that is not escaped. */
  lemma {:induction false} ClosesAt(s: Bytes, j: nat)
    requires j <= |s| && SlashesBefore(s, j) % 2 == 0
    ensures var e := CloseFrom(s, j);
            && (e.Some? ==> Bare(s, e.value) && forall k :: j <= k < e.value ==> !Bare(s, k))
            && (e.None? ==> forall k :: j <= k ==> !Bare(s, k))
    decreases |s| - j
  {
    if j < |s| && s[j] == BACKSLASH {
      if j + 2 <= |s| {
        assert SlashesBefore(s, j + 1) == 1 + SlashesBefore(s, j);
        assert s[j+1] == BACKSLASH ==> SlashesBefore(s, j + 2) == 2 + SlashesBefore(s, j);
        ClosesAt(s, j + 2);
        assert !Bare(s, j) && !Bare(s, j + 1);
      }
    } else if j < |s| && s[j] != QUOTE {
      ClosesAt(s, j + 1);
    }
  }

  /** A literal of a text: from a quote that is not escaped to the next such quote, where all of it decodes. */
  ghost predicate IsLiteral(dec: Decoder, s: Bytes, l: Quoted) {
    && Bare(s, l.from) && l.from < l.last && Bare(s, l.last) && (forall k :: l.from < k < l.last ==> !Bare(s, k))
    && dec(s[l.from..l.last + 1]) == Some(l.decoded)
  }

  /** The literals found are exactly those there are. */
  lemma {:induction false} LiteralsAre(dec: Decoder, s: Bytes, i: nat)
    ensures forall l :: l in LiteralsFrom(dec, s, i) <==> i <= l.from && IsLiteral(dec, s, l)
    decreases |s| - i
  {
    hide CloseFrom, SlashesBefore;
    if i < |s| {
      LiteralsAre(dec, s, i + 1);
      if Bare(s, i) {
        AfterQuote(s, i);
        ClosesAt(s, i + 1);
        var end := CloseFrom(s, i + 1);
        if end.Some? {
          forall l: Quoted | l.from == i
            ensures IsLiteral(dec, s, l) <==> l.last == end.value && dec(s[i..end.value + 1]) == Some(l.decoded)
          {
            OneClose(s, i, l.last, end.value);
          }
        }
      }
    }
  }

  lemma OneClose(s: Bytes, i: nat, a: nat, b: nat)
    requires i < b && Bare(s, b) && forall k :: i < k < b ==> !Bare(s, k)
    ensures i < a && Bare(s, a) && (forall k :: i < k < a ==> !Bare(s, k)) <==> a == b
  {
    hide SlashesBefore;
  }

  lemma AfterQuote(s: Bytes, i: nat)
    requires i < |s| && s[i] == QUOTE
    ensures SlashesBefore(s, i + 1) == 0
  {
  }

  // ---------------------------------------------------------------------
  // Finding.
  // ---------------------------------------------------------------------

  predicate NoEmpty(secrets: seq<Bytes>) {
    forall k :: 0 <= k < |secrets| ==> secrets[k] != []
  }

  /** The stretches found from a view on, with this many levels of decoding left. */
  function FoundFrom(dec: Decoder, secrets: seq<Bytes>, v: View, left: nat): seq<Span>
    requires Shaped(v) && NoEmpty(secrets)
    decreases left, 1, 0
  {
    InView(v, secrets) + Later(dec, secrets, v, left)
  }

  /** The stretches found in the literals of a view, and in the views after it. */
  function Later(dec: Decoder, secrets: seq<Bytes>, v: View, left: nat): seq<Span>
    requires Shaped(v) && NoEmpty(secrets)
    decreases left, 0, 0
  {
    if left == 0 then []
    else
      LiteralSpans(dec, secrets, v, LiteralsFrom(dec, v.text, 0), left - 1) +
      if Unescaped(v) == v then [] else FoundFrom(dec, secrets, Unescaped(v), left - 1)
  }

  /** The literals that hold a secret within this many levels of decoding. */
  function LiteralSpans(dec: Decoder, secrets: seq<Bytes>, v: View, ls: seq<Quoted>, left: nat): seq<Span>
    requires Shaped(v) && NoEmpty(secrets)
    requires forall k :: 0 <= k < |ls| ==> ls[k].from < ls[k].last < |v.text|
    decreases left, 2, |ls|
  {
    if ls == [] then []
    else
      LiteralSpans(dec, secrets, v, ls[..|ls|-1], left) +
      var l := ls[|ls|-1];
      if FoundFrom(dec, secrets, ViewOf(l.decoded), left) != [] then [Span(v.from[l.from], v.until[l.last])] else []
  }

  /**
   A secret is in a view within so many levels of decoding: in some view of it, or in what a literal of
   some view decodes to.
   */
  ghost predicate Holds(dec: Decoder, secrets: seq<Bytes>, v: View, left: nat)
    requires Shaped(v)
    decreases left
  {
    exists level: nat :: level <= left &&
      (Seen(secrets, Levels(v, level).text)
       || exists l :: l in LiteralsFrom(dec, Levels(v, level).text, 0) && level < left
                      && Holds(dec, secrets, ViewOf(l.decoded), left - level - 1))
  }

  lemma HoldsSeen(dec: Decoder, secrets: seq<Bytes>, v: View, left: nat, level: nat)
    requires Shaped(v) && level <= left && Seen(secrets, Levels(v, level).text)
    ensures Holds(dec, secrets, v, left)
  {
  }

  lemma HoldsInLiteral(dec: Decoder, secrets: seq<Bytes>, v: View, left: nat, level: nat, l: Quoted)
    requires Shaped(v) && level < left && l in LiteralsFrom(dec, Levels(v, level).text, 0)
    requires Holds(dec, secrets, ViewOf(l.decoded), left - level - 1)
    ensures Holds(dec, secrets, v, left)
  {
    hide Levels, ViewOf, LiteralsFrom;
  }

  /** Some secret is in a text as written. */
  ghost predicate Seen(secrets: seq<Bytes>, text: Bytes) {
    exists sec, p :: sec in secrets && Occurs(text, sec, p)
  }

  lemma {:induction false} InViewIs(v: View, n: nat, secrets: seq<Bytes>)
    requires Tiles(v, 0, n) && NoEmpty(secrets)
    ensures forall sec, p :: sec in secrets && Occurs(v.text, sec, p) ==> OccurrenceIn(InView(v, secrets), v, sec, p)
    ensures InView(v, secrets) != [] <==> Seen(secrets, v.text)
    ensures AllWithin(InView(v, secrets), n)
  {
    hide SpansOf, Occurs, TakesIn, Tiles;
    TilesShaped(v, 0, n);
    if secrets != [] {
      var m := |secrets| - 1;
      var sec := secrets[m];
      assert sec != [] && NoEmpty(secrets[..m]);
      var before, more := InView(v, secrets[..m]), SpansOf(v, sec, 0);
      InViewIs(v, n, secrets[..m]);
      assert secrets == secrets[..m] + [sec];
      forall p | Occurs(v.text, sec, p) ensures OccurrenceIn(before + more, v, sec, p) {
        OccurrenceTaken(v, n, sec, 0, p);
        OccurrenceAlso(before, more, v, sec, p);
      }
      forall s2, p | s2 in secrets[..m] && Occurs(v.text, s2, p) ensures OccurrenceIn(before + more, v, s2, p) {
        OccurrenceStays(before, more, v, s2, p);
      }
      forall k | 0 <= k < |more|
        ensures more[k].from < more[k].until <= n && exists p: nat :: Occurs(v.text, sec, p)
      {
        SpansAreOccurrences(v, n, sec, 0, k);
      }
      if more != [] { assert more[0].from < more[0].until; }
    }
  }

  lemma OccurrenceStays(a: seq<Span>, b: seq<Span>, v: View, sec: Bytes, p: nat)
    requires OccurrenceIn(a, v, sec, p)
    ensures OccurrenceIn(a + b, v, sec, p)
  {
    var k :| 0 <= k < |a| && exists x: nat :: p <= x < p + |sec| && TakesIn(a[k], v, x);
    assert (a + b)[k] == a[k];
  }

  lemma OccurrenceAlso(a: seq<Span>, b: seq<Span>, v: View, sec: Bytes, p: nat)
    requires OccurrenceIn(b, v, sec, p)
    ensures OccurrenceIn(a + b, v, sec, p)
  {
    var k :| 0 <= k < |b| && exists x: nat :: p <= x < p + |sec| && TakesIn(b[k], v, x);
    assert (a + b)[|a| + k] == b[k];
  }

  /** What a literal decodes to holds a secret within this many levels. */
  predicate Hides(dec: Decoder, secrets: seq<Bytes>, l: Quoted, left: nat)
    requires NoEmpty(secrets)
  {
    FoundFrom(dec, secrets, ViewOf(l.decoded), left) != []
  }

  /** A literal's stretch in the original text. */
  function StretchIn(v: View, l: Quoted): Span
    requires Shaped(v) && l.from < l.last < |v.text|
  {
    Span(v.from[l.from], v.until[l.last])
  }

  lemma LiteralSpansNext(dec: Decoder, secrets: seq<Bytes>, v: View, ls: seq<Quoted>, left: nat)
    requires Shaped(v) && NoEmpty(secrets) && ls != []
    requires forall k :: 0 <= k < |ls| ==> ls[k].from < ls[k].last < |v.text|
    ensures LiteralSpans(dec, secrets, v, ls, left) == LiteralSpans(dec, secrets, v, ls[..|ls|-1], left)
              + if Hides(dec, secrets, ls[|ls|-1], left) then [StretchIn(v, ls[|ls|-1])] else []
  {
    hide FoundFrom, ViewOf;
  }

  /** A literal's stretch is found when what it decodes to holds a secret, and no other's is. */
  lemma {:induction false} LiteralSpansAre(dec: Decoder, secrets: seq<Bytes>, v: View, n: nat, ls: seq<Quoted>,
                                           left: nat)
    requires Tiles(v, 0, n) && NoEmpty(secrets)
    requires forall k :: 0 <= k < |ls| ==> ls[k].from < ls[k].last < |v.text|
    ensures forall l :: l in ls && Hides(dec, secrets, l, left) ==>
              StretchIn(v, l) in LiteralSpans(dec, secrets, v, ls, left)
    ensures LiteralSpans(dec, secrets, v, ls, left) != [] ==> exists l :: l in ls && Hides(dec, secrets, l, left)
    ensures AllWithin(LiteralSpans(dec, secrets, v, ls, left), n)
    decreases |ls|
  {
    hide Hides, Tiles, LiteralSpans, StretchIn;
    TilesShaped(v, 0, n);
    if ls == [] {
      NoLiteralSpans(dec, secrets, v, left);
    } else {
      var m := |ls| - 1;
      assert ls == ls[..m] + [ls[m]];
      LiteralSpansAre(dec, secrets, v, n, ls[..m], left);
      LiteralSpansNext(dec, secrets, v, ls, left);
      StretchOf(v, n, ls[m]);
    }
  }

  lemma NoLiteralSpans(dec: Decoder, secrets: seq<Bytes>, v: View, left: nat)
    requires Shaped(v) && NoEmpty(secrets)
    ensures LiteralSpans(dec, secrets, v, [], left) == []
  {
  }

  lemma StretchOf(v: View, n: nat, l: Quoted)
    requires Tiles(v, 0, n) && l.from < l.last < |v.text|
    ensures StretchIn(v, l).from < StretchIn(v, l).until <= n
  {
    StretchesRise(v, 0, n, l.from, l.last);
  }

  /** Looking further finds no less. */
  lemma {:induction false} FurtherFinds(dec: Decoder, secrets: seq<Bytes>, v: View, n: nat, a: nat, b: nat)
    requires Tiles(v, 0, n) && NoEmpty(secrets) && a <= b && FoundFrom(dec, secrets, v, a) != []
    ensures FoundFrom(dec, secrets, v, b) != []
    decreases a, 1
  {
    hide Tiles, Unescaped, LiteralsFrom, LiteralSpans, InView, ViewOf;
    TilesShaped(v, 0, n);
    if InView(v, secrets) == [] {
      assert Later(dec, secrets, v, a) != [];
      LaterFinds(dec, secrets, v, n, a, b);
    }
  }

  lemma {:induction false} LaterFinds(dec: Decoder, secrets: seq<Bytes>, v: View, n: nat, a: nat, b: nat)
    requires Tiles(v, 0, n) && NoEmpty(secrets) && a <= b && Shaped(v) && Later(dec, secrets, v, a) != []
    ensures Later(dec, secrets, v, b) != []
    decreases a, 0
  {
    hide Tiles, Unescaped, LiteralsFrom, LiteralSpans, InView, ViewOf, FoundFrom;
    var ls := LiteralsFrom(dec, v.text, 0);
    LiteralSpansAre(dec, secrets, v, n, ls, a - 1);
    LiteralSpansAre(dec, secrets, v, n, ls, b - 1);
    if LiteralSpans(dec, secrets, v, ls, a - 1) != [] {
      var l :| l in ls && FoundFrom(dec, secrets, ViewOf(l.decoded), a - 1) != [];
      ViewOfTiles(l.decoded);
      FurtherFinds(dec, secrets, ViewOf(l.decoded), |l.decoded|, a - 1, b - 1);
    } else {
      UnescapedTiles(v, n);
      FurtherFinds(dec, secrets, Unescaped(v), n, a - 1, b - 1);
    }
  }

  lemma TilesShaped(v: View, a: nat, b: nat)
    requires Tiles(v, a, b)
    ensures Shaped(v)
  {
  }

  /** Every occurrence of a secret, in every view to the last level, shares a byte with a stretch found. */
  lemma {:induction false} OccurrencesFound(dec: Decoder, secrets: seq<Bytes>, v: View, n: nat, left: nat, level: nat,
                                            sec: Bytes, p: nat)
    requires Tiles(v, 0, n) && NoEmpty(secrets) && level <= left
    requires sec in secrets && Occurs(Levels(v, level).text, sec, p)
    ensures OccurrenceIn(FoundFrom(dec, secrets, v, left), Levels(v, level), sec, p)
    decreases level
  {
    hide Tiles, Unescaped, LiteralsFrom, LiteralSpans, InView, OccurrenceIn, Occurs;
    TilesShaped(v, 0, n);
    InViewIs(v, n, secrets);
    if level == 0 || Unescaped(v) == v {
      if level > 0 { LevelsStay(v, level); }
      OccurrenceStays(InView(v, secrets), Later(dec, secrets, v, left), v, sec, p);
    } else {
      LevelsNext(v, level - 1);
      UnescapedTiles(v, n);
      OccurrencesFound(dec, secrets, Unescaped(v), n, left - 1, level - 1, sec, p);
      OccurrenceAlso(LiteralSpans(dec, secrets, v, LiteralsFrom(dec, v.text, 0), left - 1),
                     FoundFrom(dec, secrets, Unescaped(v), left - 1), Levels(v, level), sec, p);
      OccurrenceAlso(InView(v, secrets), Later(dec, secrets, v, left), Levels(v, level), sec, p);
    }
  }

  /** Every literal, in every view, that holds a secret within the levels left has its stretch found whole. */
  lemma {:induction false} LiteralsFound(dec: Decoder, secrets: seq<Bytes>, v: View, n: nat, left: nat, level: nat,
                                         l: Quoted)
    requires Tiles(v, 0, n) && NoEmpty(secrets) && level < left
    requires l in LiteralsFrom(dec, Levels(v, level).text, 0)
    requires FoundFrom(dec, secrets, ViewOf(l.decoded), left - level - 1) != []
    ensures l.from < l.last < |Levels(v, level).text|
    ensures Span(Levels(v, level).from[l.from], Levels(v, level).until[l.last]) in FoundFrom(dec, secrets, v, left)
    decreases level
  {
    hide Tiles, Unescaped, LiteralsFrom, LiteralSpans, InView, ViewOf, FoundFrom;
    TilesShaped(v, 0, n);
    if level == 0 || Unescaped(v) == v {
      if level > 0 { LevelsStay(v, level); }
      ViewOfTiles(l.decoded);
      FurtherFinds(dec, secrets, ViewOf(l.decoded), |l.decoded|, left - level - 1, left - 1);
      LiteralHere(dec, secrets, v, n, left, l);
    } else {
      LevelsNext(v, level - 1);
      UnescapedTiles(v, n);
      LiteralsFound(dec, secrets, Unescaped(v), n, left - 1, level - 1, l);
      FoundNext(dec, secrets, v, left, Span(Levels(v, level).from[l.from], Levels(v, level).until[l.last]));
    }
  }

  lemma LiteralHere(dec: Decoder, secrets: seq<Bytes>, v: View, n: nat, left: nat, l: Quoted)
    requires Tiles(v, 0, n) && NoEmpty(secrets) && left > 0 && Shaped(v)
    requires l in LiteralsFrom(dec, v.text, 0) && FoundFrom(dec, secrets, ViewOf(l.decoded), left - 1) != []
    ensures l.from < l.last < |v.text| && Span(v.from[l.from], v.until[l.last]) in FoundFrom(dec, secrets, v, left)
  {
    hide Tiles, Unescaped, LiteralsFrom, LiteralSpans, InView, ViewOf;
    LiteralSpansAre(dec, secrets, v, n, LiteralsFrom(dec, v.text, 0), left - 1);
    assert Span(v.from[l.from], v.until[l.last]) in Later(dec, secrets, v, left);
  }

  lemma FoundNext(dec: Decoder, secrets: seq<Bytes>, v: View, left: nat, sp: Span)
    requires Shaped(v) && NoEmpty(secrets) && left > 0 && Unescaped(v) != v
    requires sp in FoundFrom(dec, secrets, Unescaped(v), left - 1)
    ensures sp in FoundFrom(dec, secrets, v, left)
  {
    hide Unescaped, LiteralsFrom, LiteralSpans, InView;
    assert sp in Later(dec, secrets, v, left);
  }

  predicate AllWithin(spans: seq<Span>, n: nat) {
    forall k :: 0 <= k < |spans| ==> spans[k].from < spans[k].until <= n
  }

  lemma WithinBoth(a: seq<Span>, b: seq<Span>, n: nat)
    requires AllWithin(a, n) && AllWithin(b, n)
    ensures AllWithin(a + b, n)
  {
  }

  /** Stretches found lie in the text. */
  lemma {:induction false} FoundInText(dec: Decoder, secrets: seq<Bytes>, v: View, n: nat, left: nat)
    requires Tiles(v, 0, n) && NoEmpty(secrets)
    ensures AllWithin(FoundFrom(dec, secrets, v, left), n)
    decreases left
  {
    hide Tiles, Unescaped, LiteralsFrom, LiteralSpans, InView, Seen, OccurrenceIn, AllWithin;
    TilesShaped(v, 0, n);
    InViewIs(v, n, secrets);
    assert AllWithin([], n) by { NoneWithin(n); }
    if left > 0 {
      LiteralSpansAre(dec, secrets, v, n, LiteralsFrom(dec, v.text, 0), left - 1);
      UnescapedTiles(v, n);
      FoundInText(dec, secrets, Unescaped(v), n, left - 1);
      WithinBoth(LiteralSpans(dec, secrets, v, LiteralsFrom(dec, v.text, 0), left - 1),
                 if Unescaped(v) == v then [] else FoundFrom(dec, secrets, Unescaped(v), left - 1), n);
    }
    WithinBoth(InView(v, secrets), Later(dec, secrets, v, left), n);
  }

  lemma NoneWithin(n: nat)
    ensures AllWithin([], n)
  {
  }

  /** Something is found exactly when a secret is there, in some view or some literal, within the depth. */
  lemma {:induction false} FoundIffHolds(dec: Decoder, secrets: seq<Bytes>, v: View, n: nat, left: nat)
    requires Tiles(v, 0, n) && NoEmpty(secrets)
    ensures FoundFrom(dec, secrets, v, left) != [] <==> Holds(dec, secrets, v, left)
    decreases left
  {
    hide Tiles, FoundFrom, LiteralsFrom, Seen, Levels;
    TilesShaped(v, 0, n);
    if FoundFrom(dec, secrets, v, left) != [] { FoundHolds(dec, secrets, v, n, left); }
    if Holds(dec, secrets, v, left) { HoldsFound(dec, secrets, v, n, left); }
  }

  lemma {:induction false} HoldsFound(dec: Decoder, secrets: seq<Bytes>, v: View, n: nat, left: nat)
    requires Tiles(v, 0, n) && NoEmpty(secrets) && Holds(dec, secrets, v, left)
    ensures FoundFrom(dec, secrets, v, left) != []
    decreases left
  {
    hide Tiles, FoundFrom, LiteralsFrom, Levels, Occurs;
    TilesShaped(v, 0, n);
    var level: nat :| level <= left &&
      (Seen(secrets, Levels(v, level).text)
       || exists l :: l in LiteralsFrom(dec, Levels(v, level).text, 0) && level < left
                      && Holds(dec, secrets, ViewOf(l.decoded), left - level - 1));
    if Seen(secrets, Levels(v, level).text) {
      var sec, p :| sec in secrets && Occurs(Levels(v, level).text, sec, p);
      OccurrencesFound(dec, secrets, v, n, left, level, sec, p);
    } else {
      var l :| l in LiteralsFrom(dec, Levels(v, level).text, 0) && level < left
        && Holds(dec, secrets, ViewOf(l.decoded), left - level - 1);
      ViewOfTiles(l.decoded);
      HoldsFound(dec, secrets, ViewOf(l.decoded), |l.decoded|, left - level - 1);
      LiteralsFound(dec, secrets, v, n, left, level, l);
    }
  }

  lemma {:induction false} FoundHolds(dec: Decoder, secrets: seq<Bytes>, v: View, n: nat, left: nat)
    requires Tiles(v, 0, n) && NoEmpty(secrets) && FoundFrom(dec, secrets, v, left) != []
    ensures Holds(dec, secrets, v, left)
    decreases left
  {
    hide Tiles, LiteralsFrom, LiteralSpans, InView, Unescaped, ViewOf, Holds, Seen;
    TilesShaped(v, 0, n);
    InViewIs(v, n, secrets);
    if InView(v, secrets) != [] {
      HoldsSeen(dec, secrets, v, left, 0);
    } else {
      var ls := LiteralsFrom(dec, v.text, 0);
      LiteralSpansAre(dec, secrets, v, n, ls, left - 1);
      if LiteralSpans(dec, secrets, v, ls, left - 1) != [] {
        var l :| l in ls && FoundFrom(dec, secrets, ViewOf(l.decoded), left - 1) != [];
        ViewOfTiles(l.decoded);
        FoundHolds(dec, secrets, ViewOf(l.decoded), |l.decoded|, left - 1);
        HoldsInLiteral(dec, secrets, v, left, 0, l);
      } else {
        UnescapedTiles(v, n);
        FoundHolds(dec, secrets, Unescaped(v), n, left - 1);
        HoldsNext(dec, secrets, v, left);
      }
    }
  }

  lemma HoldsNext(dec: Decoder, secrets: seq<Bytes>, v: View, left: nat)
    requires Shaped(v) && left > 0 && Holds(dec, secrets, Unescaped(v), left - 1)
    ensures Holds(dec, secrets, v, left)
  {
    hide LiteralsFrom, Seen, Levels, Unescaped, ViewOf;
    var u := Unescaped(v);
    var level: nat :| level <= left - 1 &&
      (Seen(secrets, Levels(u, level).text)
       || exists l :: l in LiteralsFrom(dec, Levels(u, level).text, 0) && level < left - 1
                      && Holds(dec, secrets, ViewOf(l.decoded), left - 1 - level - 1));
    LevelsNext(v, level);
    if Seen(secrets, Levels(u, level).text) {
      HoldsSeen(dec, secrets, v, left, level + 1);
    } else {
      var l :| l in LiteralsFrom(dec, Levels(u, level).text, 0) && level < left - 1
        && Holds(dec, secrets, ViewOf(l.decoded), left - 1 - level - 1);
      HoldsInLiteral(dec, secrets, v, left, level + 1, l);
    }
  }

  // ---------------------------------------------------------------------
  // The search as it runs.
  // ---------------------------------------------------------------------

  lemma SpansNext(v: View, sec: Bytes, i: nat, out: seq<Span>)
    requires Shaped(v) && sec != []
    ensures var j := FirstFrom(v.text, sec, i);
            out + SpansOf(v, sec, i) ==
            if j.None? then out
            else (out + [Span(v.from[j.value], v.until[j.value + |sec| - 1])]) + SpansOf(v, sec, j.value + |sec|)
  {
    var j := FirstFrom(v.text, sec, i);
    if j.Some? {
      Shift(out, Span(v.from[j.value], v.until[j.value + |sec| - 1]), SpansOf(v, sec, j.value + |sec|));
    } else {
      assert out + [] == out;
    }
  }

  lemma Shift(a: seq<Span>, x: Span, b: seq<Span>)
    ensures a + ([x] + b) == (a + [x]) + b
  {
  }

  method FindSecret(v: View, sec: Bytes) returns (out: seq<Span>)
    requires Shaped(v) && sec != []
    ensures out == SpansOf(v, sec, 0)
  {
    hide SpansOf;
    out := [];
    assert [] + SpansOf(v, sec, 0) == SpansOf(v, sec, 0);
    var i: nat := 0;
    while true
      invariant out + SpansOf(v, sec, i) == SpansOf(v, sec, 0)
      decreases |v.text| - i
    {
      var j := FirstFrom(v.text, sec, i);
      SpansNext(v, sec, i, out);
      if j.None? { return; }
      out := out + [Span(v.from[j.value], v.until[j.value + |sec| - 1])];
      i := j.value + |sec|;
    }
  }

  /** Finds every stretch that holds a secret within depth levels of decoding, level by level. */
  method Find(dec: Decoder, secrets: seq<Bytes>, s: Bytes, depth: nat) returns (out: seq<Span>)
    requires NoEmpty(secrets)
    ensures out == FoundFrom(dec, secrets, ViewOf(s), depth)
    decreases depth, 1
  {
    hide LiteralSpans, InView, Unescaped, LiteralsFrom, FoundFrom;
    out := [];
    var v := ViewOf(s);
    var left: nat := depth;
    assert out + FoundFrom(dec, secrets, v, left) == FoundFrom(dec, secrets, v, left);
    while true
      invariant left <= depth && Shaped(v)
      invariant out + FoundFrom(dec, secrets, v, left) == FoundFrom(dec, secrets, ViewOf(s), depth)
      decreases left
    {
      var here := FindInView(v, secrets);
      FoundInParts(dec, secrets, v, left, out);
      out := out + here;
      if left == 0 { return; }
      var inside := FindInLiterals(dec, secrets, v, left - 1);
      out := out + inside;
      var next, decoded := Unescape(v);
      if !decoded { return; }
      v := next;
      left := left - 1;
    }
  }

  lemma FoundInParts(dec: Decoder, secrets: seq<Bytes>, v: View, left: nat, out: seq<Span>)
    requires Shaped(v) && NoEmpty(secrets)
    ensures left == 0 ==> out + FoundFrom(dec, secrets, v, left) == out + InView(v, secrets)
    ensures left > 0 ==>
              (out + FoundFrom(dec, secrets, v, left) ==
               out + InView(v, secrets) + LiteralSpans(dec, secrets, v, LiteralsFrom(dec, v.text, 0), left - 1)
               + (if Unescaped(v) == v then [] else FoundFrom(dec, secrets, Unescaped(v), left - 1)))
  {
    hide LiteralSpans, InView, Unescaped, LiteralsFrom;
  }

  method FindInView(v: View, secrets: seq<Bytes>) returns (out: seq<Span>)
    requires Shaped(v) && NoEmpty(secrets)
    ensures out == InView(v, secrets)
  {
    hide SpansOf;
    out := [];
    for k := 0 to |secrets|
      invariant NoEmpty(secrets[..k]) && out == InView(v, secrets[..k])
    {
      assert secrets[..k+1][..k] == secrets[..k];
      var more := FindSecret(v, secrets[k]);
      out := out + more;
    }
    assert secrets[..|secrets|] == secrets;
  }

  method FindInLiterals(dec: Decoder, secrets: seq<Bytes>, v: View, left: nat) returns (out: seq<Span>)
    requires Shaped(v) && NoEmpty(secrets)
    ensures out == LiteralSpans(dec, secrets, v, LiteralsFrom(dec, v.text, 0), left)
    decreases left, 2
  {
    hide LiteralsFrom, FoundFrom;
    out := [];
    var ls := LiteralsFrom(dec, v.text, 0);
    for k := 0 to |ls|
      invariant out == LiteralSpans(dec, secrets, v, ls[..k], left)
    {
      assert ls[..k+1][..k] == ls[..k];
      var l := ls[k];
      var inner := Find(dec, secrets, l.decoded, left);
      if inner != [] { out := out + [Span(v.from[l.from], v.until[l.last])]; }
    }
    assert ls[..|ls|] == ls;
  }
}
