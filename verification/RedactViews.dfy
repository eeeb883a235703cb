/**
 Views of a text with some levels of JSON escapes decoded, each byte of a view
 knowing the stretch of the original text it came from. At every level the
 stretches are in order and tile the original.
 */
module RedactViews {
  import opened JsonGrammar
  import opened JsonPoints

  /** A text with some escapes decoded, and for each of its bytes where the original stretch begins and ends. */
  datatype View = View(text: Bytes, from: seq<nat>, until: seq<nat>)

  const NO_VIEW := View([], [], [])

  function ViewOf(s: Bytes): (v: View)
    ensures v.text == s && |v.from| == |s| && |v.until| == |s|
    ensures forall i :: 0 <= i < |s| ==> v.from[i] == i && v.until[i] == i + 1
  {
    View(s, seq(|s|, i requires 0 <= i < |s| => i), seq(|s|, i requires 0 <= i < |s| => i + 1))
  }

  predicate Shaped(v: View) {
    |v.from| == |v.text| && |v.until| == |v.text|
  }

  /**
   Bytes k-1 and k came from one stretch, as parts of one character beyond ASCII, or from stretches that
   follow each other.
   */
  predicate Follows(v: View, k: int)
    requires Shaped(v) && 0 < k < |v.text|
  {
    || v.from[k] == v.until[k-1]
    || (v.from[k] == v.from[k-1] && v.until[k] == v.until[k-1] && v.text[k-1] >= 0x80 && v.text[k] >= 0x80)
  }

  /** The stretches tile [a, b) in order. */
  ghost predicate Tiles(v: View, a: nat, b: nat) {
    && Shaped(v)
    && (forall k :: 0 <= k < |v.text| ==> v.from[k] < v.until[k])
    && (forall k :: 0 < k < |v.text| ==> Follows(v, k))
    && (v.text == [] ==> a == b)
    && (v.text != [] ==> v.from[0] == a && v.until[|v.text|-1] == b)
  }

  lemma ViewOfTiles(s: Bytes)
    ensures Tiles(ViewOf(s), 0, |s|)
  {
  }

  /** Stretches come in order. */
  lemma {:induction false} StretchesRise(v: View, a: nat, b: nat, j: nat, k: nat)
    requires Tiles(v, a, b) && j <= k < |v.text|
    ensures a <= v.from[j] <= v.from[k] && v.until[j] <= v.until[k] <= b
    decreases k + |v.text| - j
  {
    if j < k {
      assert Follows(v, k);
      StretchesRise(v, a, b, j, k - 1);
      StretchesRise(v, a, b, k, k);
    } else {
      FromStart(v, a, b, k);
      ToEnd(v, a, b, k);
    }
  }

  lemma {:induction false} FromStart(v: View, a: nat, b: nat, k: nat)
    requires Tiles(v, a, b) && k < |v.text|
    ensures a <= v.from[k]
  {
    if k > 0 {
      assert Follows(v, k);
      FromStart(v, a, b, k - 1);
    }
  }

  lemma {:induction false} ToEnd(v: View, a: nat, b: nat, k: nat)
    requires Tiles(v, a, b) && k < |v.text|
    ensures v.until[k] <= b
    decreases |v.text| - k
  {
    if k + 1 < |v.text| {
      assert Follows(v, k + 1);
      ToEnd(v, a, b, k + 1);
    }
  }

  /** Every instant of the original is in the stretch of some byte of the view. */
  lemma {:induction false} NothingLost(v: View, a: nat, b: nat, x: nat, n: nat)
    requires Tiles(v, a, b) && n < |v.text| && a <= x < v.until[n]
    ensures exists k: nat :: k <= n && v.from[k] <= x < v.until[k]
  {
    if v.from[n] <= x {
    } else {
      FromStart(v, a, b, n);
      assert n > 0;
      assert Follows(v, n);
      NothingLost(v, a, b, x, n - 1);
    }
  }

  // ---------------------------------------------------------------------
  // One more level decoded.
  // ---------------------------------------------------------------------

  const REPLACEMENT := 0xFFFD

  /** A \u escape at the start: the code point, and how many bytes it took; a lone surrogate half is U+FFFD. */
  function EscapedRune(s: Bytes): Option<(nat, nat)> {
    if !HexEscape(s) then None
    else
      var r := HexValue(s[2..6]);
      if High(r) || Low(r) then
        if High(r) && HexEscape(s[6..]) && Low(HexValue(s[6..][2..6]))
        then Some((0x10000 + (r - 0xD800) * 0x400 + (HexValue(s[6..][2..6]) - 0xDC00), 12))
        else Some((REPLACEMENT, 6))
      else Some((r, 6))
  }

  predicate HexEscape(t: Bytes) {
    |t| >= 6 && t[0] == BACKSLASH && t[1] == LOWER_U && Hex4(t[2..6])
  }

  datatype Option<T> = None | Some(value: T)

  /** What an escape at the start decodes to, and the bytes it took; None where no escape begins. */
  function EscapeAt(s: Bytes): (r: Option<(Bytes, nat)>)
    requires s != []
    ensures r.Some? ==> s[0] == BACKSLASH && r.value.0 != [] && |r.value.0| < r.value.1 <= |s|
    ensures r.Some? ==> forall k :: 0 <= k < r.value.1 ==> s[k] < 0x80
    ensures r.Some? && |r.value.0| > 1 ==> forall k :: 0 <= k < |r.value.0| ==> r.value.0[k] >= 0x80
  {
    if s[0] != BACKSLASH || |s| == 1 then None
    else if SimpleEscape(s[1]) then Some(([Escaped(s[1])], 2))
    else if s[1] == LOWER_U && EscapedRune(s).Some? then
      var r := EscapedRune(s).value;
      EscapeIsAscii(s);
      Some((Encode(r.0), r.1))
    else None
  }

  lemma EscapeIsAscii(s: Bytes)
    requires EscapedRune(s).Some?
    ensures EscapedRune(s).value.0 <= 0x10FFFF && 6 <= EscapedRune(s).value.1 <= |s|
    ensures forall k :: 0 <= k < EscapedRune(s).value.1 ==> s[k] < 0x80
    ensures |Encode(EscapedRune(s).value.0)| > 1 ==>
              forall k :: 0 <= k < |Encode(EscapedRune(s).value.0)| ==> Encode(EscapedRune(s).value.0)[k] >= 0x80
  {
    HexIsAscii(s);
    if EscapedRune(s).value.1 == 12 { HexIsAscii(s[6..]); }
  }

  lemma HexIsAscii(t: Bytes)
    requires HexEscape(t)
    ensures forall k :: 0 <= k < 6 ==> t[k] < 0x80
  {
    assert t[2] == t[2..6][0] && t[3] == t[2..6][1] && t[4] == t[2..6][2] && t[5] == t[2..6][3];
  }

  /** An escape decodes to the UTF-8 of the code point it spells, and takes all its own bytes. */
  lemma EscapeSays(u: Unit, rest: Bytes)
    requires OkUnit(u) && !u.Raw?
    ensures UnitText(u) + rest != [] && EscapeAt(UnitText(u) + rest) == Some((Encode(PointOf(u)), |UnitText(u)|))
  {
    hide Encode, HexValue, Hex, CharLength;
    var s := UnitText(u) + rest;
    if u.Escape? {
      EscapeSpells(u.c);
      assert s[0] == BACKSLASH && s[1] == u.c;
    } else if u.Code? {
      assert s[2..6] == u.h && s[0] == BACKSLASH && s[1] == LOWER_U;
    } else {
      assert s[2..6] == u.hi && s[0] == BACKSLASH && s[1] == LOWER_U;
      assert s[6..][2..6] == u.lo && s[6..][0] == BACKSLASH && s[6..][1] == LOWER_U;
    }
  }

  /** A surrogate half without its other half decodes to U+FFFD. */
  lemma LoneHalf(h: Bytes, rest: Bytes)
    requires Hex4(h) && (High(HexValue(h)) || Low(HexValue(h)))
    requires High(HexValue(h)) ==> !(HexEscape(rest) && Low(HexValue(rest[2..6])))
    ensures EscapeAt([BACKSLASH, LOWER_U] + h + rest) == Some(([0xEF, 0xBF, 0xBD], 6))
  {
    hide HexValue, Hex;
    var s := [BACKSLASH, LOWER_U] + h + rest;
    assert s[2..6] == h && s[6..] == rest;
  }

  /** Where no escape begins, nothing is decoded. */
  lemma NoEscape(s: Bytes)
    requires s != []
    ensures EscapeAt(s).None? <==> !(|s| > 1 && s[0] == BACKSLASH && (s[1] as char in ESCAPES || HexEscape(s)))
  {
    hide HexValue, Hex;
    if |s| > 1 { EscapeSpells(s[1]); }
  }

  /** Bytes that all came from one stretch. */
  function Piece(bs: Bytes, from: nat, until: nat): (p: View)
    ensures Shaped(p) && p.text == bs
    ensures forall k :: 0 <= k < |bs| ==> p.from[k] == from && p.until[k] == until
  {
    View(bs, seq(|bs|, k => from), seq(|bs|, k => until))
  }

  function Join(a: View, b: View): View {
    View(a.text + b.text, a.from + b.from, a.until + b.until)
  }

  /** What the view from byte i on decodes to. */
  function Rest(v: View, i: nat): (r: View)
    requires Shaped(v) && i <= |v.text|
    ensures Shaped(r)
    decreases |v.text| - i
  {
    if i == |v.text| then NO_VIEW
    else
      var e := EscapeAt(v.text[i..]);
      if e.None? then Join(Piece(v.text[i..i+1], v.from[i], v.until[i]), Rest(v, i + 1))
      else Join(Piece(e.value.0, v.from[i], v.until[i + e.value.1 - 1]), Rest(v, i + e.value.1))
  }

  /** The view with one more level of escapes decoded. */
  function Unescaped(v: View): (r: View)
    requires Shaped(v)
    ensures Shaped(r)
  {
    Rest(v, 0)
  }

  lemma PieceTiles(bs: Bytes, from: nat, until: nat)
    requires bs != [] && from < until && (|bs| > 1 ==> forall k :: 0 <= k < |bs| ==> bs[k] >= 0x80)
    ensures Tiles(Piece(bs, from, until), from, until)
  {
  }

  /** Two tilings that meet tile both. */
  lemma JoinTiles(p: View, r: View, a: nat, b: nat, c: nat)
    requires Tiles(p, a, b) && Tiles(r, b, c)
    ensures Tiles(Join(p, r), a, c)
  {
    var j := Join(p, r);
    forall k | 0 < k < |j.text| ensures Follows(j, k) {
      if k < |p.text| { assert Follows(p, k); }
      else if k > |p.text| { assert Follows(r, k - |p.text|); }
    }
  }

  /** One byte in front of a tiling it follows, or of one that begins with a byte of its own stretch. */
  lemma ByteJoins(x: Byte, from: nat, until: nat, r: View, b: nat, c: nat)
    requires from < until && Tiles(r, b, c) && r.text != []
    requires b == until || (r.from[0] == from && r.until[0] == until && x >= 0x80 && r.text[0] >= 0x80)
    ensures Tiles(Join(Piece([x], from, until), r), from, c)
  {
    var j := Join(Piece([x], from, until), r);
    forall k | 0 < k < |j.text| ensures Follows(j, k) {
      if k > 1 { assert Follows(r, k - 1); }
    }
  }

  /** What the view from byte i decodes to begins with byte i, when no escape stands there. */
  lemma RestFirst(v: View, i: nat)
    requires Shaped(v) && i < |v.text|
    ensures Rest(v, i).text != [] && Rest(v, i).from[0] == v.from[i]
    ensures v.text[i] >= 0x80 ==> Rest(v, i).text[0] == v.text[i] && Rest(v, i).until[0] == v.until[i]
  {
    hide Rest;
    RestNext(v, i);
  }

  lemma RestNext(v: View, i: nat)
    requires Shaped(v) && i < |v.text|
    ensures var e := EscapeAt(v.text[i..]);
            Rest(v, i) == if e.None? then Join(Piece([v.text[i]], v.from[i], v.until[i]), Rest(v, i + 1))
                          else Join(Piece(e.value.0, v.from[i], v.until[i + e.value.1 - 1]), Rest(v, i + e.value.1))
  {
    assert v.text[i..i+1] == [v.text[i]];
  }

  /** Decoding keeps the tiling. */
  lemma {:induction false} RestTiles(v: View, a: nat, b: nat, i: nat)
    requires Tiles(v, a, b) && i < |v.text|
    ensures Tiles(Rest(v, i), v.from[i], b)
    decreases |v.text| - i
  {
    hide Rest, EscapeAt, Join;
    RestNext(v, i);
    var e := EscapeAt(v.text[i..]);
    if e.None? {
      if i + 1 == |v.text| {
        EndsHere(v, i + 1);
        PieceTiles([v.text[i]], v.from[i], v.until[i]);
        JoinTiles(Piece([v.text[i]], v.from[i], v.until[i]), NO_VIEW, v.from[i], b, b);
      } else {
        RestTiles(v, a, b, i + 1);
        RestFirst(v, i + 1);
        assert Follows(v, i + 1);
        ByteJoins(v.text[i], v.from[i], v.until[i], Rest(v, i + 1), v.from[i+1], b);
      }
    } else {
      var n := e.value.1;
      var last := i + n - 1;
      assert v.text[i..][n - 1] == v.text[last];
      StretchesRise(v, a, b, i, last);
      assert v.from[last] < v.until[last];
      PieceTiles(e.value.0, v.from[i], v.until[last]);
      if last + 1 == |v.text| {
        EndsHere(v, i + n);
        JoinTiles(Piece(e.value.0, v.from[i], v.until[last]), NO_VIEW, v.from[i], b, b);
      } else {
        RestTiles(v, a, b, i + n);
        assert Follows(v, i + n);
        JoinTiles(Piece(e.value.0, v.from[i], v.until[last]), Rest(v, i + n), v.from[i], v.until[last], b);
      }
    }
  }

  lemma EndsHere(v: View, i: nat)
    requires Shaped(v) && i == |v.text|
    ensures Rest(v, i) == NO_VIEW
    ensures forall b :: Tiles(NO_VIEW, b, b)
  {
  }

  /** Decodes one more level of escapes, byte by byte; decoded is false when there was none. */
  method Unescape(v: View) returns (out: View, decoded: bool)
    requires Shaped(v)
    ensures out == Unescaped(v)
    ensures decoded <==> out != v
  {
    hide EscapeAt, Rest;
    out, decoded := NO_VIEW, false;
    var i: nat := 0;
    JoinNothing(Rest(v, 0));
    while i < |v.text|
      invariant i <= |v.text| && Shaped(out)
      invariant Join(out, Rest(v, i)) == Rest(v, 0)
      invariant !decoded ==> out == View(v.text[..i], v.from[..i], v.until[..i])
      invariant if decoded then |out.text| < i else |out.text| == i
      decreases |v.text| - i
    {
      RestNext(v, i);
      var e := EscapeAt(v.text[i..]);
      if e.None? {
        JoinTwice(out, Piece([v.text[i]], v.from[i], v.until[i]), Rest(v, i + 1));
        out := Join(out, Piece([v.text[i]], v.from[i], v.until[i]));
        i := i + 1;
      } else {
        JoinTwice(out, Piece(e.value.0, v.from[i], v.until[i + e.value.1 - 1]), Rest(v, i + e.value.1));
        out := Join(out, Piece(e.value.0, v.from[i], v.until[i + e.value.1 - 1]));
        decoded := true;
        i := i + e.value.1;
      }
    }
    EndsHere(v, i);
    JoinEnds(out);
  }

  lemma JoinNothing(r: View)
    ensures Join(NO_VIEW, r) == r
  {
    assert [] + r.text == r.text && [] + r.from == r.from && [] + r.until == r.until;
  }

  lemma JoinEnds(r: View)
    ensures Join(r, NO_VIEW) == r
  {
    assert r.text + [] == r.text && r.from + [] == r.from && r.until + [] == r.until;
  }

  lemma JoinTwice(a: View, b: View, c: View)
    ensures Join(a, Join(b, c)) == Join(Join(a, b), c)
  {
    assert a.text + (b.text + c.text) == a.text + b.text + c.text;
    assert a.from + (b.from + c.from) == a.from + b.from + c.from;
    assert a.until + (b.until + c.until) == a.until + b.until + c.until;
  }

  /** The view with this many more levels decoded. */
  function Levels(v: View, level: nat): (r: View)
    requires Shaped(v)
    ensures Shaped(r)
  {
    if level == 0 then v else Unescaped(Levels(v, level - 1))
  }

  /** A text's view with this many levels decoded. */
  function ViewAt(s: Bytes, level: nat): (v: View)
    ensures Shaped(v)
  {
    Levels(ViewOf(s), level)
  }

  lemma {:induction false} LevelsNext(v: View, level: nat)
    requires Shaped(v)
    ensures Levels(Unescaped(v), level) == Levels(v, level + 1)
  {
    hide Unescaped;
    if level > 0 { LevelsNext(v, level - 1); }
  }

  lemma {:induction false} LevelsStay(v: View, level: nat)
    requires Shaped(v) && Unescaped(v) == v
    ensures Levels(v, level) == v
  {
    hide Unescaped;
    if level > 0 { LevelsStay(v, level - 1); }
  }

  lemma {:induction false} LevelsTile(v: View, n: nat, level: nat)
    requires Tiles(v, 0, n)
    ensures Tiles(Levels(v, level), 0, n)
  {
    hide Unescaped;
    if level > 0 {
      LevelsTile(v, n, level - 1);
      UnescapedTiles(Levels(v, level - 1), n);
    }
  }

  /** At every level the stretches are in order and tile the original text. */
  lemma ViewsTile(s: Bytes, level: nat)
    ensures Tiles(ViewAt(s, level), 0, |s|)
  {
    ViewOfTiles(s);
    LevelsTile(ViewOf(s), |s|, level);
  }

  lemma UnescapedTiles(v: View, n: nat)
    requires Tiles(v, 0, n)
    ensures Tiles(Unescaped(v), 0, n)
  {
    hide Rest;
    if v.text == [] { EndsHere(v, 0); } else { RestTiles(v, 0, n, 0); }
  }
}
