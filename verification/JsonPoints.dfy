/**
 What a JSON string says: the code points its characters spell, raw, by a
 two-character escape, or by \u escapes and surrogate pairs (section 7 of RFC 8259),
 and that the bytes it decodes to are those code points in UTF-8 (section 3 of RFC 3629).
 */
module JsonPoints {
  import opened JsonGrammar

  /** A code point that is no surrogate half. */
  predicate Scalar(cp: nat) {
    cp <= 0x10FFFF && !(0xD800 <= cp <= 0xDFFF)
  }

  // ---------------------------------------------------------------------
  // UTF-8.
  // ---------------------------------------------------------------------

  /** The code point one well-formed UTF-8 character stands for: the bits its bytes carry, six to each tail byte. */
  function PointRead(bs: Bytes): int
    requires bs != [] && CharLength(bs) == |bs|
  {
    if |bs| == 1 then Bits(bs[0], 0)
    else if |bs| == 2 then Bits(bs[0], 0xC0) * 64 + Bits(bs[1], 0x80)
    else if |bs| == 3 then (Bits(bs[0], 0xE0) * 64 + Bits(bs[1], 0x80)) * 64 + Bits(bs[2], 0x80)
    else ((Bits(bs[0], 0xF0) * 64 + Bits(bs[1], 0x80)) * 64 + Bits(bs[2], 0x80)) * 64 + Bits(bs[3], 0x80)
  }

  /** What a byte carries beside its marker. */
  function Bits(b: nat, marker: nat): int {
    b - marker
  }

  /** Every code point but the surrogate halves is written as one well-formed character, which reads as it. */
  lemma EncodeReads(cp: nat)
    requires Scalar(cp)
    ensures CharLength(Encode(cp)) == |Encode(cp)| && PointRead(Encode(cp)) == cp
  {
    if cp > 0xFFFF {
      LongReads(cp);
    } else {
      SixBits(cp);
      SixBits(cp / 64);
    }
  }

  lemma LongReads(cp: nat)
    requires 0xFFFF < cp <= 0x10FFFF
    ensures CharLength(Encode(cp)) == 4 && |Encode(cp)| == 4 && PointRead(Encode(cp)) == cp
  {
    SixBits(cp);
    SixBits(cp / 64);
    SixBits(cp / 4096);
  }

  lemma SixBits(x: nat)
    ensures x == x / 64 * 64 + x % 64 && x % 64 < 64 && x / 64 / 64 == x / 4096 && x / 4096 / 64 == x / 262144
  {
  }

  lemma SixMore(q: int, r: int)
    requires 0 <= q && 0 <= r < 64
    ensures (q * 64 + r) / 64 == q && (q * 64 + r) % 64 == r
  {
  }

  /** And every well-formed character is how the code point it reads as is written. */
  lemma ReadEncodes(bs: Bytes)
    requires bs != [] && CharLength(bs) == |bs|
    ensures 0 <= PointRead(bs) && Scalar(PointRead(bs)) && Encode(PointRead(bs)) == bs
  {
    var a := bs[0];
    if |bs| == 2 {
      SixMore(Bits(a, 0xC0), Bits(bs[1], 0x80));
    } else if |bs| == 3 {
      Read3(bs);
    } else if |bs| == 4 {
      Read4(bs);
    }
  }

  lemma Read3(bs: Bytes)
    requires |bs| == 3 && CharLength(bs) == 3
    ensures 0 <= PointRead(bs) && Scalar(PointRead(bs)) && Encode(PointRead(bs)) == bs
  {
    var x, y, z: int := Bits(bs[0], 0xE0), Bits(bs[1], 0x80), Bits(bs[2], 0x80);
    SixMore(x, y);
    SixMore(x * 64 + y, z);
    SixBits(PointRead(bs));
  }

  lemma Read4(bs: Bytes)
    requires |bs| == 4 && CharLength(bs) == 4
    ensures 0 <= PointRead(bs) && Scalar(PointRead(bs)) && Encode(PointRead(bs)) == bs
  {
    var x, y, z, w: int := Bits(bs[0], 0xF0), Bits(bs[1], 0x80), Bits(bs[2], 0x80), Bits(bs[3], 0x80);
    SixMore(x, y);
    SixMore(x * 64 + y, z);
    SixMore((x * 64 + y) * 64 + z, w);
    SixBits(PointRead(bs));
    SixBits(PointRead(bs) / 64);
  }

  /** Where a character ends is said by its own bytes. */
  lemma LengthAlone(bs: Bytes, more: Bytes)
    requires bs != [] && CharLength(bs) == |bs|
    ensures CharLength(bs + more) == |bs|
  {
  }

  /** Code points in UTF-8, one after another. */
  function Utf8(cps: seq<nat>): Bytes
    requires forall k :: 0 <= k < |cps| ==> Scalar(cps[k])
  {
    if cps == [] then []
    else
      assert Scalar(cps[0]);
      Encode(cps[0]) + Utf8(cps[1..])
  }

  /** Different code points are written as different bytes. */
  lemma {:induction false} Utf8Injective(a: seq<nat>, b: seq<nat>)
    requires forall k :: 0 <= k < |a| ==> Scalar(a[k])
    requires forall k :: 0 <= k < |b| ==> Scalar(b[k])
    ensures Utf8(a) == Utf8(b) ==> a == b
  {
    hide Encode, CharLength;
    if a != [] && b != [] && Utf8(a) == Utf8(b) {
      var x, y := Encode(a[0]), Encode(b[0]);
      EncodeReads(a[0]);
      EncodeReads(b[0]);
      LengthAlone(x, Utf8(a[1..]));
      LengthAlone(y, Utf8(b[1..]));
      assert Utf8(a)[..|x|] == x && Utf8(a)[|x|..] == Utf8(a[1..]);
      assert Utf8(b)[..|y|] == y && Utf8(b)[|y|..] == Utf8(b[1..]);
      Utf8Injective(a[1..], b[1..]);
      assert a == [a[0]] + a[1..] && b == [b[0]] + b[1..];
    }
  }

  // ---------------------------------------------------------------------
  // Hexadecimal digits.
  // ---------------------------------------------------------------------

  /** A digit of value v: 0 to 9, then a to f in either case for ten to fifteen. */
  predicate DigitOf(b: nat, v: int) {
    || (0 <= v < 10 && b == '0' as nat + v)
    || (10 <= v < 16 && (b == 'a' as nat + (v - 10) || b == 'A' as nat + (v - 10)))
  }

  lemma HexDigitIs(b: Byte)
    ensures Hex(b) <==> exists v :: DigitOf(b, v)
    ensures Hex(b) ==> HexDigit(b) < 16 && forall v :: DigitOf(b, v) <==> v == HexDigit(b)
  {
    if Hex(b) {
      assert DigitOf(b, HexDigit(b));
    }
  }

  /** Four digits spell a number: its sixteens, the last digit the ones. */
  predicate Spell(h: Bytes, v: nat) {
    && |h| == 4 && v <= 0xFFFF
    && DigitOf(h[0], v / 4096) && DigitOf(h[1], v / 256 % 16) && DigitOf(h[2], v / 16 % 16) && DigitOf(h[3], v % 16)
  }

  lemma FourDigits(a: nat, b: nat, c: nat, d: nat)
    requires a < 16 && b < 16 && c < 16 && d < 16
    ensures var v := ((a * 16 + b) * 16 + c) * 16 + d;
            v / 4096 == a && v / 256 % 16 == b && v / 16 % 16 == c && v % 16 == d
  {
  }

  lemma SixteensOf(v: nat)
    ensures v == ((v / 4096 * 16 + v / 256 % 16) * 16 + v / 16 % 16) * 16 + v % 16
  {
    var a, b := v / 16, v / 256;
    assert a / 16 == b && b / 16 == v / 4096;
    assert v == 16 * a + v % 16 && a == 16 * b + a % 16 && b == 16 * (b / 16) + b % 16;
  }

  lemma HexValueIs(h: Bytes)
    ensures (exists v: nat :: Spell(h, v)) <==> Hex4(h)
    ensures Hex4(h) ==> forall v: nat :: Spell(h, v) <==> v == HexValue(h)
  {
    hide Hex, HexDigit, DigitOf;
    if v: nat :| Spell(h, v) {
      HexDigitIs(h[0]);
      HexDigitIs(h[1]);
      HexDigitIs(h[2]);
      HexDigitIs(h[3]);
    }
    if Hex4(h) {
      HexDigitIs(h[0]);
      HexDigitIs(h[1]);
      HexDigitIs(h[2]);
      HexDigitIs(h[3]);
      FourDigits(HexDigit(h[0]), HexDigit(h[1]), HexDigit(h[2]), HexDigit(h[3]));
      assert Spell(h, HexValue(h));
      forall v: nat ensures Spell(h, v) <==> v == HexValue(h) { SixteensOf(v); }
    }
  }

  // ---------------------------------------------------------------------
  // What a character of a string spells.
  // ---------------------------------------------------------------------

  /** The two-character escapes, with what they stand for. */
  const ESCAPES: map<char, nat> := map['"' := 0x22, '\\' := 0x5C, '/' := 0x2F,
                                       'b' := 0x8, 'f' := 0xC, 'n' := 0xA, 'r' := 0xD, 't' := 0x9]

  /** A character of a string spells a code point. */
  predicate Spells(u: Unit, cp: nat) {
    match u
    case Raw(bs) => bs != [] && CharLength(bs) == |bs| && PointRead(bs) == cp
    case Escape(c) => c as char in ESCAPES && ESCAPES[c as char] == cp
    case Code(h) => Spell(h, cp)
    case Pair(hi, lo) =>
      0x10000 <= cp <= 0x10FFFF && Spell(hi, 0xD800 + (cp - 0x10000) / 1024)
        && Spell(lo, 0xDC00 + (cp - 0x10000) % 1024)
  }

  /** The code point a character of a string spells. */
  function PointOf(u: Unit): nat
    requires OkUnit(u)
  {
    match u
    case Raw(bs) => PointRead(bs)
    case Escape(c) => Escaped(c)
    case Code(h) => HexValue(h)
    case Pair(hi, lo) => 0x10000 + (HexValue(hi) - 0xD800) * 0x400 + (HexValue(lo) - 0xDC00)
  }

  /** Every character spells one code point, and decodes to its UTF-8. */
  lemma UnitSpells(u: Unit)
    requires OkUnit(u)
    ensures Scalar(PointOf(u)) && (forall cp: nat :: Spells(u, cp) <==> cp == PointOf(u))
    ensures Decoded(u) == Encode(PointOf(u))
  {
    hide HexValue, Encode, PointRead, Spell;
    match u
    case Raw(bs) => ReadEncodes(bs);
    case Escape(c) => EscapeSpells(c);
    case Code(h) => HexValueIs(h);
    case Pair(hi, lo) =>
      HexValueIs(hi);
      HexValueIs(lo);
  }

  lemma EscapeSpells(c: Byte)
    ensures SimpleEscape(c) <==> c as char in ESCAPES
    ensures SimpleEscape(c) ==>
              ESCAPES[c as char] == Escaped(c) && Scalar(Escaped(c)) && Encode(Escaped(c)) == [Escaped(c)]
  {
  }

  /** The code points a string spells. */
  function PointsOf(us: seq<Unit>): (cps: seq<nat>)
    requires OkUnits(us)
    ensures |cps| == |us| && forall k :: 0 <= k < |us| ==> cps[k] == PointOf(us[k])
  {
    seq(|us|, k requires 0 <= k < |us| => PointOf(us[k]))
  }

  /** A string decodes to the UTF-8 of the code points it spells, however each is spelled. */
  lemma {:induction false} StringSays(us: seq<Unit>)
    requires OkUnits(us)
    ensures forall k :: 0 <= k < |us| ==> Scalar(PointsOf(us)[k]) && Spells(us[k], PointsOf(us)[k])
    ensures DecodedAll(us) == Utf8(PointsOf(us))
  {
    hide OkUnit, Decoded, PointOf, Spells, Encode;
    if us != [] {
      UnitSpells(us[0]);
      StringSays(us[1..]);
      var cps := PointsOf(us);
      assert PointsOf(us[1..]) == cps[1..];
      forall k | 0 <= k < |us| ensures Scalar(cps[k]) && Spells(us[k], cps[k]) { UnitSpells(us[k]); }
    }
  }

  /** Two names are the same exactly when they spell the same code points, whatever escapes each uses. */
  lemma {:induction false} SameName(us: seq<Unit>, vs: seq<Unit>)
    requires OkUnits(us) && OkUnits(vs)
    ensures DecodedAll(us) == DecodedAll(vs) <==> PointsOf(us) == PointsOf(vs)
  {
    hide OkUnit, DecodedAll, PointsOf, Spells, Utf8;
    StringSays(us);
    StringSays(vs);
    Utf8Injective(PointsOf(us), PointsOf(vs));
  }

  /** Every code point can be spelled: below U+10000 by one \u escape, above by a surrogate pair. */
  lemma {:induction false} PointSpelled(cp: nat, hi: Bytes, lo: Bytes)
    requires Scalar(cp)
    ensures Spell(hi, cp) ==> OkUnit(Code(hi)) && Decoded(Code(hi)) == Encode(cp)
    ensures cp >= 0x10000 && Spell(hi, 0xD800 + (cp - 0x10000) / 1024) && Spell(lo, 0xDC00 + (cp - 0x10000) % 1024) ==>
              OkUnit(Pair(hi, lo)) && Decoded(Pair(hi, lo)) == Encode(cp)
  {
    hide HexValue, Encode, Spell;
    HexValueIs(hi);
    HexValueIs(lo);
  }

  // ---------------------------------------------------------------------
  // The other bytes of the grammar.
  // ---------------------------------------------------------------------

  /** A text of ASCII characters, as bytes. */
  function Ascii(s: string): (bs: Bytes)
    requires forall k :: 0 <= k < |s| ==> s[k] < 128 as char
    ensures |bs| == |s| && forall k :: 0 <= k < |s| ==> bs[k] == s[k] as nat
  {
    seq(|s|, k requires 0 <= k < |s| => s[k] as nat)
  }

  /** The grammar's bytes are the characters RFC 8259 names. */
  lemma BytesAre(b: Byte)
    ensures Space(b) <==> b as char in [' ', '\t', '\n', '\r']
    ensures Digit(b) <==> '0' <= b as char <= '9'
    ensures ExpMark([b]) <==> b as char in ['e', 'E']
    ensures [QUOTE, BACKSLASH, LOWER_U, COMMA, COLON] == Ascii("\"\\u,:") && [MINUS, PLUS, DOT, ZERO] == Ascii("-+.0")
    ensures [OpenByte(Object), CloseByte(Object), OpenByte(Array), CloseByte(Array)] == Ascii("{}[]")
    ensures WordText(True) == Ascii("true") && WordText(False) == Ascii("false") && WordText(Null) == Ascii("null")
  {
  }

  /** A number's digits are decimal: each one more makes ten of what stands before it, and itself. */
  lemma {:induction false} DecimalIs(d: Bytes, b: Byte, v: nat)
    requires Digits(d) && Digit(b) && v < 10 && b == '0' as nat + v
    ensures Digits(d + [b]) && Decimal(d + [b]) == 10 * Decimal(d) + v
  {
    assert (d + [b])[..|d + [b]| - 1] == d;
  }
}
