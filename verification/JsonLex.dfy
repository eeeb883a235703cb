/**
 Reading the strings, numbers and literal names of a JSON text: each reader
 takes exactly what the grammar spells, and nothing else can be read there.
 */
module JsonLex {
  import opened JsonGrammar

  /** What was read and what is left, or nothing the grammar allows. */
  datatype Lexed<T> = Read(value: T, rest: Bytes) | Bad

  function SkipSpaces(s: Bytes): (r: Bytes)
    ensures |r| <= |s|
    ensures r != [] ==> !Space(r[0])
  {
    if s != [] && Space(s[0]) then SkipSpaces(s[1..]) else s
  }

  lemma {:induction false} SkipsAll(w: Bytes, r: Bytes)
    requires Spaces(w) && (r == [] || !Space(r[0]))
    ensures SkipSpaces(w + r) == r
  {
    if w == [] {
      assert w + r == r;
    } else {
      assert (w + r)[1..] == w[1..] + r;
      SkipsAll(w[1..], r);
    }
  }

  /** What was skipped is whitespace. */
  lemma {:induction false} Skipped(s: Bytes) returns (w: Bytes)
    ensures Spaces(w) && s == w + SkipSpaces(s)
  {
    if s != [] && Space(s[0]) {
      var rest := Skipped(s[1..]);
      w := [s[0]] + rest;
      assert s == [s[0]] + s[1..];
    } else {
      w := [];
      assert s == w + s;
    }
  }

  // ---------------------------------------------------------------------
  // Strings.
  // ---------------------------------------------------------------------

  datatype Option<T> = None | Some(value: T)

  /** The character a text starts with, where one stands there. */
  function FirstUnit(s: Bytes): (u: Option<Unit>)
    ensures u.Some? ==> OkUnit(u.value) && UnitText(u.value) <= s && UnitText(u.value) != [] && s[0] != QUOTE
  {
    if s == [] || s[0] == QUOTE then None
    else if s[0] == BACKSLASH then
      if |s| >= 2 && SimpleEscape(s[1]) then Some(Escape(s[1]))
      else if |s| >= 6 && s[1] == LOWER_U && Hex4(s[2..6]) then FirstCode(s)
      else None
    else
      var n := CharLength(s);
      if n == 0 || s[0] < 0x20 then None
      else
        CharAlone(s);
        Some(Raw(s[..n]))
  }

  function FirstCode(s: Bytes): (u: Option<Unit>)
    requires |s| >= 6 && s[0] == BACKSLASH && s[1] == LOWER_U && Hex4(s[2..6])
    ensures u.Some? ==> OkUnit(u.value) && UnitText(u.value) <= s && UnitText(u.value) != []
  {
    var h := s[2..6];
    if !High(HexValue(h)) && !Low(HexValue(h)) then
      assert s[..6] == UnitText(Code(h));
      Some(Code(h))
    else if High(HexValue(h)) && |s| >= 12 && s[6] == BACKSLASH && s[7] == LOWER_U && Hex4(s[8..12])
      && Low(HexValue(s[8..12])) then
      assert s[..12] == UnitText(Pair(h, s[8..12]));
      Some(Pair(h, s[8..12]))
    else None
  }

  /** A character's length does not depend on what follows it. */
  lemma CharAlone(s: Bytes)
    ensures CharLength(s) > 0 ==> CharLength(s[..CharLength(s)]) == CharLength(s)
  {
  }

  lemma CharFirst(bs: Bytes, r: Bytes)
    requires bs != [] && CharLength(bs) == |bs|
    ensures CharLength(bs + r) == |bs|
  {
  }

  /** The character a text is spelt with first is the one read. */
  lemma UnitFirst(u: Unit, r: Bytes)
    requires OkUnit(u)
    ensures FirstUnit(UnitText(u) + r) == Some(u)
  {
    var s := UnitText(u) + r;
    match u {
      case Raw(bs) =>
        CharFirst(bs, r);
        assert s[..|bs|] == bs;
      case Escape(c) =>
      case Code(h) =>
        assert s[2..6] == h;
      case Pair(hi, lo) =>
        assert s[2..6] == hi;
        assert s[8..12] == lo;
    }
  }

  /** Reads characters up to the closing quote; size is the decoded bytes read before. */
  function LexUnits(s: Bytes, size: nat): (r: Lexed<seq<Unit>>)
    requires size <= MAX_STRING
    ensures r.Read? ==> |r.rest| < |s| && OkUnits(r.value)
    decreases |s|
  {
    if s == [] then Bad
    else if s[0] == QUOTE then Read([], s[1..])
    else
      match FirstUnit(s)
      case None => Bad
      case Some(u) =>
        if size + |Decoded(u)| > MAX_STRING then Bad
        else
          match LexUnits(s[|UnitText(u)|..], size + |Decoded(u)|)
          case Bad => Bad
          case Read(us, rest) => Read([u] + us, rest)
  }

  lemma {:induction false} UnitsSound(s: Bytes, size: nat)
    requires size <= MAX_STRING && LexUnits(s, size).Read?
    ensures
      var r := LexUnits(s, size);
      && OkUnits(r.value) && size + |DecodedAll(r.value)| <= MAX_STRING
      && s == UnitsText(r.value) + ([QUOTE] + r.rest)
    decreases |s|
  {
    hide FirstUnit, UnitText, OkUnit, Decoded;
    if s[0] == QUOTE {
      assert s == [QUOTE] + s[1..];
    } else {
      var u := FirstUnit(s).value;
      var n := |UnitText(u)|;
      UnitsSound(s[n..], size + |Decoded(u)|);
      var us := LexUnits(s[n..], size + |Decoded(u)|).value;
      assert ([u] + us)[1..] == us;
      assert s == UnitText(u) + s[n..];
    }
  }

  lemma {:induction false} UnitsComplete(us: seq<Unit>, size: nat, rest: Bytes)
    requires OkUnits(us) && size + |DecodedAll(us)| <= MAX_STRING
    ensures LexUnits(UnitsText(us) + ([QUOTE] + rest), size) == Read(us, rest)
  {
    hide FirstUnit, UnitText, OkUnit, Decoded;
    var s := UnitsText(us) + ([QUOTE] + rest);
    if us == [] {
      assert s == [QUOTE] + rest;
    } else {
      var u, n := us[0], |UnitText(us[0])|;
      var after := UnitsText(us[1..]) + ([QUOTE] + rest);
      assert s == UnitText(u) + after;
      UnitFirst(u, after);
      assert s[n..] == after;
      assert us == [u] + us[1..];
      UnitsComplete(us[1..], size + |Decoded(u)|, rest);
    }
  }

  /** Reads a string from its opening quote. */
  function LexString(s: Bytes): (r: Lexed<seq<Unit>>)
    requires s != [] && s[0] == QUOTE
    ensures r.Read? ==> OkUnits(r.value) && |r.rest| < |s|
  {
    LexUnits(s[1..], 0)
  }

  /** A string is read exactly where the grammar spells one within the limit. */
  lemma StringExact(s: Bytes, us: seq<Unit>, rest: Bytes)
    requires s != [] && s[0] == QUOTE
    ensures LexString(s) == Read(us, rest) <==> OkString(us) && s == StringText(us) + rest
  {
    hide LexUnits, UnitsText, DecodedAll, OkUnits;
    if LexString(s) == Read(us, rest) {
      UnitsSound(s[1..], 0);
      assert s == [QUOTE] + s[1..];
      assert s == StringText(us) + rest;
    }
    if OkString(us) && s == StringText(us) + rest {
      UnitsComplete(us, 0, rest);
      assert s[1..] == UnitsText(us) + ([QUOTE] + rest);
    }
  }

  // ---------------------------------------------------------------------
  // Literal names.
  // ---------------------------------------------------------------------

  function LexWord(s: Bytes, w: Word): Lexed<Word> {
    if WordText(w) <= s then Read(w, s[|WordText(w)|..]) else Bad
  }

  // ---------------------------------------------------------------------
  // Numbers.
  // ---------------------------------------------------------------------

  /** How many digits a text starts with. */
  function DigitRun(s: Bytes): (n: nat)
    ensures n <= |s| && Digits(s[..n]) && (n < |s| ==> !Digit(s[n]))
  {
    if s != [] && Digit(s[0]) then
      var n := 1 + DigitRun(s[1..]);
      assert s[..n] == [s[0]] + s[1..][..n - 1];
      n
    else 0
  }

  lemma {:induction false} RunExact(d: Bytes, r: Bytes)
    requires Digits(d) && (r == [] || !Digit(r[0]))
    ensures DigitRun(d + r) == |d|
  {
    if d != [] {
      assert (d + r)[1..] == d[1..] + r;
      RunExact(d[1..], r);
    } else {
      assert d + r == r;
    }
  }

  function StartsWith(s: Bytes, b: Byte): bool {
    s != [] && s[0] == b
  }

  /** The fraction after a number's whole part. */
  function LexFrac(s: Bytes): Lexed<Bytes> {
    if !StartsWith(s, DOT) then Read([], s)
    else
      var n := DigitRun(s[1..]);
      if n == 0 then Bad else Read(s[1..][..n], s[1..][n..])
  }

  /** The exponent after a number's fraction: its mark and its digits. */
  function LexExp(s: Bytes): Lexed<(Bytes, Bytes)> {
    if s == [] || (s[0] != 0x65 && s[0] != 0x45) then Read(([], []), s)
    else
      var signed := |s| >= 2 && (s[1] == PLUS || s[1] == MINUS);
      var m := if signed then 2 else 1;
      var n := DigitRun(s[m..]);
      if n == 0 then Bad else Read((s[..m], s[m..][..n]), s[m..][n..])
  }

  /** What follows a number's whole part: fraction, exponent mark and exponent digits. */
  function LexTail(u: Bytes): Lexed<(Bytes, Bytes, Bytes)> {
    match LexFrac(u)
    case Bad => Bad
    case Read(frac, v) =>
      match LexExp(v)
      case Bad => Bad
      case Read(e, rest) => Read((frac, e.0, e.1), rest)
  }

  function LexUnsigned(minus: bool, t: Bytes): Lexed<Number> {
    var n := DigitRun(t);
    if n == 0 || (t[0] == ZERO && n > 1) then Bad
    else
      match LexTail(t[n..])
      case Bad => Bad
      case Read(f, rest) => Read(Number(minus, t[..n], f.0, f.1, f.2), rest)
  }

  /** Reads a number, as far as it goes. */
  function LexNumber(s: Bytes): Lexed<Number> {
    if StartsWith(s, MINUS) then LexUnsigned(true, s[1..]) else LexUnsigned(false, s)
  }

  /** What may follow a value: nothing, whitespace, a comma or the end of a container. */
  predicate Stops(r: Bytes) {
    r == [] || Space(r[0]) || r[0] == COMMA || r[0] == 0x5D || r[0] == 0x7D
  }

  lemma FracSound(s: Bytes)
    requires LexFrac(s).Read?
    ensures
      var r := LexFrac(s);
      Digits(r.value) && s == (if r.value == [] then [] else [DOT] + r.value) + r.rest
  {
    if StartsWith(s, DOT) {
      assert s == [DOT] + s[1..];
    }
  }

  lemma FracComplete(frac: Bytes, rest: Bytes)
    requires Digits(frac) && (rest == [] || (!Digit(rest[0]) && rest[0] != DOT))
    ensures LexFrac((if frac == [] then [] else [DOT] + frac) + rest) == Read(frac, rest)
  {
    if frac != [] {
      var s := [DOT] + frac + rest;
      assert s[1..] == frac + rest;
      RunExact(frac, rest);
      assert s[1..][..|frac|] == frac && s[1..][|frac|..] == rest;
    } else {
      assert [] + rest == rest;
    }
  }

  lemma ExpSound(s: Bytes)
    requires LexExp(s).Read?
    ensures
      var r := LexExp(s);
      && (r.value.0 != [] ==> ExpMark(r.value.0)) && Digits(r.value.1) && (r.value.0 == [] <==> r.value.1 == [])
      && s == r.value.0 + r.value.1 + r.rest
  {
    var r := LexExp(s);
    if r.value.0 != [] {
      var m := |r.value.0|;
      assert s == s[..m] + s[m..];
    }
  }

  lemma ExpComplete(mark: Bytes, d: Bytes, rest: Bytes)
    requires (mark != [] ==> ExpMark(mark)) && Digits(d) && (mark == [] <==> d == []) && Stops(rest)
    ensures LexExp(mark + d + rest) == Read((mark, d), rest)
  {
    var s := mark + d + rest;
    if mark != [] {
      var m := |mark|;
      assert s[m..] == d + rest;
      RunExact(d, rest);
      assert s[..m] == mark;
      assert s[m..][..|d|] == d && s[m..][|d|..] == rest;
      assert m == 1 ==> s[1] == d[0];
    } else {
      assert s == rest;
    }
  }

  function FracBytes(frac: Bytes): Bytes {
    if frac == [] then [] else [DOT] + frac
  }

  predicate OkTailParts(frac: Bytes, mark: Bytes, d: Bytes) {
    Digits(frac) && (mark != [] ==> ExpMark(mark)) && Digits(d) && (mark == [] <==> d == [])
  }

  lemma {:induction false} TailSound(u: Bytes)
    requires LexTail(u).Read?
    ensures
      var r := LexTail(u);
      OkTailParts(r.value.0, r.value.1, r.value.2) && u == FracBytes(r.value.0) + (r.value.1 + r.value.2 + r.rest)
  {
    hide LexFrac, LexExp, ExpMark, Digits;
    FracSound(u);
    ExpSound(LexFrac(u).rest);
  }

  lemma TailComplete(frac: Bytes, mark: Bytes, d: Bytes, rest: Bytes)
    requires OkTailParts(frac, mark, d) && Stops(rest)
    ensures LexTail(FracBytes(frac) + (mark + d + rest)) == Read((frac, mark, d), rest)
  {
    hide LexFrac, LexExp;
    var after := mark + d + rest;
    assert mark == [] ==> after == rest;
    FracComplete(frac, after);
    ExpComplete(mark, d, rest);
  }

  lemma TailFirst(frac: Bytes, mark: Bytes, d: Bytes, rest: Bytes)
    requires OkTailParts(frac, mark, d) && Stops(rest)
    ensures var u := FracBytes(frac) + (mark + d + rest); u == [] || !Digit(u[0])
  {
    var after := mark + d + rest;
    assert mark == [] ==> after == rest;
    assert frac == [] ==> FracBytes(frac) + after == after;
  }

  lemma {:induction false} UnsignedSound(minus: bool, t: Bytes)
    requires LexUnsigned(minus, t).Read?
    ensures
      var r := LexUnsigned(minus, t);
      && r.value.minus == minus && OkNumber(r.value)
      && t == r.value.whole + (FracBytes(r.value.frac) + (r.value.exp + r.value.expDigits + r.rest))
  {
    hide LexTail, FracBytes, ExpMark;
    var n := DigitRun(t);
    TailSound(t[n..]);
    assert t == t[..n] + t[n..];
  }

  lemma UnsignedComplete(num: Number, rest: Bytes)
    requires OkNumber(num) && Stops(rest)
    ensures LexUnsigned(num.minus, num.whole + (FracBytes(num.frac) + (num.exp + num.expDigits + rest))) ==
              Read(num, rest)
  {
    hide LexTail, FracBytes, ExpMark, Stops;
    var u := FracBytes(num.frac) + (num.exp + num.expDigits + rest);
    var t := num.whole + u;
    TailFirst(num.frac, num.exp, num.expDigits, rest);
    RunExact(num.whole, u);
    assert t[..|num.whole|] == num.whole && t[|num.whole|..] == u;
    TailComplete(num.frac, num.exp, num.expDigits, rest);
  }

  function SignText(minus: bool): Bytes {
    if minus then [MINUS] else []
  }

  lemma NumberShape(num: Number, rest: Bytes)
    ensures NumberText(num) + rest ==
              SignText(num.minus) + (num.whole + (FracBytes(num.frac) + (num.exp + num.expDigits + rest)))
  {
  }

  lemma {:induction false} NumberSound(s: Bytes)
    requires LexNumber(s).Read?
    ensures OkNumber(LexNumber(s).value) && s == NumberText(LexNumber(s).value) + LexNumber(s).rest
  {
    hide LexUnsigned, FracBytes, NumberText, OkNumber;
    var minus := StartsWith(s, MINUS);
    var t := if minus then s[1..] else s;
    UnsignedSound(minus, t);
    NumberShape(LexNumber(s).value, LexNumber(s).rest);
    assert s == SignText(minus) + t;
  }

  lemma {:induction false} NumberComplete(num: Number, rest: Bytes)
    requires OkNumber(num) && Stops(rest)
    ensures LexNumber(NumberText(num) + rest) == Read(num, rest)
  {
    hide LexUnsigned, FracBytes, NumberText, Stops;
    var t := num.whole + (FracBytes(num.frac) + (num.exp + num.expDigits + rest));
    NumberShape(num, rest);
    UnsignedComplete(num, rest);
    assert t[0] == num.whole[0];
    assert (SignText(true) + t)[1..] == t;
    assert SignText(false) + t == t;
  }

  /** The number read where the grammar spells one is that number; what is left is what follows it. */
  lemma NumberExact(s: Bytes, num: Number, rest: Bytes)
    requires Stops(rest)
    ensures LexNumber(s) == Read(num, rest) <==> OkNumber(num) && s == NumberText(num) + rest
  {
    hide LexNumber, NumberText, OkNumber;
    if LexNumber(s) == Read(num, rest) { NumberSound(s); }
    if OkNumber(num) && s == NumberText(num) + rest { NumberComplete(num, rest); }
  }
}
