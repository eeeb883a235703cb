/**
 The scanner as it runs: it takes bytes from its input one at a time, and every
 token it gives, or refuses to give, is the automaton's.
 */
module JsonScanner {
  import opened JsonGrammar
  import opened JsonLex
  import opened JsonAutomaton

  /** How a call ended: with a token, at the end of the input, or refused. */
  datatype Result = Token(t: Token) | EndOfInput | Refused

  datatype Status = Fine | AtEnd | Failed

  /** A string's text is kept only when asked for; names always are. */
  function Kept(t: Token, keep: bool): Token {
    if t.Chars? && !keep then Chars([]) else t
  }

  lemma {:induction false} DecodedSnoc(us: seq<Unit>, u: Unit)
    requires OkUnits(us) && OkUnit(u)
    ensures DecodedAll(us + [u]) == DecodedAll(us) + Decoded(u)
  {
    hide OkUnit, Decoded;
    if us == [] {
      assert us + [u] == [u] && [u][1..] == [];
    } else {
      assert (us + [u])[1..] == us[1..] + [u];
      DecodedSnoc(us[1..], u);
    }
  }

  lemma DecimalSnoc(d: Bytes, b: Byte)
    requires Digits(d) && Digit(b)
    ensures Digits(d + [b]) && Decimal(d + [b]) == 10 * Decimal(d) + (b - ZERO)
    ensures Fitting(d + [b]) == if Decimal(d + [b]) <= MAX_UINT64 then Decimal(d + [b]) else Fitting(d)
  {
    assert (d + [b])[..|d|] == d;
  }

  /** What is fitting is the whole value where that is within 64 bits. */
  lemma FittingWhole(d: Bytes)
    requires Digits(d) && Decimal(d) <= MAX_UINT64
    ensures Fitting(d) == Decimal(d)
  {
  }

  predicate StartsCode(s: Bytes) {
    |s| >= 2 && s[0] == BACKSLASH && s[1] == LOWER_U
  }

  /** What a \u escape is, by its four digits. */
  lemma CodeUnit(s: Bytes)
    requires StartsCode(s)
    ensures FirstUnit(s).Some? ==> |s| >= 6 && Hex4(s[2..6]) && !Low(HexValue(s[2..6]))
    ensures |s| >= 6 && Hex4(s[2..6]) && !High(HexValue(s[2..6])) && !Low(HexValue(s[2..6])) ==>
      FirstUnit(s).Some? && |UnitText(FirstUnit(s).value)| == 6
        && Decoded(FirstUnit(s).value) == Encode(HexValue(s[2..6]))
  {
    hide Encode, HexValue;
  }

  /** What a \u escape of a high half is, by what follows it. */
  lemma PairUnit(s: Bytes)
    requires StartsCode(s) && |s| >= 6 && Hex4(s[2..6]) && High(HexValue(s[2..6]))
    ensures FirstUnit(s).Some? <==>
      |s| >= 12 && s[6] == BACKSLASH && s[7] == LOWER_U && Hex4(s[8..12]) && Low(HexValue(s[8..12]))
    ensures FirstUnit(s).Some? ==>
      && |UnitText(FirstUnit(s).value)| == 12
      && Decoded(FirstUnit(s).value) == Encode(0x10000 + (HexValue(s[2..6]) - 0xD800) * 0x400
                                               + (HexValue(s[8..12]) - 0xDC00))
  {
    hide Encode, HexValue;
  }

  /** A character as it is. */
  lemma RawUnit(s: Bytes)
    requires s != [] && s[0] != QUOTE
    ensures s[0] == BACKSLASH ==> CharLength(s) == 1
    ensures s[0] != BACKSLASH ==> (FirstUnit(s).Some? <==> CharLength(s) > 0 && s[0] >= 0x20)
    ensures s[0] != BACKSLASH && FirstUnit(s).Some? ==>
      |UnitText(FirstUnit(s).value)| == CharLength(s) && Decoded(FirstUnit(s).value) == s[..CharLength(s)]
  {
    hide Encode, HexValue;
  }

  /** A two-character escape, and what is none. */
  lemma EscapeUnit(s: Bytes)
    requires s != []
    ensures s[0] == BACKSLASH && FirstUnit(s).Some? ==> |s| >= 2 && (SimpleEscape(s[1]) || s[1] == LOWER_U)
    ensures s[0] == BACKSLASH && |s| >= 2 && SimpleEscape(s[1]) ==>
      FirstUnit(s).Some? && |UnitText(FirstUnit(s).value)| == 2 && Decoded(FirstUnit(s).value) == [Escaped(s[1])]
  {
    hide Encode, HexValue;
  }

  /** Reading the characters of start has come past us, to s. */
  ghost predicate Passed(start: Bytes, us: seq<Unit>, s: Bytes, size: nat) {
    && size <= MAX_STRING
    && LexUnits(start, 0).Read? == LexUnits(s, size).Read?
    && (LexUnits(s, size).Read? ==>
      LexUnits(start, 0) == Read(us + LexUnits(s, size).value, LexUnits(s, size).rest))
  }

  lemma PassNone(start: Bytes)
    ensures Passed(start, [], start, 0)
  {
    hide LexUnits;
    if LexUnits(start, 0).Read? {
      assert [] + LexUnits(start, 0).value == LexUnits(start, 0).value;
    }
  }

  /** One step of reading characters. */
  lemma UnitsStep(s: Bytes, size: nat)
    requires size <= MAX_STRING
    ensures s == [] ==> LexUnits(s, size).Bad?
    ensures s != [] && s[0] == QUOTE ==> LexUnits(s, size) == Read([], s[1..])
    ensures s != [] && s[0] != QUOTE ==>
      LexUnits(s, size).Read? ==> FirstUnit(s).Some? && size + |Decoded(FirstUnit(s).value)| <= MAX_STRING
  {
    hide FirstUnit, Decoded;
  }

  lemma PassMore(start: Bytes, us: seq<Unit>, s: Bytes, size: nat, u: Unit)
    requires Passed(start, us, s, size) && s != [] && s[0] != QUOTE && FirstUnit(s) == Some(u)
    requires size + |Decoded(u)| <= MAX_STRING
    ensures Passed(start, us + [u], s[|UnitText(u)|..], size + |Decoded(u)|)
  {
    hide FirstUnit, Decoded, UnitText, OkUnit;
    var next := LexUnits(s[|UnitText(u)|..], size + |Decoded(u)|);
    if next.Read? {
      assert us + ([u] + next.value) == us + [u] + next.value;
    }
  }

  lemma NoDigits()
    ensures Digits([]) && Decimal([]) == 0 && Fitting([]) == 0
  {
  }

  lemma RunStep(s: Bytes, n: nat)
    requires n < |s|
    ensures s[n..][1..] == s[n + 1..]
    ensures DigitRun(s[n..]) == if Digit(s[n]) then 1 + DigitRun(s[n + 1..]) else 0
  {
    assert s[n..][1..] == s[n + 1..];
  }

  lemma NoRun()
    ensures DigitRun([]) == 0
  {
  }

  /** A number by its parts: the digits at t, after the sign, and what follows them. */
  lemma {:induction false} NumberParts(s: Bytes, t: Bytes, minus: bool)
    requires s != [] && minus == (s[0] == MINUS) && t == if minus then s[1..] else s
    ensures (t == [] || !Digit(t[0])) ==> LexNumber(s).Bad?
    ensures t != [] && Digit(t[0]) ==> DigitRun(t) > 0 && Digits(t[..DigitRun(t)])
    ensures t != [] && t[0] == ZERO ==>
              (LexNumber(s).Read? ==> DigitRun(t) == 1) && (DigitRun(t) == 1 <==> |t| == 1 || !Digit(t[1]))
    ensures t != [] && Digit(t[0]) && (t[0] == ZERO ==> DigitRun(t) == 1) ==>
      var u := t[DigitRun(t)..];
      && (LexNumber(s).Read? <==> LexFrac(u).Read? && LexExp(LexFrac(u).rest).Read?)
      && (LexNumber(s).Read? ==>
        && OkNumber(LexNumber(s).value) && LexNumber(s).value.whole == t[..DigitRun(t)]
        && LexNumber(s).rest == LexExp(LexFrac(u).rest).rest
        && Whole(LexNumber(s).value) == (!minus && LexFrac(u).value == [] && LexExp(LexFrac(u).rest).value.0 == []))
  {
    hide LexFrac, LexExp, OkNumber;
    if LexNumber(s).Read? { NumberSound(s); }
  }

  class Scanner {
    const input: Bytes
    var pos: nat
    var stack: seq<Frame>
    var started: bool
    var status: Status

    ghost predicate Valid()
      reads this
    {
      pos <= |input| && OkStack(stack) && (stack != [] ==> started)
    }

    function Rest(): Bytes
      requires pos <= |input|
      reads this`pos
    {
      input[pos..]
    }

    ghost function St(): State
      requires pos <= |input|
      reads this
    {
      State(stack, started, Rest())
    }

    constructor (input: Bytes)
      ensures Valid() && this.input == input && status == Fine && St() == State([], false, input)
    {
      this.input := input;
      pos, stack, started, status := 0, [], false, Fine;
      new;
      assert input[0..] == input;
    }

    // -------------------------------------------------------------------
    // Bytes.
    // -------------------------------------------------------------------

    /** The next byte, none at the end. */
    method Peek() returns (b: Option<Byte>)
      requires pos <= |input|
      ensures b == if Rest() == [] then None else Some(Rest()[0])
    {
      if pos == |input| { return None; }
      return Some(input[pos]);
    }

    method Consume()
      requires pos < |input|
      modifies this`pos
      ensures pos == old(pos) + 1 && pos <= |input| && Rest() == old(Rest())[1..]
    {
      pos := pos + 1;
    }

    method ReadByte() returns (b: Option<Byte>)
      requires pos <= |input|
      modifies this`pos
      ensures pos <= |input|
      ensures old(Rest()) == [] ==> b == None && pos == old(pos)
      ensures old(Rest()) != [] ==> b == Some(old(Rest())[0]) && Rest() == old(Rest())[1..]
    {
      b := Peek();
      if b.Some? { Consume(); }
    }

    /** Skips whitespace, to the byte after it. */
    method NonSpace() returns (b: Option<Byte>)
      requires pos <= |input|
      modifies this`pos
      ensures pos <= |input| && Rest() == SkipSpaces(old(Rest()))
      ensures b == if Rest() == [] then None else Some(Rest()[0])
    {
      ghost var start := Rest();
      while true
        invariant pos <= |input| && SkipSpaces(Rest()) == SkipSpaces(start)
        decreases |input| - pos
      {
        b := Peek();
        if b == None || !Space(b.value) { return; }
        Consume();
      }
    }

    // -------------------------------------------------------------------
    // Strings.
    // -------------------------------------------------------------------

    /** One character as it is: its bytes, none where no well-formed one stands. */
    method ReadRune() returns (bs: Bytes)
      requires pos <= |input|
      modifies this`pos
      ensures pos <= |input|
      ensures bs == old(Rest())[..CharLength(old(Rest()))] && Rest() == old(Rest())[|bs|..]
    {
      var n := CharLength(input[pos..]);
      bs := input[pos..][..n];
      pos := pos + n;
    }

    /** Four hexadecimal digits as a number. */
    method HexRune() returns (v: Option<nat>)
      requires pos <= |input|
      modifies this`pos
      ensures pos <= |input|
      ensures v.Some? <==> |old(Rest())| >= 4 && Hex4(old(Rest())[..4])
      ensures v.Some? ==> v.value == HexValue(old(Rest())[..4]) && Rest() == old(Rest())[4..]
    {
      ghost var start := Rest();
      var value: nat := 0;
      for i := 0 to 4
        invariant pos <= |input| && |start| >= i && Rest() == start[i..]
        invariant forall k :: 0 <= k < i ==> Hex(start[k])
        invariant i == 0 ==> value == 0
        invariant i == 1 ==> value == HexDigit(start[0])
        invariant i == 2 ==> value == HexDigit(start[0]) * 16 + HexDigit(start[1])
        invariant i == 3 ==> value == (HexDigit(start[0]) * 16 + HexDigit(start[1])) * 16 + HexDigit(start[2])
        invariant i == 4 ==> value == HexValue(start[..4])
      {
        var b := ReadByte();
        if b == None || !Hex(b.value) {
          assert b.Some? ==> start[i] == b.value;
          return None;
        }
        value := value * 16 + HexDigit(b.value);
      }
      return Some(value);
    }

    /** A \u escape after its two bytes: its code point, with the low half of a pair after its high half. */
    method ReadCode(ghost s: Bytes) returns (bs: Option<Bytes>)
      requires pos <= |input| && StartsCode(s) && Rest() == s[2..]
      modifies this`pos
      ensures pos <= |input|
      ensures bs.Some? <==> FirstUnit(s).Some?
      ensures bs.Some? ==> bs.value == Decoded(FirstUnit(s).value) && Rest() == s[|UnitText(FirstUnit(s).value)|..]
    {
      hide FirstUnit, Decoded, UnitText, OkUnit, Encode, HexValue;
      CodeUnit(s);
      var v := HexRune();
      assert |s| >= 6 ==> s[2..][..4] == s[2..6] && s[2..][4..] == s[6..];
      if v == None { return None; }
      if !High(v.value) && !Low(v.value) { return Some(Encode(v.value)); }
      if !High(v.value) { return None; }
      bs := ReadLow(s, v.value);
    }

    /** The low half of a pair: its own \u and four digits. */
    method ReadLow(ghost s: Bytes, hi: nat) returns (bs: Option<Bytes>)
      requires pos <= |input| && StartsCode(s) && |s| >= 6 && Hex4(s[2..6]) && Rest() == s[6..]
      requires hi == HexValue(s[2..6]) && High(hi)
      modifies this`pos
      ensures pos <= |input|
      ensures bs.Some? <==> FirstUnit(s).Some?
      ensures bs.Some? ==> bs.value == Decoded(FirstUnit(s).value) && Rest() == s[|UnitText(FirstUnit(s).value)|..]
    {
      hide FirstUnit, Decoded, UnitText, OkUnit, Encode, HexValue;
      PairUnit(s);
      var b := ReadByte();
      if b != Some(BACKSLASH) { return None; }
      assert Rest() == s[7..];
      b := ReadByte();
      if b != Some(LOWER_U) { return None; }
      assert Rest() == s[8..];
      assert |s| >= 12 ==> s[8..][..4] == s[8..12] && s[8..][4..] == s[12..];
      var low := HexRune();
      if low == None || !Low(low.value) { return None; }
      return Some(Encode(0x10000 + (hi - 0xD800) * 0x400 + (low.value - 0xDC00)));
    }

    /** One character after an opening quote, decoded; none where the grammar has none. */
    method ReadUnit() returns (bs: Option<Bytes>)
      requires pos < |input| && input[pos] != QUOTE
      modifies this`pos
      ensures pos <= |input|
      ensures bs.Some? <==> FirstUnit(old(Rest())).Some?
      ensures bs.Some? ==> bs.value == Decoded(FirstUnit(old(Rest())).value)
      ensures bs.Some? ==> Rest() == old(Rest())[|UnitText(FirstUnit(old(Rest())).value)|..]
    {
      hide FirstUnit, Decoded, UnitText, OkUnit, Encode, HexValue, CharLength;
      ghost var s := Rest();
      RawUnit(s);
      EscapeUnit(s);
      var r := ReadRune();
      if r == [] || r[0] < 0x20 { return None; }
      if r[0] != BACKSLASH { return Some(r); }
      assert Rest() == s[1..];
      var c := ReadByte();
      if c == None { return None; }
      assert Rest() == s[2..] && s[1] == c.value;
      if SimpleEscape(c.value) { return Some([Escaped(c.value)]); }
      if c.value != LOWER_U { return None; }
      bs := ReadCode(s);
    }

    /** A whole string from its opening quote: its decoded bytes when they are to be kept. */
    method ReadString(keep: bool) returns (value: Option<Bytes>)
      requires pos < |input| && input[pos] == QUOTE
      modifies this`pos
      ensures pos <= |input|
      ensures value.Some? <==> LexString(old(Rest())).Read?
      ensures value.Some? ==> Rest() == LexString(old(Rest())).rest
      ensures value.Some? ==> value.value == if keep then DecodedAll(LexString(old(Rest())).value) else []
    {
      hide FirstUnit, Decoded, UnitText, OkUnit, Encode, HexValue, CharLength, LexUnits;
      ghost var start := Rest()[1..];
      Consume();
      var got: Bytes := [];
      var size := 0;
      ghost var us: seq<Unit> := [];
      PassNone(start);
      while true
        invariant pos <= |input|
        invariant OkUnits(us) && size == |DecodedAll(us)| && size <= MAX_STRING
        invariant got == if keep then DecodedAll(us) else []
        invariant Passed(start, us, Rest(), size)
        decreases |input| - pos
      {
        ghost var s := Rest();
        UnitsStep(s, size);
        var b := Peek();
        if b == None { return None; }
        if b.value == QUOTE {
          Consume();
          assert us + [] == us;
          return Some(got);
        }
        var bs := ReadUnit();
        if bs == None || size + |bs.value| > MAX_STRING { return None; }
        ghost var u := FirstUnit(s).value;
        PassMore(start, us, s, size, u);
        DecodedSnoc(us, u);
        us := us + [u];
        size := size + |bs.value|;
        if keep { got := got + bs.value; }
      }
    }

    // -------------------------------------------------------------------
    // Numbers.
    // -------------------------------------------------------------------

    /** One more digit: overflow is set where the value would pass 64 bits, and never cleared. */
    static method OneDigit(ghost d: Bytes, b: Byte, unsigned: nat, overflow: bool) returns (value: nat, past: bool)
      requires Digits(d) && Digit(b) && unsigned == Fitting(d) && overflow == (Decimal(d) > MAX_UINT64)
      ensures Digits(d + [b]) && value == Fitting(d + [b]) && past == (Decimal(d + [b]) > MAX_UINT64)
    {
      hide Fitting, Decimal;
      DecimalSnoc(d, b);
      if Decimal(d) <= MAX_UINT64 { FittingWhole(d); }
      value, past := unsigned, overflow;
      if unsigned > (MAX_UINT64 - (b - ZERO)) / 10 {
        past := true;
      } else if !overflow {
        value := unsigned * 10 + (b - ZERO);
      }
    }

    /** The digits that stand here, counting what they come to; only one where zero stands first. */
    method WholeDigits(zero: bool) returns (unsigned: nat, overflow: bool)
      requires pos < |input| && Digit(input[pos]) && zero == (input[pos] == ZERO)
      modifies this`pos
      ensures pos <= |input|
      ensures
        var n := if zero then 1 else DigitRun(old(Rest()));
        var d := old(Rest())[..n];
        && n <= |old(Rest())| && Digits(d) && Rest() == old(Rest())[n..]
        && unsigned == Fitting(d) && overflow == (Decimal(d) > MAX_UINT64)
    {
      hide Fitting, Decimal, DigitRun;
      ghost var start := Rest();
      unsigned, overflow := 0, false;
      ghost var n: nat := 0;
      NoDigits();
      assert start[..0] == [];
      while pos < |input| && Digit(input[pos])
        invariant pos <= |input| && n <= |start| && Rest() == start[n..]
        invariant Digits(start[..n]) && unsigned == Fitting(start[..n])
        invariant overflow == (Decimal(start[..n]) > MAX_UINT64)
        invariant n + DigitRun(start[n..]) == DigitRun(start)
        invariant n > 0 ==> !zero
        decreases |input| - pos
      {
        ghost var d := start[..n];
        var b := input[pos];
        Consume();
        assert start[..n + 1] == d + [b];
        unsigned, overflow := OneDigit(d, b, unsigned, overflow);
        RunStep(start, n);
        n := n + 1;
        if zero { return; }
      }
    }

    /** One digit or more. */
    method ReadDigits() returns (ok: bool)
      requires pos <= |input|
      modifies this`pos
      ensures pos <= |input| && ok == (DigitRun(old(Rest())) > 0)
      ensures ok ==> Rest() == old(Rest())[DigitRun(old(Rest()))..]
    {
      ghost var start := Rest();
      var b := Peek();
      if b == None || !Digit(b.value) { return false; }
      ghost var n: nat := 0;
      while pos < |input| && Digit(input[pos])
        invariant pos <= |input| && n <= |start| && Rest() == start[n..]
        invariant n + DigitRun(start[n..]) == DigitRun(start)
        decreases |input| - pos
      {
        RunStep(start, n);
        Consume();
        n := n + 1;
      }
      return true;
    }

    /** A fraction where a point stands; where: none at the point, else whether digits follow. */
    method ReadFrac() returns (ok: bool, present: bool)
      requires pos <= |input|
      modifies this`pos
      ensures pos <= |input| && ok == LexFrac(old(Rest())).Read?
      ensures ok ==> Rest() == LexFrac(old(Rest())).rest && present == (LexFrac(old(Rest())).value != [])
    {
      hide DigitRun;
      var b := Peek();
      if b != Some(DOT) { return true, false; }
      Consume();
      ok := ReadDigits();
      present := true;
    }

    method ReadExp() returns (ok: bool, present: bool)
      requires pos <= |input|
      modifies this`pos
      ensures pos <= |input| && ok == LexExp(old(Rest())).Read?
      ensures ok ==> Rest() == LexExp(old(Rest())).rest && present == (LexExp(old(Rest())).value.0 != [])
    {
      hide DigitRun;
      ghost var s := Rest();
      var b := Peek();
      if b == None || (b.value != 0x65 && b.value != 0x45) { return true, false; }
      Consume();
      assert Rest() == s[1..];
      b := Peek();
      if b == None {
        NoRun();
        return false, true;
      }
      if b.value == PLUS || b.value == MINUS {
        Consume();
        assert Rest() == s[2..];
      }
      ok := ReadDigits();
      present := true;
    }

    /** A number as far as it goes: its token, none where the grammar has no number. */
    method ReadNumber() returns (t: Option<JsonAutomaton.Token>)
      requires pos < |input| && (input[pos] == MINUS || Digit(input[pos]))
      modifies this`pos
      ensures pos <= |input| && (t.Some? <==> LexNumber(old(Rest())).Read?)
      ensures t.Some? ==> OkNumber(LexNumber(old(Rest())).value)
      ensures t.Some? ==> t.value == NumeralOf(LexNumber(old(Rest())).value) && Rest() == LexNumber(old(Rest())).rest
    {
      hide DigitRun, LexFrac, LexExp, Fitting, Decimal, OkNumber;
      ghost var s := Rest();
      var minus := false;
      var b := Peek();
      if b == Some(MINUS) {
        minus := true;
        Consume();
        b := Peek();
      }
      ghost var t0 := Rest();
      NumberParts(s, t0, minus);
      if b == None || !Digit(b.value) { return None; }
      var zero := b.value == ZERO;
      var unsigned, overflow := WholeDigits(zero);
      b := Peek();
      if zero && b.Some? && Digit(b.value) { return None; }
      var ok, frac := ReadFrac();
      if !ok { return None; }
      var exp;
      ok, exp := ReadExp();
      if !ok { return None; }
      return Some(Numeral(unsigned, !minus && !frac && !exp, overflow));
    }

    // -------------------------------------------------------------------
    // Tokens.
    // -------------------------------------------------------------------

    /** A literal name, byte by byte. */
    method ReadWord(w: Word) returns (ok: bool)
      requires pos <= |input|
      modifies this`pos
      ensures pos <= |input| && ok == LexWord(old(Rest()), w).Read?
      ensures ok ==> Rest() == LexWord(old(Rest()), w).rest
    {
      ghost var start := Rest();
      var text := WordText(w);
      for i := 0 to |text|
        invariant pos <= |input| && i <= |start| && start[..i] == text[..i] && Rest() == start[i..]
      {
        var b := ReadByte();
        if b == None || b.value != text[i] {
          assert b.Some? ==> start[i] == b.value;
          return false;
        }
        assert start[..i + 1] == start[..i] + [b.value];
        assert text[..i + 1] == text[..i] + [text[i]];
      }
      assert text[..|text|] == text;
      return true;
    }

    /** How a call's result and the state it leaves stand to the automaton's step. */
    ghost predicate Follows(o: Out, r: Result, keep: bool)
      requires pos <= |input|
      reads this
    {
      match o
      case Got(t, st) => r == Token(Kept(t, keep)) && St() == st
      case Eof => r == EndOfInput
      case Error => r == Refused
    }

    method Open(kind: Kind) returns (r: Result)
      requires Valid() && pos < |input| && input[pos] == OpenByte(kind) && started
      modifies this`pos, this`stack
      ensures pos <= |input| && Follows(OpenStep(old(stack), kind, old(Rest())), r, true)
    {
      if |stack| >= MAX_DEPTH { return Refused; }
      Consume();
      stack := stack + [Frame(kind, OPENED, {})];
      return Token(Begin(kind));
    }

    /** A value's first token, where it stands. */
    method Value(keep: bool) returns (r: Result)
      requires Valid() && pos < |input| && started
      modifies this`pos, this`stack
      ensures pos <= |input| && Follows(ValueStep(old(stack), old(Rest())), r, keep)
    {
      hide LexString, LexNumber, LexWord, OkStack, Fitting, Decimal;
      var b := input[pos];
      if b == OpenByte(Object) {
        r := Open(Object);
      } else if b == OpenByte(Array) {
        r := Open(Array);
      } else if b == QUOTE {
        var text := ReadString(keep);
        if text == None { return Refused; }
        return Token(Chars(text.value));
      } else if b == 0x74 || b == 0x66 || b == 0x6E {
        var w := if b == 0x74 then True else if b == 0x66 then False else Null;
        var ok := ReadWord(w);
        if !ok { return Refused; }
        return Token(Constant(w));
      } else if b == MINUS || Digit(b) {
        var t := ReadNumber();
        if t == None { return Refused; }
        return Token(t.value);
      } else {
        return Refused;
      }
    }

    /** A container's end, or its refusal: the innermost container is gone. */
    method Finish(kind: Kind) returns (r: Result)
      requires Valid() && pos < |input| && stack != []
      modifies this`pos, this`stack
      ensures pos <= |input|
      ensures started ==> Follows(EndStep(old(stack)[..|old(stack)| - 1], kind, old(Rest())), r, true)
    {
      Consume();
      stack := stack[..|stack| - 1];
      return Token(End(kind));
    }

    /** A member's name, which the object must not have yet. */
    method MemberName() returns (r: Result)
      requires Valid() && pos < |input| && stack != [] && started
      modifies this`pos, this`stack
      ensures pos <= |input|
      ensures
        var outer, f := old(stack)[..|old(stack)| - 1], old(stack)[|old(stack)| - 1];
        Follows(NameStep(outer, f, old(Rest())), r, true)
    {
      hide LexString, OkStack;
      var last := |stack| - 1;
      var f := stack[last];
      if input[pos] != QUOTE || |f.names| >= MAX_MEMBERS { return Refused; }
      var name := ReadString(true);
      if name == None { return Refused; }
      if name.value in f.names { return Refused; }
      stack := stack[..last] + [Frame(f.kind, AFTER_NAME, f.names + {name.value})];
      return Token(Name(name.value));
    }

    /** Moves the innermost frame on. */
    method MoveTo(state: nat)
      requires Valid() && stack != [] && (state == AFTER_COMMA || state == AFTER_ELEM)
      modifies this`stack
      ensures Valid() && stack == old(stack)[..|old(stack)| - 1] + [old(stack)[|old(stack)| - 1].(state := state)]
    {
      var last := |stack| - 1;
      stack := stack[..last] + [stack[last].(state := state)];
    }

    /** What comes in a container just opened, after a comma or after a name; b is the byte after whitespace. */
    method Within(b: Option<Byte>, keep: bool) returns (r: Result)
      requires Valid() && stack != [] && stack[|stack| - 1].state != AFTER_ELEM && started
      requires b == if Rest() == [] then None else Some(Rest()[0])
      modifies this`pos, this`stack
      ensures pos <= |input|
      ensures
        var outer, f := old(stack)[..|old(stack)| - 1], old(stack)[|old(stack)| - 1];
        Follows(Inside(outer, f, old(Rest())), r, keep)
    {
      hide ValueStep, LexString, SkipSpaces, OkStack;
      if b == None { return Refused; }
      var f := stack[|stack| - 1];
      if f.state == AFTER_NAME {
        if b.value != COLON { return Refused; }
        Consume();
        MoveTo(AFTER_ELEM);
        var c := NonSpace();
        if c == None { return Refused; }
        r := Value(keep);
      } else if b.value == CloseByte(f.kind) && f.state == OPENED {
        r := Finish(f.kind);
      } else if f.kind.Object? {
        r := MemberName();
      } else {
        MoveTo(AFTER_ELEM);
        r := Value(keep);
      }
    }

    /** One token, where the scanner has not ended or failed. */
    method Step(keep: bool) returns (r: Result)
      requires Valid()
      modifies this`pos, this`stack, this`started
      ensures pos <= |input| && Follows(JsonAutomaton.Next(old(St())), r, keep)
    {
      hide ValueStep, NameStep, SkipSpaces, OkStack;
      var b := NonSpace();
      if stack == [] {
        if started { return if b == None then EndOfInput else Refused; }
        if b == None { return Refused; }
        started := true;
        r := Value(keep);
        return;
      }
      if b == None { return Refused; }
      var f := stack[|stack| - 1];
      if f.state != AFTER_ELEM {
        r := Within(b, keep);
        return;
      }
      if b.value == CloseByte(f.kind) {
        r := Finish(f.kind);
        return;
      }
      if b.value != COMMA { return Refused; }
      MoveTo(AFTER_COMMA);
      Consume();
      var c := NonSpace();
      r := Within(c, keep);
    }

    /** The next token. Once the scanner has ended or failed, it says so for ever and moves no more. */
    method Next(keep: bool) returns (r: Result)
      requires Valid()
      modifies this
      ensures pos <= |input|
      ensures status == Fine ==> Valid()
      ensures old(status) != Fine ==>
        status == old(status) && St() == old(St()) && r == if status == AtEnd then EndOfInput else Refused
      ensures old(status) == Fine ==>
        && Follows(JsonAutomaton.Next(old(St())), r, keep)
        && status == if r.Token? then Fine else if r.EndOfInput? then AtEnd else Failed
    {
      hide JsonAutomaton.Next, Completes;
      if status == AtEnd { return EndOfInput; }
      if status == Failed { return Refused; }
      NextExact(St());
      r := Step(keep);
      status := if r.Token? then Fine else if r.EndOfInput? then AtEnd else Failed;
    }

    /** Reading tokens until there is no more: accepted exactly when the input is one JSON text within the limits. */
    method ReadAll(keep: bool) returns (accepted: bool)
      requires Valid() && status == Fine && !started && pos == 0
      modifies this
      ensures accepted <==> IsJsonText(input)
      ensures status == if accepted then AtEnd else Failed
    {
      hide JsonAutomaton.Next, Lang, Completes, IsJsonText;
      ghost var start := St();
      assert Rest() == input;
      AcceptsExactly(input);
      while true
        invariant Valid() && status == Fine && Accepts(St()) == Accepts(start)
        decreases |input| - pos
      {
        ghost var st := St();
        NextExact(st);
        var r := Next(keep);
        if r == EndOfInput { return true; }
        if r == Refused { return false; }
      }
    }

    /** Skips one value: past the same bytes, and to the same state, as reading it token by token. */
    method Skip() returns (ok: bool)
      requires Valid() && status == Fine
      modifies this
      ensures pos <= |input| && (ok ==> Valid() && status == Fine)
      ensures ok <==> ReadValue(old(St())).Some?
      ensures ok ==> St() == ReadValue(old(St())).value
      ensures !ok ==> status != Fine
    {
      hide JsonAutomaton.Next, Lang, Completes, ReadOn;
      ghost var goal := ReadValue(St());
      NextExact(St());
      var r := Next(false);
      if !r.Token? { return false; }
      if r.t.Name? || r.t.End? {
        status := Failed;
        return false;
      }
      var depth: int := 0;
      while true
        invariant Valid() && status == Fine && r.Token? && depth >= 0 && Deeper(depth, r.t) >= 0
        invariant goal == ReadOn(St(), Deeper(depth, r.t))
        decreases |input| - pos
      {
        depth := Deeper(depth, r.t);
        OneMore(St(), depth);
        if depth == 0 { return true; }
        NextExact(St());
        r := Next(false);
        if !r.Token? { return false; }
      }
    }
  }

  lemma OneMore(st: State, depth: nat)
    requires OkState(st)
    ensures depth == 0 ==> ReadOn(st, depth) == Some(st)
    ensures depth > 0 ==>
      var o := JsonAutomaton.Next(st);
      if o.Got? then OkState(o.st) && Deeper(depth, o.t) >= 0 && ReadOn(st, depth) == ReadOn(o.st, Deeper(depth, o.t))
      else ReadOn(st, depth) == None
  {
    hide JsonAutomaton.Next, Lang, Completes;
    NextExact(st);
  }
}
