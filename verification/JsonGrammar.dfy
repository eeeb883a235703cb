/**
 JSON texts as trees of the productions of RFC 8259, sections 2 to 7, and the
 bytes each tree spells. Raw characters are UTF-8 as section 4 of RFC 3629 has it.
 */
module JsonGrammar {

  type Byte = b: nat | b < 256 witness 0
  type Bytes = seq<Byte>

  // The limits that keep a record's memory bounded.
  const MAX_DEPTH := 16
  const MAX_MEMBERS := 4096
  const MAX_STRING := 65536

  const QUOTE: Byte := 0x22
  const BACKSLASH: Byte := 0x5C
  const LOWER_U: Byte := 0x75
  const COMMA: Byte := 0x2C
  const COLON: Byte := 0x3A
  const MINUS: Byte := 0x2D
  const PLUS: Byte := 0x2B
  const DOT: Byte := 0x2E
  const ZERO: Byte := 0x30

  // ---------------------------------------------------------------------
  // Whitespace (section 2) and literal names (section 3).
  // ---------------------------------------------------------------------

  predicate Space(b: Byte) {
    b == 0x20 || b == 0x09 || b == 0x0A || b == 0x0D
  }

  predicate Spaces(w: Bytes) {
    forall i :: 0 <= i < |w| ==> Space(w[i])
  }

  datatype Word = True | False | Null

  function WordText(w: Word): (t: Bytes)
    ensures |t| >= 4
  {
    match w
    case True => [0x74, 0x72, 0x75, 0x65]
    case False => [0x66, 0x61, 0x6C, 0x73, 0x65]
    case Null => [0x6E, 0x75, 0x6C, 0x6C]
  }

  // ---------------------------------------------------------------------
  // Numbers (section 6).
  // ---------------------------------------------------------------------

  predicate Digit(b: Byte) {
    0x30 <= b <= 0x39
  }

  predicate Digits(d: Bytes) {
    forall i :: 0 <= i < |d| ==> Digit(d[i])
  }

  /** exp is empty for none, else e or E, then a sign or none. */
  datatype Number = Number(minus: bool, whole: Bytes, frac: Bytes, exp: Bytes, expDigits: Bytes)

  predicate ExpMark(e: Bytes) {
    1 <= |e| <= 2 && (e[0] == 0x65 || e[0] == 0x45) && (|e| == 2 ==> e[1] == PLUS || e[1] == MINUS)
  }

  predicate OkNumber(n: Number) {
    && n.whole != [] && Digits(n.whole) && (n.whole[0] == ZERO ==> |n.whole| == 1)
    && Digits(n.frac)
    && (n.exp != [] ==> ExpMark(n.exp))
    && Digits(n.expDigits) && (n.exp == [] <==> n.expDigits == [])
  }

  function FracText(n: Number): Bytes {
    if n.frac == [] then [] else [DOT] + n.frac
  }

  function NumberText(n: Number): Bytes {
    (if n.minus then [MINUS] else []) + n.whole + FracText(n) + n.exp + n.expDigits
  }

  /** A whole number has no minus sign, fraction or exponent. */
  predicate Whole(n: Number) {
    !n.minus && n.frac == [] && n.exp == []
  }

  function Decimal(d: Bytes): nat
    requires Digits(d)
  {
    if d == [] then 0 else 10 * Decimal(d[..|d| - 1]) + (d[|d| - 1] - ZERO)
  }

  // ---------------------------------------------------------------------
  // Strings (section 7).
  // ---------------------------------------------------------------------

  /** How many bytes the well-formed UTF-8 character at the start of s takes, 0 when there is none. */
  function CharLength(s: Bytes): (n: nat)
    ensures n <= |s|
  {
    if s == [] then 0
    else if s[0] <= 0x7F then 1
    else if |s| >= 2 && 0xC2 <= s[0] <= 0xDF && TailByte(s[1]) then 2
    else if |s| >= 3 && Lead3(s[0], s[1]) && TailByte(s[2]) then 3
    else if |s| >= 4 && Lead4(s[0], s[1]) && TailByte(s[2]) && TailByte(s[3]) then 4
    else 0
  }

  predicate TailByte(b: Byte) { 0x80 <= b <= 0xBF }

  predicate Lead3(a: Byte, b: Byte) {
    || (a == 0xE0 && 0xA0 <= b <= 0xBF)
    || (0xE1 <= a <= 0xEC && TailByte(b))
    || (a == 0xED && 0x80 <= b <= 0x9F)
    || (0xEE <= a <= 0xEF && TailByte(b))
  }

  predicate Lead4(a: Byte, b: Byte) {
    || (a == 0xF0 && 0x90 <= b <= 0xBF)
    || (0xF1 <= a <= 0xF3 && TailByte(b))
    || (a == 0xF4 && 0x80 <= b <= 0x8F)
  }

  predicate Hex(b: Byte) {
    Digit(b) || 0x61 <= b <= 0x66 || 0x41 <= b <= 0x46
  }

  function HexDigit(b: Byte): nat
    requires Hex(b)
  {
    if Digit(b) then b - 0x30 else if b >= 0x61 then b - 0x61 + 10 else b - 0x41 + 10
  }

  predicate Hex4(h: Bytes) {
    |h| == 4 && Hex(h[0]) && Hex(h[1]) && Hex(h[2]) && Hex(h[3])
  }

  function HexValue(h: Bytes): (v: nat)
    requires Hex4(h)
    ensures v <= 0xFFFF
  {
    ((HexDigit(h[0]) * 16 + HexDigit(h[1])) * 16 + HexDigit(h[2])) * 16 + HexDigit(h[3])
  }

  predicate High(v: nat) { 0xD800 <= v <= 0xDBFF }
  predicate Low(v: nat) { 0xDC00 <= v <= 0xDFFF }

  /** One character of a string: as it is, a two-character escape, a \u escape of no surrogate, or a surrogate pair. */
  datatype Unit = Raw(bytes: Bytes) | Escape(c: Byte) | Code(h: Bytes) | Pair(hi: Bytes, lo: Bytes)

  predicate SimpleEscape(c: Byte) {
    c == QUOTE || c == BACKSLASH || c == 0x2F || c == 0x62 || c == 0x66 || c == 0x6E || c == 0x72 || c == 0x74
  }

  function Escaped(c: Byte): Byte {
    if c == 0x62 then 0x08
    else if c == 0x66 then 0x0C
    else if c == 0x6E then 0x0A
    else if c == 0x72 then 0x0D
    else if c == 0x74 then 0x09
    else c
  }

  predicate OkUnit(u: Unit) {
    match u
    case Raw(bs) => bs != [] && CharLength(bs) == |bs| && bs[0] >= 0x20 && bs[0] != QUOTE && bs[0] != BACKSLASH
    case Escape(c) => SimpleEscape(c)
    case Code(h) => Hex4(h) && !High(HexValue(h)) && !Low(HexValue(h))
    case Pair(hi, lo) => Hex4(hi) && High(HexValue(hi)) && Hex4(lo) && Low(HexValue(lo))
  }

  function UnitText(u: Unit): Bytes {
    match u
    case Raw(bs) => bs
    case Escape(c) => [BACKSLASH, c]
    case Code(h) => [BACKSLASH, LOWER_U] + h
    case Pair(hi, lo) => [BACKSLASH, LOWER_U] + hi + [BACKSLASH, LOWER_U] + lo
  }

  /** The UTF-8 bytes of a code point. */
  function Encode(cp: nat): (bs: Bytes)
    requires cp <= 0x10FFFF
    ensures 1 <= |bs| <= 4
  {
    if cp <= 0x7F then [cp]
    else if cp <= 0x7FF then [0xC0 + cp / 64, 0x80 + cp % 64]
    else if cp <= 0xFFFF then [0xE0 + cp / 4096, 0x80 + cp / 64 % 64, 0x80 + cp % 64]
    else [0xF0 + cp / 262144, 0x80 + cp / 4096 % 64, 0x80 + cp / 64 % 64, 0x80 + cp % 64]
  }

  function Decoded(u: Unit): (bs: Bytes)
    requires OkUnit(u)
    ensures bs != []
  {
    match u
    case Raw(bs) => bs
    case Escape(c) => [Escaped(c)]
    case Code(h) => Encode(HexValue(h))
    case Pair(hi, lo) => Encode(0x10000 + (HexValue(hi) - 0xD800) * 0x400 + (HexValue(lo) - 0xDC00))
  }

  predicate OkUnits(us: seq<Unit>) {
    forall i :: 0 <= i < |us| ==> OkUnit(us[i])
  }

  function UnitsText(us: seq<Unit>): Bytes {
    if us == [] then [] else UnitText(us[0]) + UnitsText(us[1..])
  }

  function DecodedAll(us: seq<Unit>): Bytes
    requires OkUnits(us)
  {
    if us == [] then [] else Decoded(us[0]) + DecodedAll(us[1..])
  }

  predicate OkString(us: seq<Unit>) {
    OkUnits(us) && |DecodedAll(us)| <= MAX_STRING
  }

  function StringText(us: seq<Unit>): Bytes {
    [QUOTE] + UnitsText(us) + [QUOTE]
  }

  // ---------------------------------------------------------------------
  // Values (section 3), objects (section 4) and arrays (section 5).
  // ---------------------------------------------------------------------

  datatype Kind = Object | Array

  datatype Value = Literal(w: Word) | Num(n: Number) | Str(s: seq<Unit>) | Container(kind: Kind, body: Body)

  /** What stands between a container's brackets. */
  datatype Body = Empty(w: Bytes) | Full(e: Elem, t: Tail)

  datatype Elem = Item(w: Bytes, v: Value) | Member(w: Bytes, name: seq<Unit>, w1: Bytes, w2: Bytes, v: Value)

  /** What follows an element: the container's end, or a comma and more. */
  datatype Tail = Close(w: Bytes) | More(w: Bytes, e: Elem, t: Tail)

  function OpenByte(k: Kind): Byte { if k.Object? then 0x7B else 0x5B }
  function CloseByte(k: Kind): Byte { if k.Object? then 0x7D else 0x5D }

  function Text(v: Value): Bytes
    decreases v, 0
  {
    match v
    case Literal(w) => WordText(w)
    case Num(n) => NumberText(n)
    case Str(s) => StringText(s)
    case Container(k, b) => [OpenByte(k)] + BodyText(k, b)
  }

  function BodyText(k: Kind, b: Body): Bytes
    decreases b
  {
    match b
    case Empty(w) => w + [CloseByte(k)]
    case Full(e, t) => ElemText(e) + TailText(k, t)
  }

  function ElemText(e: Elem): Bytes
    decreases e
  {
    match e
    case Item(w, v) => w + Text(v)
    case Member(w, name, w1, w2, v) => w + (StringText(name) + RestText(w1, w2, v))
  }

  /** What follows a member's name. */
  function RestText(w1: Bytes, w2: Bytes, v: Value): Bytes
    decreases v, 1
  {
    w1 + ([COLON] + (w2 + Text(v)))
  }

  function TailText(k: Kind, t: Tail): Bytes
    decreases t
  {
    match t
    case Close(w) => w + [CloseByte(k)]
    case More(w, e, t1) => w + ([COMMA] + (ElemText(e) + TailText(k, t1)))
  }

  /** A value within the limits, where room containers may still be opened. */
  predicate OkValue(v: Value, room: nat)
    decreases v
  {
    match v
    case Literal(_) => true
    case Num(n) => OkNumber(n)
    case Str(s) => OkString(s)
    case Container(k, b) => room > 0 && OkBody(k, b, room - 1)
  }

  predicate OkBody(k: Kind, b: Body, room: nat)
    decreases b
  {
    match b
    case Empty(w) => Spaces(w)
    case Full(e, t) => OkElem(k, e, room, {}) && OkTail(k, t, room, NamesWith(e, {}))
  }

  /** names are the decoded names the object already has. */
  predicate OkElem(k: Kind, e: Elem, room: nat, names: set<Bytes>)
    decreases e
  {
    match e
    case Item(w, v) => k.Array? && Spaces(w) && OkValue(v, room)
    case Member(w, name, w1, w2, v) =>
      && k.Object? && Spaces(w) && Spaces(w1) && Spaces(w2) && OkString(name)
      && |names| < MAX_MEMBERS && DecodedAll(name) !in names
      && OkValue(v, room)
  }

  function NamesWith(e: Elem, names: set<Bytes>): set<Bytes> {
    if e.Member? && OkUnits(e.name) then names + {DecodedAll(e.name)} else names
  }

  predicate OkTail(k: Kind, t: Tail, room: nat, names: set<Bytes>)
    decreases t
  {
    match t
    case Close(w) => Spaces(w)
    case More(w, e, t1) => Spaces(w) && OkElem(k, e, room, names) && OkTail(k, t1, room, NamesWith(e, names))
  }

  /** One JSON text within the limits: a value with whitespace around it, and nothing else. */
  ghost predicate IsJsonText(s: Bytes) {
    exists w, v, w1 :: Spaces(w) && Spaces(w1) && OkValue(v, MAX_DEPTH) && s == w + (Text(v) + w1)
  }
}
