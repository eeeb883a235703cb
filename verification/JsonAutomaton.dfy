/**
 The scanner's automaton over what is left of a text: one token at a time, with
 the open containers on a stack. A text can be completed from a state exactly
 when it can be from the state after the next token.
 */
module JsonAutomaton {
  import opened JsonGrammar
  import opened JsonLex

  const MAX_UINT64: nat := 0xFFFF_FFFF_FFFF_FFFF

  // Where a frame is: just opened, after a comma, after a member's name, after an element.
  const OPENED := 0
  const AFTER_COMMA := 1
  const AFTER_NAME := 2
  const AFTER_ELEM := 3

  datatype Frame = Frame(kind: Kind, state: nat, names: set<Bytes>)

  datatype State = State(stack: seq<Frame>, started: bool, rest: Bytes)

  datatype Token =
    | Begin(kind: Kind)
    | End(kind: Kind)
    | Name(text: Bytes)
    | Chars(text: Bytes)
    | Numeral(unsigned: nat, whole: bool, overflow: bool)
    | Constant(w: Word)

  datatype Out = Got(t: Token, st: State) | Eof | Error

  predicate OkFrame(f: Frame) {
    && f.state <= 3
    && (f.state == AFTER_NAME ==> f.kind.Object?)
    && (f.state == OPENED ==> f.names == {})
  }

  /** Every container but the innermost waits for the one inside it to end. */
  predicate OkStack(stack: seq<Frame>) {
    && |stack| <= MAX_DEPTH
    && (forall i :: 0 <= i < |stack| ==> OkFrame(stack[i]))
    && (forall i :: 0 <= i < |stack| - 1 ==> stack[i].state == AFTER_ELEM)
  }

  predicate OkState(st: State) {
    OkStack(st.stack) && (st.stack != [] ==> st.started)
  }

  /** A value has ended where the stack is: nothing is open, or an element was just read. */
  predicate Settled(stack: seq<Frame>) {
    OkStack(stack) && (stack != [] ==> stack[|stack| - 1].state == AFTER_ELEM)
  }

  // ---------------------------------------------------------------------
  // One step.
  // ---------------------------------------------------------------------

  /** The largest value the digits' front has within 64 bits: all of them, when they do not overflow. */
  function Fitting(d: Bytes): nat
    requires Digits(d)
  {
    if d == [] || Decimal(d) <= MAX_UINT64 then Decimal(d) else Fitting(d[..|d| - 1])
  }

  function NumeralOf(n: Number): Token
    requires OkNumber(n)
  {
    Numeral(Fitting(n.whole), Whole(n), Decimal(n.whole) > MAX_UINT64)
  }

  /** A number token's value, for a whole number within 64 bits. */
  function Uint64(t: Token): Option<nat> {
    if !t.Numeral? || !t.whole || t.overflow then None else Some(t.unsigned)
  }

  lemma Uint64Exact(n: Number, v: nat)
    requires OkNumber(n)
    ensures Uint64(NumeralOf(n)) == Some(v) <==> Whole(n) && v == Decimal(n.whole) && v <= MAX_UINT64
  {
  }

  function OpenStep(stack: seq<Frame>, kind: Kind, s: Bytes): Out
    requires s != []
  {
    if |stack| >= MAX_DEPTH then Error
    else Got(Begin(kind), State(stack + [Frame(kind, OPENED, {})], true, s[1..]))
  }

  function WordStep(stack: seq<Frame>, w: Word, s: Bytes): Out {
    match LexWord(s, w)
    case Bad => Error
    case Read(_, rest) => Got(Constant(w), State(stack, true, rest))
  }

  /** Reads a value's first token where it stands. */
  function ValueStep(stack: seq<Frame>, s: Bytes): Out
    requires s != []
  {
    if s[0] == OpenByte(Object) then OpenStep(stack, Object, s)
    else if s[0] == OpenByte(Array) then OpenStep(stack, Array, s)
    else if s[0] == QUOTE then
      match LexString(s)
      case Bad => Error
      case Read(us, rest) => Got(Chars(DecodedAll(us)), State(stack, true, rest))
    else if s[0] == 0x74 then WordStep(stack, True, s)
    else if s[0] == 0x66 then WordStep(stack, False, s)
    else if s[0] == 0x6E then WordStep(stack, Null, s)
    else if s[0] == MINUS || Digit(s[0]) then
      match LexNumber(s)
      case Bad => Error
      case Read(n, rest) =>
        NumberSound(s);
        Got(NumeralOf(n), State(stack, true, rest))
    else Error
  }

  function EndStep(outer: seq<Frame>, kind: Kind, s: Bytes): Out
    requires s != []
  {
    Got(End(kind), State(outer, true, s[1..]))
  }

  function NameStep(outer: seq<Frame>, f: Frame, s: Bytes): Out
    requires s != []
  {
    if s[0] != QUOTE || |f.names| >= MAX_MEMBERS then Error
    else
      match LexString(s)
      case Bad => Error
      case Read(us, rest) =>
        var name := DecodedAll(us);
        if name in f.names then Error
        else Got(Name(name), State(outer + [Frame(f.kind, AFTER_NAME, f.names + {name})], true, rest))
  }

  /** What comes in a container that is just opened, after a comma or after a name. */
  function Inside(outer: seq<Frame>, f: Frame, s: Bytes): Out {
    var settled := outer + [f.(state := AFTER_ELEM)];
    if s == [] then Error
    else if f.state == AFTER_NAME then
      var r := if s[0] == COLON then SkipSpaces(s[1..]) else [];
      if r == [] then Error else ValueStep(settled, r)
    else if s[0] == CloseByte(f.kind) && f.state == OPENED then EndStep(outer, f.kind, s)
    else if f.kind.Object? then NameStep(outer, f, s)
    else ValueStep(settled, s)
  }

  /** What comes after an element: the container's end, or a comma and what comes after it. */
  function After(outer: seq<Frame>, f: Frame, s: Bytes): Out {
    if s == [] then Error
    else if s[0] == CloseByte(f.kind) then EndStep(outer, f.kind, s)
    else if s[0] == COMMA then Inside(outer, f.(state := AFTER_COMMA), SkipSpaces(s[1..]))
    else Error
  }

  function Next(st: State): Out {
    var s := SkipSpaces(st.rest);
    if st.stack == [] then
      if st.started then if s == [] then Eof else Error
      else if s == [] then Error
      else ValueStep([], s)
    else
      var outer, f := st.stack[..|st.stack| - 1], st.stack[|st.stack| - 1];
      if f.state == AFTER_ELEM then After(outer, f, s) else Inside(outer, f, s)
  }

  // ---------------------------------------------------------------------
  // What can follow a state.
  // ---------------------------------------------------------------------

  /** What is left of the innermost container. */
  datatype Plan =
    | OfBody(b: Body)
    | OfElem(e: Elem, t: Tail)
    | OfRest(w1: Bytes, w2: Bytes, v: Value, t: Tail)
    | OfTail(t: Tail)

  function PlanText(k: Kind, p: Plan): Bytes {
    match p
    case OfBody(b) => BodyText(k, b)
    case OfElem(e, t) => ElemText(e) + TailText(k, t)
    case OfRest(w1, w2, v, t) => RestText(w1, w2, v) + TailText(k, t)
    case OfTail(t) => TailText(k, t)
  }

  predicate OkPlan(f: Frame, p: Plan, room: nat) {
    match p
    case OfBody(b) => f.state == OPENED && OkBody(f.kind, b, room)
    case OfElem(e, t) =>
      f.state == AFTER_COMMA && OkElem(f.kind, e, room, f.names) && OkTail(f.kind, t, room, NamesWith(e, f.names))
    case OfRest(w1, w2, v, t) =>
      f.state == AFTER_NAME && Spaces(w1) && Spaces(w2) && OkValue(v, room) && OkTail(f.kind, t, room, f.names)
    case OfTail(t) => f.state == AFTER_ELEM && OkTail(f.kind, t, room, f.names)
  }

  /** What is left completes every open container, innermost first, and then is whitespace. */
  ghost predicate Completes(stack: seq<Frame>, s: Bytes)
    requires |stack| <= MAX_DEPTH
    decreases |stack|
  {
    if stack == [] then Spaces(s)
    else exists p, r :: CompletesBy(stack, s, p, r)
  }

  ghost predicate CompletesBy(stack: seq<Frame>, s: Bytes, p: Plan, r: Bytes)
    requires 0 < |stack| <= MAX_DEPTH
    decreases |stack|, 0
  {
    var f := stack[|stack| - 1];
    OkPlan(f, p, MAX_DEPTH - |stack|) && s == PlanText(f.kind, p) + r && Completes(stack[..|stack| - 1], r)
  }

  /** What is left is a value and then completes the stack. */
  ghost predicate ValueThen(stack: seq<Frame>, s: Bytes)
    requires |stack| <= MAX_DEPTH
  {
    exists v, r :: ValueThenBy(stack, s, v, r)
  }

  ghost predicate ValueThenBy(stack: seq<Frame>, s: Bytes, v: Value, r: Bytes)
    requires |stack| <= MAX_DEPTH
  {
    OkValue(v, MAX_DEPTH - |stack|) && s == Text(v) + r && Completes(stack, r)
  }

  ghost predicate Lang(st: State)
    requires OkState(st)
  {
    if st.started then Completes(st.stack, st.rest) else IsJsonText(st.rest)
  }

  // ---------------------------------------------------------------------
  // First bytes.
  // ---------------------------------------------------------------------

  /** A value begins with no whitespace and no structural character but an opening bracket. */
  predicate Begins(b: Byte) {
    b == OpenByte(Object) || b == OpenByte(Array) || b == QUOTE || b == 0x74 || b == 0x66 || b == 0x6E || b == MINUS
      || Digit(b)
  }

  lemma FirstByte(v: Value, room: nat)
    requires OkValue(v, room)
    ensures Text(v) != [] && Begins(Text(v)[0])
    ensures Text(v)[0] == OpenByte(Object) <==> v.Container? && v.kind.Object?
    ensures Text(v)[0] == OpenByte(Array) <==> v.Container? && v.kind.Array?
    ensures Text(v)[0] == QUOTE <==> v.Str?
    ensures (Text(v)[0] == MINUS || Digit(Text(v)[0])) <==> v.Num?
    ensures Text(v)[0] == 0x74 <==> v == Literal(True)
    ensures Text(v)[0] == 0x66 <==> v == Literal(False)
    ensures Text(v)[0] == 0x6E <==> v == Literal(Null)
  {
  }

  /** After a value, only whitespace, a comma or the end of a container can follow. */
  lemma CompletesStops(stack: seq<Frame>, s: Bytes)
    requires Settled(stack) && Completes(stack, s)
    ensures Stops(s)
  {
    if stack != [] {
      var p, r :| CompletesBy(stack, s, p, r);
      var t := p.t;
      assert s[0] == TailText(stack[|stack| - 1].kind, t)[0] by {
        assert TailText(stack[|stack| - 1].kind, t) != [];
      }
    }
  }

  // ---------------------------------------------------------------------
  // Scalars.
  // ---------------------------------------------------------------------

  lemma {:induction false} ThenScalar(stack: seq<Frame>, s: Bytes, v: Value, r: Bytes)
    requires |stack| <= MAX_DEPTH && OkValue(v, MAX_DEPTH - |stack|) && s == Text(v) + r
    requires Completes(stack, r)
    ensures ValueThen(stack, s)
  {
    assert ValueThenBy(stack, s, v, r);
  }

  lemma {:induction false} StringStep(stack: seq<Frame>, s: Bytes)
    requires Settled(stack) && s != [] && s[0] == QUOTE
    ensures ValueThen(stack, s) <==> LexString(s).Read? && Completes(stack, LexString(s).rest)
  {
    if ValueThen(stack, s) {
      var v, r :| ValueThenBy(stack, s, v, r);
      FirstByte(v, MAX_DEPTH - |stack|);
      StringExact(s, v.s, r);
    }
    if LexString(s).Read? && Completes(stack, LexString(s).rest) {
      StringExact(s, LexString(s).value, LexString(s).rest);
      ThenScalar(stack, s, Str(LexString(s).value), LexString(s).rest);
    }
  }

  lemma NumberStep(stack: seq<Frame>, s: Bytes)
    requires Settled(stack) && s != [] && (s[0] == MINUS || Digit(s[0]))
    ensures ValueThen(stack, s) <==> LexNumber(s).Read? && Completes(stack, LexNumber(s).rest)
  {
    if ValueThen(stack, s) {
      var v, r :| ValueThenBy(stack, s, v, r);
      FirstByte(v, MAX_DEPTH - |stack|);
      CompletesStops(stack, r);
      NumberExact(s, v.n, r);
    }
    if LexNumber(s).Read? && Completes(stack, LexNumber(s).rest) {
      NumberSound(s);
      ThenScalar(stack, s, Num(LexNumber(s).value), LexNumber(s).rest);
    }
  }

  lemma WordStepExact(stack: seq<Frame>, s: Bytes, w: Word)
    requires Settled(stack) && s != [] && s[0] == WordText(w)[0]
    ensures ValueThen(stack, s) <==> LexWord(s, w).Read? && Completes(stack, LexWord(s, w).rest)
  {
    if ValueThen(stack, s) {
      var v, r :| ValueThenBy(stack, s, v, r);
      FirstByte(v, MAX_DEPTH - |stack|);
      assert v == Literal(w);
      assert s[|WordText(w)|..] == r;
    }
    if LexWord(s, w).Read? && Completes(stack, LexWord(s, w).rest) {
      assert s == WordText(w) + LexWord(s, w).rest;
      ThenScalar(stack, s, Literal(w), LexWord(s, w).rest);
    }
  }

  lemma ContainerText(k: Kind, b: Body, s: Bytes, r: Bytes)
    requires s != [] && s[0] == OpenByte(k)
    ensures s == Text(Container(k, b)) + r <==> s[1..] == BodyText(k, b) + r
  {
    hide BodyText;
    assert s == [OpenByte(k)] + s[1..];
    assert [OpenByte(k)] + BodyText(k, b) + r == [OpenByte(k)] + (BodyText(k, b) + r);
    assert ([OpenByte(k)] + (BodyText(k, b) + r))[1..] == BodyText(k, b) + r;
  }

  /** A container opens where there is room, and what is left completes it and then the stack. */
  lemma {:induction false} OpenExact(stack: seq<Frame>, s: Bytes, k: Kind)
    requires Settled(stack) && s != [] && s[0] == OpenByte(k)
    ensures ValueThen(stack, s) <==> |stack| < MAX_DEPTH && Completes(stack + [Frame(k, OPENED, {})], s[1..])
  {
    hide BodyText, OkBody, Completes;
    if ValueThen(stack, s) {
      var v, r :| ValueThenBy(stack, s, v, r);
      FirstByte(v, MAX_DEPTH - |stack|);
      ContainerText(k, v.body, s, r);
      Opened(stack, s, k, v.body, r);
    }
    if |stack| < MAX_DEPTH && Completes(stack + [Frame(k, OPENED, {})], s[1..]) {
      var b, r := Unopened(stack, s, k);
      ContainerText(k, b, s, r);
      ThenScalar(stack, s, Container(k, b), r);
    }
  }

  lemma {:induction false} Opened(stack: seq<Frame>, s: Bytes, k: Kind, b: Body, r: Bytes)
    requires |stack| < MAX_DEPTH && s != [] && s[1..] == BodyText(k, b) + r
    requires OkBody(k, b, MAX_DEPTH - |stack| - 1) && Completes(stack, r)
    ensures Completes(stack + [Frame(k, OPENED, {})], s[1..])
  {
    hide Completes, BodyText, OkBody;
    MakeComplete(stack, Frame(k, OPENED, {}), s[1..], OfBody(b), r);
  }

  lemma {:induction false} Unopened(stack: seq<Frame>, s: Bytes, k: Kind) returns (b: Body, r: Bytes)
    requires |stack| < MAX_DEPTH && s != [] && Completes(stack + [Frame(k, OPENED, {})], s[1..])
    ensures s[1..] == BodyText(k, b) + r && OkBody(k, b, MAX_DEPTH - |stack| - 1) && Completes(stack, r)
  {
    hide Completes, BodyText, OkBody;
    var p;
    p, r := TakeComplete(stack, Frame(k, OPENED, {}), s[1..]);
    b := p.b;
  }

  /** A value's first token is read exactly where a value and then the rest can follow. */
  lemma ValueExact(stack: seq<Frame>, s: Bytes)
    requires Settled(stack) && s != []
    ensures ValueStep(stack, s) != Eof
    ensures ValueStep(stack, s).Got? ==>
      var st := ValueStep(stack, s).st;
      && OkState(st) && st.started && |st.rest| < |s|
      && (ValueThen(stack, s) <==> Completes(st.stack, st.rest))
    ensures ValueStep(stack, s).Error? ==> !ValueThen(stack, s)
  {
    hide LexString, LexNumber, Completes, NumeralOf;
    if s[0] == OpenByte(Object) {
      OpenExact(stack, s, Object);
    } else if s[0] == OpenByte(Array) {
      OpenExact(stack, s, Array);
    } else if s[0] == QUOTE {
      StringStep(stack, s);
    } else if s[0] == 0x74 {
      WordStepExact(stack, s, True);
    } else if s[0] == 0x66 {
      WordStepExact(stack, s, False);
    } else if s[0] == 0x6E {
      WordStepExact(stack, s, Null);
    } else if s[0] == MINUS || Digit(s[0]) {
      NumberStep(stack, s);
      if LexNumber(s).Read? { NumberShrinks(s); }
    } else {
      NoValue(stack, s);
    }
  }

  lemma NoValue(stack: seq<Frame>, s: Bytes)
    requires |stack| <= MAX_DEPTH && (s == [] || !Begins(s[0]))
    ensures !ValueThen(stack, s)
  {
    forall v, r ensures !ValueThenBy(stack, s, v, r) {
      if OkValue(v, MAX_DEPTH - |stack|) { FirstByte(v, MAX_DEPTH - |stack|); }
    }
  }

  lemma NumberShrinks(s: Bytes)
    requires LexNumber(s).Read?
    ensures |LexNumber(s).rest| < |s|
  {
    NumberSound(s);
  }

  // ---------------------------------------------------------------------
  // Containers, one transition at a time. In each, r is what is left, and
  // what it starts with after whitespace decides.
  // ---------------------------------------------------------------------

  /** Whitespace before what is not whitespace is what is skipped. */
  lemma SkipTo(w: Bytes, x: Bytes)
    requires Spaces(w) && x != [] && !Space(x[0])
    ensures SkipSpaces(w + x) == x
  {
    SkipsAll(w, x);
  }

  lemma MakeComplete(outer: seq<Frame>, f: Frame, r: Bytes, p: Plan, q: Bytes)
    requires |outer| < MAX_DEPTH && OkPlan(f, p, MAX_DEPTH - |outer| - 1)
    requires r == PlanText(f.kind, p) + q && Completes(outer, q)
    ensures Completes(outer + [f], r)
  {
    var stack := outer + [f];
    assert stack[..|stack| - 1] == outer;
    assert CompletesBy(stack, r, p, q);
  }

  lemma TakeComplete(outer: seq<Frame>, f: Frame, r: Bytes) returns (p: Plan, q: Bytes)
    requires |outer| < MAX_DEPTH && Completes(outer + [f], r)
    ensures OkPlan(f, p, MAX_DEPTH - |outer| - 1) && r == PlanText(f.kind, p) + q && Completes(outer, q)
  {
    var stack := outer + [f];
    assert stack[..|stack| - 1] == outer;
    p, q :| CompletesBy(stack, r, p, q);
  }

  // How the texts of what is left begin.

  lemma CloseShape(k: Kind, w: Bytes, q: Bytes)
    ensures TailText(k, Close(w)) + q == w + ([CloseByte(k)] + q)
    ensures BodyText(k, Empty(w)) + q == w + ([CloseByte(k)] + q)
  {
  }

  lemma MoreShape(k: Kind, w: Bytes, e: Elem, t: Tail, q: Bytes)
    ensures TailText(k, More(w, e, t)) + q == w + ([COMMA] + (PlanText(k, OfElem(e, t)) + q))
  {
    hide ElemText;
    var text := ElemText(e) + TailText(k, t);
    assert TailText(k, More(w, e, t)) == w + ([COMMA] + text);
  }

  lemma RestShape(k: Kind, w1: Bytes, w2: Bytes, v: Value, t: Tail, q: Bytes)
    ensures PlanText(k, OfRest(w1, w2, v, t)) + q == w1 + ([COLON] + (w2 + (Text(v) + (TailText(k, t) + q))))
  {
    hide Text, TailText;
  }

  lemma ItemShape(k: Kind, w: Bytes, v: Value, t: Tail, q: Bytes)
    ensures PlanText(k, OfElem(Item(w, v), t)) + q == w + (Text(v) + (TailText(k, t) + q))
  {
    hide Text, TailText;
  }

  lemma MemberShape(k: Kind, w: Bytes, name: seq<Unit>, w1: Bytes, w2: Bytes, v: Value, t: Tail, q: Bytes)
    ensures PlanText(k, OfElem(Member(w, name, w1, w2, v), t)) + q ==
      w + (StringText(name) + (PlanText(k, OfRest(w1, w2, v, t)) + q))
  {
    hide Text, TailText, RestText, StringText;
  }

  /** Whitespace, one byte, and the rest. */
  lemma Lead(r: Bytes, w: Bytes, b: Byte, x: Bytes)
    requires Spaces(w) && !Space(b) && r == w + ([b] + x)
    ensures SkipSpaces(r) == [b] + x && SkipSpaces(r)[0] == b && SkipSpaces(r)[1..] == x
  {
    SkipTo(w, [b] + x);
  }

  lemma Unlead(r: Bytes) returns (w: Bytes)
    requires SkipSpaces(r) != []
    ensures Spaces(w) && r == w + ([SkipSpaces(r)[0]] + SkipSpaces(r)[1..])
  {
    w := Skipped(r);
    assert SkipSpaces(r) == [SkipSpaces(r)[0]] + SkipSpaces(r)[1..];
  }

  predicate LeadsWith(r: Bytes, b: Byte) {
    SkipSpaces(r) != [] && SkipSpaces(r)[0] == b
  }

  // ----- after an element ------------------------------------------------

  /** After an element: the container ends, or a comma and more follow. */
  lemma TailExact(outer: seq<Frame>, f: Frame, r: Bytes)
    requires |outer| < MAX_DEPTH && f.state == AFTER_ELEM
    ensures Completes(outer + [f], r) <==>
        || (LeadsWith(r, CloseByte(f.kind)) && Completes(outer, SkipSpaces(r)[1..]))
        || (LeadsWith(r, COMMA) && Completes(outer + [f.(state := AFTER_COMMA)], SkipSpaces(r)[1..]))
  {
    hide Completes;
    if Completes(outer + [f], r) { TailTaken(outer, f, r); }
    if LeadsWith(r, CloseByte(f.kind)) && Completes(outer, SkipSpaces(r)[1..]) { TailCloses(outer, f, r); }
    if LeadsWith(r, COMMA) && Completes(outer + [f.(state := AFTER_COMMA)], SkipSpaces(r)[1..]) {
      TailGoesOn(outer, f, r);
    }
  }

  lemma TailCloses(outer: seq<Frame>, f: Frame, r: Bytes)
    requires |outer| < MAX_DEPTH && f.state == AFTER_ELEM && LeadsWith(r, CloseByte(f.kind))
    requires Completes(outer, SkipSpaces(r)[1..])
    ensures Completes(outer + [f], r)
  {
    hide Completes, SkipSpaces, TailText, BodyText;
    var w := Unlead(r);
    CloseShape(f.kind, w, SkipSpaces(r)[1..]);
    MakeComplete(outer, f, r, OfTail(Close(w)), SkipSpaces(r)[1..]);
  }

  lemma {:induction false} TailGoesOn(outer: seq<Frame>, f: Frame, r: Bytes)
    requires |outer| < MAX_DEPTH && f.state == AFTER_ELEM && LeadsWith(r, COMMA)
    requires Completes(outer + [f.(state := AFTER_COMMA)], SkipSpaces(r)[1..])
    ensures Completes(outer + [f], r)
  {
    hide Completes, SkipSpaces, TailText, ElemText, OkElem;
    var w := Unlead(r);
    var p, q := TakeComplete(outer, f.(state := AFTER_COMMA), SkipSpaces(r)[1..]);
    MoreShape(f.kind, w, p.e, p.t, q);
    MakeComplete(outer, f, r, OfTail(More(w, p.e, p.t)), q);
  }

  lemma TailTaken(outer: seq<Frame>, f: Frame, r: Bytes)
    requires |outer| < MAX_DEPTH && f.state == AFTER_ELEM && Completes(outer + [f], r)
    ensures
      || (LeadsWith(r, CloseByte(f.kind)) && Completes(outer, SkipSpaces(r)[1..]))
      || (LeadsWith(r, COMMA) && Completes(outer + [f.(state := AFTER_COMMA)], SkipSpaces(r)[1..]))
  {
    hide Completes, SkipSpaces, TailText, ElemText, OkElem;
    var p, q := TakeComplete(outer, f, r);
    match p.t {
      case Close(w) =>
        CloseShape(f.kind, w, q);
        Lead(r, w, CloseByte(f.kind), q);
      case More(w, e, t) =>
        MoreShape(f.kind, w, e, t, q);
        Lead(r, w, COMMA, PlanText(f.kind, OfElem(e, t)) + q);
        MakeComplete(outer, f.(state := AFTER_COMMA), PlanText(f.kind, OfElem(e, t)) + q, OfElem(e, t), q);
    }
  }

  // ----- a value inside --------------------------------------------------

  /** A value and what completes the stack it settles, as what is left of its container. */
  lemma MakeValue(outer: seq<Frame>, f: Frame, v: Value, t: Tail, q: Bytes)
    requires |outer| < MAX_DEPTH && OkValue(v, MAX_DEPTH - |outer| - 1)
    requires OkTail(f.kind, t, MAX_DEPTH - |outer| - 1, f.names)
    requires Completes(outer, q)
    ensures ValueThen(outer + [f.(state := AFTER_ELEM)], Text(v) + (TailText(f.kind, t) + q))
  {
    hide Completes, Text, TailText;
    var settled := f.(state := AFTER_ELEM);
    MakeComplete(outer, settled, TailText(f.kind, t) + q, OfTail(t), q);
    assert ValueThenBy(outer + [settled], Text(v) + (TailText(f.kind, t) + q), v, TailText(f.kind, t) + q);
  }

  lemma TakeValue(outer: seq<Frame>, f: Frame, x: Bytes) returns (v: Value, t: Tail, q: Bytes)
    requires |outer| < MAX_DEPTH && ValueThen(outer + [f.(state := AFTER_ELEM)], x)
    ensures OkValue(v, MAX_DEPTH - |outer| - 1) && OkTail(f.kind, t, MAX_DEPTH - |outer| - 1, f.names)
    ensures Completes(outer, q) && x == Text(v) + (TailText(f.kind, t) + q)
  {
    hide Completes, Text, TailText;
    var settled := f.(state := AFTER_ELEM);
    var y;
    v, y :| ValueThenBy(outer + [settled], x, v, y);
    var p;
    p, q := TakeComplete(outer, settled, y);
    t := p.t;
  }

  lemma SkipToValue(w: Bytes, v: Value, room: nat, x: Bytes)
    requires Spaces(w) && OkValue(v, room)
    ensures SkipSpaces(w + (Text(v) + x)) == Text(v) + x
  {
    FirstByte(v, room);
    SkipTo(w, Text(v) + x);
  }

  // ----- after a name ----------------------------------------------------

  /** After a name: a colon, and a value after it. */
  lemma ColonExact(outer: seq<Frame>, f: Frame, r: Bytes)
    requires |outer| < MAX_DEPTH && f.state == AFTER_NAME
    ensures Completes(outer + [f], r) <==>
      LeadsWith(r, COLON) && ValueThen(outer + [f.(state := AFTER_ELEM)], SkipSpaces(SkipSpaces(r)[1..]))
  {
    hide Completes, Text, TailText, SkipSpaces, ValueThen, OkValue, OkTail, RestText, ElemText;
    if Completes(outer + [f], r) {
      var p, q := TakeComplete(outer, f, r);
      RestShape(f.kind, p.w1, p.w2, p.v, p.t, q);
      var x := TailText(f.kind, p.t) + q;
      Lead(r, p.w1, COLON, p.w2 + (Text(p.v) + x));
      SkipToValue(p.w2, p.v, MAX_DEPTH - |outer| - 1, x);
      MakeValue(outer, f, p.v, p.t, q);
    }
    if LeadsWith(r, COLON) && ValueThen(outer + [f.(state := AFTER_ELEM)], SkipSpaces(SkipSpaces(r)[1..])) {
      var v, t, q := TakeValue(outer, f, SkipSpaces(SkipSpaces(r)[1..]));
      var w1 := Unlead(r);
      var w2 := Skipped(SkipSpaces(r)[1..]);
      RestShape(f.kind, w1, w2, v, t, q);
      MakeComplete(outer, f, r, OfRest(w1, w2, v, t), q);
    }
  }

  // ----- after a comma ---------------------------------------------------

  /** In an array, after a comma: a value. */
  lemma {:induction false} ItemExact(outer: seq<Frame>, f: Frame, r: Bytes)
    requires |outer| < MAX_DEPTH && f.state == AFTER_COMMA && f.kind.Array?
    ensures Completes(outer + [f], r) <==> ValueThen(outer + [f.(state := AFTER_ELEM)], SkipSpaces(r))
  {
    hide Completes, Text, TailText, SkipSpaces, ValueThen, OkValue, OkTail, ElemText;
    if Completes(outer + [f], r) {
      var p, q := TakeComplete(outer, f, r);
      var w, v := p.e.w, p.e.v;
      ItemShape(f.kind, w, v, p.t, q);
      SkipToValue(w, v, MAX_DEPTH - |outer| - 1, TailText(f.kind, p.t) + q);
      MakeValue(outer, f, v, p.t, q);
    }
    if ValueThen(outer + [f.(state := AFTER_ELEM)], SkipSpaces(r)) {
      var v, t, q := TakeValue(outer, f, SkipSpaces(r));
      var w := Skipped(r);
      ItemShape(f.kind, w, v, t, q);
      MakeComplete(outer, f, r, OfElem(Item(w, v), t), q);
    }
  }

  /** Whether a name the object does not have stands first. */
  predicate LeadsWithName(f: Frame, r: Bytes) {
    var s := SkipSpaces(r);
    && s != [] && s[0] == QUOTE && |f.names| < MAX_MEMBERS && LexString(s).Read?
    && DecodedAll(LexString(s).value) !in f.names
  }

  function Named(f: Frame, us: seq<Unit>): Frame
    requires OkUnits(us)
  {
    Frame(f.kind, AFTER_NAME, f.names + {DecodedAll(us)})
  }

  /** In an object, after a comma: a name it does not have yet. */
  lemma {:induction false} NameExact(outer: seq<Frame>, f: Frame, r: Bytes)
    requires |outer| < MAX_DEPTH && f.state == AFTER_COMMA && f.kind.Object?
    ensures Completes(outer + [f], r) <==>
      LeadsWithName(f, r) && Completes(outer + [Named(f, LexString(SkipSpaces(r)).value)],
                                       LexString(SkipSpaces(r)).rest)
  {
    hide Completes, LexString, SkipSpaces, OkUnits;
    if Completes(outer + [f], r) { NameTaken(outer, f, r); }
    if LeadsWithName(f, r) && Completes(outer + [Named(f, LexString(SkipSpaces(r)).value)],
                                        LexString(SkipSpaces(r)).rest) {
      NameGiven(outer, f, r);
    }
  }

  lemma {:induction false} NameGiven(outer: seq<Frame>, f: Frame, r: Bytes)
    requires |outer| < MAX_DEPTH && f.state == AFTER_COMMA && f.kind.Object? && LeadsWithName(f, r)
    requires Completes(outer + [Named(f, LexString(SkipSpaces(r)).value)], LexString(SkipSpaces(r)).rest)
    ensures Completes(outer + [f], r)
  {
    hide Completes, LexString, SkipSpaces, OkUnits, OkValue, OkTail, StringText, ElemText, RestText, TailText;
    var us, x := LexString(SkipSpaces(r)).value, LexString(SkipSpaces(r)).rest;
    StringExact(SkipSpaces(r), us, x);
    var p, q := TakeComplete(outer, Named(f, us), x);
    var w := Skipped(r);
    MemberShape(f.kind, w, us, p.w1, p.w2, p.v, p.t, q);
    var e := Member(w, us, p.w1, p.w2, p.v);
    assert OkElem(f.kind, e, MAX_DEPTH - |outer| - 1, f.names);
    MakeComplete(outer, f, r, OfElem(e, p.t), q);
  }

  lemma {:induction false} NameTaken(outer: seq<Frame>, f: Frame, r: Bytes)
    requires |outer| < MAX_DEPTH && f.state == AFTER_COMMA && f.kind.Object? && Completes(outer + [f], r)
    ensures LeadsWithName(f, r)
    ensures Completes(outer + [Named(f, LexString(SkipSpaces(r)).value)], LexString(SkipSpaces(r)).rest)
  {
    hide Completes, LexString, SkipSpaces, OkUnits, OkValue, OkTail, StringText, ElemText, RestText, TailText,
      UnitsText;
    var p, q := TakeComplete(outer, f, r);
    var e := p.e;
    var rest := OfRest(e.w1, e.w2, e.v, p.t);
    var x := PlanText(f.kind, rest) + q;
    MemberShape(f.kind, e.w, e.name, e.w1, e.w2, e.v, p.t, q);
    QuoteFirst(e.name, x);
    SkipTo(e.w, StringText(e.name) + x);
    StringExact(StringText(e.name) + x, e.name, x);
    MakeComplete(outer, Named(f, e.name), x, rest, q);
  }

  lemma QuoteFirst(us: seq<Unit>, x: Bytes)
    ensures StringText(us) + x != [] && (StringText(us) + x)[0] == QUOTE
  {
  }

  // ----- just opened -----------------------------------------------------

  /** Just opened: the container ends, or goes on as after a comma. */
  lemma {:induction false} BodyExact(outer: seq<Frame>, f: Frame, r: Bytes)
    requires |outer| < MAX_DEPTH && f.state == OPENED && f.names == {}
    ensures Completes(outer + [f], r) <==>
        || (LeadsWith(r, CloseByte(f.kind)) && Completes(outer, SkipSpaces(r)[1..]))
        || Completes(outer + [f.(state := AFTER_COMMA)], r)
  {
    hide Completes, SkipSpaces, TailText, ElemText, OkElem, OkTail, CloseByte, BodyText;
    if Completes(outer + [f], r) { BodyTaken(outer, f, r); }
    if LeadsWith(r, CloseByte(f.kind)) && Completes(outer, SkipSpaces(r)[1..]) {
      var w := Unlead(r);
      CloseShape(f.kind, w, SkipSpaces(r)[1..]);
      MakeComplete(outer, f, r, OfBody(Empty(w)), SkipSpaces(r)[1..]);
    }
    if Completes(outer + [f.(state := AFTER_COMMA)], r) {
      var p, q := TakeComplete(outer, f.(state := AFTER_COMMA), r);
      FullShape(f.kind, p.e, p.t);
      MakeComplete(outer, f, r, OfBody(Full(p.e, p.t)), q);
    }
  }

  lemma FullShape(k: Kind, e: Elem, t: Tail)
    ensures BodyText(k, Full(e, t)) == PlanText(k, OfElem(e, t))
  {
  }

  lemma BodyTaken(outer: seq<Frame>, f: Frame, r: Bytes)
    requires |outer| < MAX_DEPTH && f.state == OPENED && f.names == {} && Completes(outer + [f], r)
    ensures
        || (LeadsWith(r, CloseByte(f.kind)) && Completes(outer, SkipSpaces(r)[1..]))
        || Completes(outer + [f.(state := AFTER_COMMA)], r)
  {
    hide Completes, SkipSpaces, TailText, ElemText, OkElem, OkTail;
    var p, q := TakeComplete(outer, f, r);
    match p.b {
      case Empty(w) =>
        CloseShape(f.kind, w, q);
        Lead(r, w, CloseByte(f.kind), q);
      case Full(e, t) =>
        FullShape(f.kind, e, t);
        MakeComplete(outer, f.(state := AFTER_COMMA), r, OfElem(e, t), q);
    }
  }

  /** After a comma, the container cannot end at once. */
  lemma {:induction false} NoEndAfterComma(outer: seq<Frame>, f: Frame, r: Bytes)
    requires |outer| < MAX_DEPTH && f.state == AFTER_COMMA
    requires SkipSpaces(r) == [] || SkipSpaces(r)[0] == CloseByte(f.kind)
    ensures !Completes(outer + [f], r)
  {
    hide Completes, SkipSpaces, ValueThen, LexString;
    if f.kind.Array? {
      ItemExact(outer, f, r);
      NoValue(outer + [f.(state := AFTER_ELEM)], SkipSpaces(r));
    } else {
      NameExact(outer, f, r);
    }
  }

  // ---------------------------------------------------------------------
  // Every step keeps what can follow; a run accepts exactly the JSON texts.
  // ---------------------------------------------------------------------

  /** A step from what could be completed, exactly: on to what can be, or to no token where nothing can. */
  ghost predicate Exact(can: bool, o: Out, size: nat) {
    match o
    case Got(_, st) => OkState(st) && st.started && |st.rest| < size && (can <==> Completes(st.stack, st.rest))
    case Eof => can
    case Error => !can
  }

  lemma ValueIsExact(stack: seq<Frame>, s: Bytes)
    requires Settled(stack)
    ensures s != [] ==> Exact(ValueThen(stack, s), ValueStep(stack, s), |s|)
    ensures s == [] ==> !ValueThen(stack, s)
  {
    hide ValueStep, ValueThen, Completes;
    if s != [] { ValueExact(stack, s); } else { NoValue(stack, s); }
  }

  lemma SettledWith(outer: seq<Frame>, f: Frame)
    requires Settled(outer) && |outer| < MAX_DEPTH && OkFrame(f)
    ensures f.state == AFTER_ELEM ==> Settled(outer + [f])
    ensures OkStack(outer + [f])
  {
  }

  /** After a name or a comma, or just opened. */
  lemma {:induction false} InsideExact(outer: seq<Frame>, f: Frame, r: Bytes)
    requires Settled(outer) && |outer| < MAX_DEPTH && OkFrame(f) && f.state != AFTER_ELEM
    ensures Exact(Completes(outer + [f], r), Inside(outer, f, SkipSpaces(r)), |r|)
  {
    hide Completes, ValueStep, ValueThen, LexString, SkipSpaces;
    var s := SkipSpaces(r);
    var settled := f.(state := AFTER_ELEM);
    SettledWith(outer, settled);
    if f.state == AFTER_NAME {
      ColonExact(outer, f, r);
      if LeadsWith(r, COLON) { ValueIsExact(outer + [settled], SkipSpaces(s[1..])); }
    } else if f.state == OPENED {
      BodyExact(outer, f, r);
      AfterCommaExact(outer, f.(state := AFTER_COMMA), r);
      if s == [] || LeadsWith(r, CloseByte(f.kind)) { NoEndAfterComma(outer, f.(state := AFTER_COMMA), r); }
    } else {
      AfterCommaExact(outer, f, r);
    }
  }

  lemma {:induction false} AfterCommaExact(outer: seq<Frame>, f: Frame, r: Bytes)
    requires Settled(outer) && |outer| < MAX_DEPTH && OkFrame(f) && f.state == AFTER_COMMA
    ensures Exact(Completes(outer + [f], r), Inside(outer, f, SkipSpaces(r)), |r|)
  {
    hide Completes, ValueStep, ValueThen, LexString, SkipSpaces;
    var s := SkipSpaces(r);
    var settled := f.(state := AFTER_ELEM);
    SettledWith(outer, settled);
    if s == [] {
      NoEndAfterComma(outer, f, r);
    } else if f.kind.Array? {
      ItemExact(outer, f, r);
      ValueIsExact(outer + [settled], s);
    } else {
      NameExact(outer, f, r);
      if LeadsWithName(f, r) { SettledWith(outer, Named(f, LexString(s).value)); }
    }
  }

  lemma {:induction false} AfterExact(outer: seq<Frame>, f: Frame, r: Bytes)
    requires Settled(outer) && |outer| < MAX_DEPTH && OkFrame(f) && f.state == AFTER_ELEM
    ensures Exact(Completes(outer + [f], r), After(outer, f, SkipSpaces(r)), |r|)
  {
    hide Completes, Inside, SkipSpaces;
    TailExact(outer, f, r);
    var s := SkipSpaces(r);
    if s != [] { InsideExact(outer, f.(state := AFTER_COMMA), s[1..]); }
  }

  /** At the start, a value and then whitespace. */
  lemma StartExact(r: Bytes)
    ensures IsJsonText(r) <==> ValueThen([], SkipSpaces(r))
  {
    if IsJsonText(r) {
      var w, v, w1 :| Spaces(w) && Spaces(w1) && OkValue(v, MAX_DEPTH) && r == w + (Text(v) + w1);
      SkipToValue(w, v, MAX_DEPTH, w1);
      assert ValueThenBy([], SkipSpaces(r), v, w1);
    }
    if ValueThen([], SkipSpaces(r)) {
      var v, w1 :| ValueThenBy([], SkipSpaces(r), v, w1);
      var w := Skipped(r);
      assert r == w + (Text(v) + w1);
    }
  }

  /** At the end, nothing but whitespace. */
  lemma EndExact(r: Bytes)
    ensures Spaces(r) <==> SkipSpaces(r) == []
  {
    var w := Skipped(r);
    if Spaces(r) {
      SkipsAll(r, []);
      assert r + [] == r;
    }
    assert SkipSpaces(r) == [] ==> w + [] == w && w == r;
  }

  /**
   Every token is read exactly where what follows can be completed; the end only where nothing is left
   to complete.
   */
  lemma NextExact(st: State)
    requires OkState(st)
    ensures Exact(Lang(st), Next(st), |st.rest|)
  {
    hide Completes, Inside, After, SkipSpaces, ValueStep, ValueThen, IsJsonText;
    var stack, r := st.stack, st.rest;
    if stack == [] {
      if st.started {
        EndExact(r);
        StackDone(r);
      } else {
        StartExact(r);
        ValueIsExact([], SkipSpaces(r));
      }
    } else {
      var outer, f := stack[..|stack| - 1], stack[|stack| - 1];
      assert stack == outer + [f];
      if f.state == AFTER_ELEM { AfterExact(outer, f, r); } else { InsideExact(outer, f, r); }
    }
  }

  lemma StackDone(r: Bytes)
    ensures Completes([], r) <==> Spaces(r)
  {
  }

  /** Reading tokens to the end of the input. */
  function Accepts(st: State): bool
    requires OkState(st)
    decreases |st.rest|
  {
    hide Next, Lang, Completes;
    NextExact(st);
    match Next(st)
    case Got(_, next) => Accepts(next)
    case Eof => true
    case Error => false
  }

  lemma {:induction false} AcceptsLang(st: State)
    requires OkState(st)
    ensures Accepts(st) <==> Lang(st)
    decreases |st.rest|
  {
    hide Next, Completes;
    NextExact(st);
    if Next(st).Got? { AcceptsLang(Next(st).st); }
  }

  /** Reading tokens to the end of input succeeds on exactly the texts the grammar spells within the limits. */
  lemma AcceptsExactly(s: Bytes)
    ensures Accepts(State([], false, s)) <==> IsJsonText(s)
  {
    AcceptsLang(State([], false, s));
  }

  // ---------------------------------------------------------------------
  // Reading one value.
  // ---------------------------------------------------------------------

  function Deeper(depth: nat, t: Token): int {
    if t.Begin? then depth + 1 else if t.End? then depth - 1 else depth
  }

  /** Reading tokens until the containers opened since are closed again; none where that cannot be. */
  function ReadOn(st: State, depth: nat): Option<State>
    requires OkState(st)
    decreases |st.rest|
  {
    hide Next, Lang, Completes;
    if depth == 0 then Some(st)
    else
      NextExact(st);
      var o := Next(st);
      if !o.Got? || Deeper(depth, o.t) < 0 then None else ReadOn(o.st, Deeper(depth, o.t))
  }

  /** Reading the next value, which must come next. */
  function ReadValue(st: State): Option<State>
    requires OkState(st)
  {
    hide Next, Lang, Completes;
    NextExact(st);
    var o := Next(st);
    if !o.Got? || o.t.Name? || o.t.End? then None else ReadOn(o.st, Deeper(0, o.t))
  }

  /** The stack's height follows the depth, so a value read leaves as many containers open as before it. */
  lemma {:induction false} ReadOnHeight(st: State, depth: nat)
    requires OkState(st) && depth <= |st.stack| && ReadOn(st, depth).Some?
    ensures OkState(ReadOn(st, depth).value) && |ReadOn(st, depth).value.stack| == |st.stack| - depth
    decreases |st.rest|
  {
    hide Next, Lang, Completes;
    if depth > 0 {
      NextExact(st);
      NextHeight(st);
      var o := Next(st);
      ReadOnHeight(o.st, Deeper(depth, o.t));
    }
  }

  lemma NextHeight(st: State)
    requires OkState(st) && Next(st).Got?
    ensures |Next(st).st.stack| == Deeper(|st.stack|, Next(st).t)
  {
    hide SkipSpaces, LexString, LexNumber, LexWord, Fitting, Decimal, OkStack;
    var o := Next(st);
    assert Deeper(0, o.t) == if o.t.Begin? then 1 else if o.t.End? then -1 else 0;
  }
}
