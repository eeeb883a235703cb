/**
 The calls of a session and the history each one's request records: its own
 list, or, where it continues a provider thread, the history of the call whose
 reply it names, that reply, and its own list after it.
 */
module Threads {
  import opened Messages
  import opened BodyLists

  const NO_REQUEST := "no_request"
  const NO_REPLY := "no_reply"
  const FORM_MISMATCH := "form_mismatch"
  const UNRESOLVED := "thread_unresolved"

  /** A call as the comparison sees it; req and resp are rows of bodies, negative for none. */
  datatype Call = Call(
    stream: nat, msg: nat, req: int, resp: int, epoch: string, aux: bool,
    flaggedInternal: bool, flaggedTurn: bool)

  /** How a request goes on: from nothing, from another call, or in a way that cannot be followed. */
  datatype Step = Whole | Broken(why: string) | From(call: nat)

  /** A history's length and the continues it goes back through, or why there is none. */
  datatype Measure = Measure(length: nat, links: nat, why: string)

  function NoMeasure(why: string): Measure {
    Measure(0, 0, why)
  }

  datatype System = System(digest: nat, known: bool)

  const UNKNOWN_SYSTEM := System(0, false)

  datatype Session = Session(t: Table, calls: seq<Call>, byMessage: map<(nat, nat), nat>, maxLinks: nat,
                             maxEntries: nat) {

    /** Rows exist, and each call is the one of its stream with its message id. */
    ghost predicate Valid() {
      && t.Valid()
      && (forall c :: 0 <= c < |calls| ==> calls[c].req < |t.bodies| && calls[c].resp < |t.bodies|)
      && (forall k :: k in byMessage ==> byMessage[k] < |calls|)
      && (forall c :: 0 <= c < |calls| && calls[c].msg != 0 ==>
        (calls[c].stream, calls[c].msg) in byMessage && byMessage[(calls[c].stream, calls[c].msg)] == c)
    }

    function FormOf(row: int): nat
      requires row < |t.bodies|
    {
      if row < 0 then 0 else t.bodies[row].form
    }

    /** Why p's reply cannot be compared with n, or "". */
    function ReplyWhy(p: nat, n: nat): string
      requires Valid() && p < |calls| && n < |calls|
    {
      if calls[p].resp < 0 || !t.bodies[calls[p].resp].replyKind.ReplyEntry? then NO_REPLY
      else if FormOf(calls[p].resp) != FormOf(calls[n].req) then FORM_MISMATCH
      else ""
    }

    function ReplyOf(p: nat): Message
      requires Valid() && p < |calls| && calls[p].resp >= 0
    {
      t.bodies[calls[p].resp].reply
    }

    /** What a request goes on from. */
    function Continued(c: nat): (s: Step)
      requires Valid() && c < |calls| && calls[c].req >= 0
      ensures s.From? ==> s.call < |calls| && calls[s.call].req >= 0 && calls[s.call].resp >= 0
    {
      var y := t.bodies[calls[c].req];
      var key := (calls[c].stream, y.threadPrevious);
      if !y.thread.ThreadContinue? then Whole
      else if key !in byMessage || calls[byMessage[key]].req < 0
        || FormOf(calls[byMessage[key]].req) != FormOf(calls[c].req) then Broken(UNRESOLVED)
      else if ReplyWhy(byMessage[key], c) != "" then Broken("thread_reply:" + ReplyWhy(byMessage[key], c))
      else From(byMessage[key])
    }

    /** A reply can be compared with a call when it is there as an entry, in the form of the call's own request. */
    lemma ReplyReadable(p: nat, n: nat)
      requires Valid() && p < |calls| && n < |calls|
      ensures ReplyWhy(p, n) == "" <==>
                (calls[p].resp >= 0 && t.bodies[calls[p].resp].replyKind == ReplyEntry
                 && t.bodies[calls[p].resp].form == if calls[n].req < 0 then 0 else t.bodies[calls[n].req].form)
      ensures ReplyWhy(p, n) == NO_REPLY <==> calls[p].resp < 0 || t.bodies[calls[p].resp].replyKind != ReplyEntry
    {
      assert NO_REPLY[0] != FORM_MISMATCH[0];
    }

    /**
     A request goes on from a call exactly when it says it continues, and the call of its stream whose message it
     names has a request of its form, and a reply of its form to go on from; and from nothing when it does not say so.
     */
    lemma ContinuesWhen(c: nat)
      requires Valid() && c < |calls| && calls[c].req >= 0
      ensures Continued(c) == Whole <==> t.bodies[calls[c].req].thread != ThreadContinue
      ensures forall p: nat :: Continued(c) == From(p) <==>
                (t.bodies[calls[c].req].thread == ThreadContinue
                && (calls[c].stream, t.bodies[calls[c].req].threadPrevious) in byMessage
                && byMessage[(calls[c].stream, t.bodies[calls[c].req].threadPrevious)] == p
                && p < |calls| && calls[p].req >= 0 && calls[p].resp >= 0
                && t.bodies[calls[p].req].form == t.bodies[calls[p].resp].form == t.bodies[calls[c].req].form
                && t.bodies[calls[p].resp].replyKind == ReplyEntry)
    {
      var key := (calls[c].stream, t.bodies[calls[c].req].threadPrevious);
      if key in byMessage { ReplyReadable(byMessage[key], c); }
    }

    /**
     Why a request that says it continues goes on from nothing: no such call of its form, or no reply,
     or of another form.
     */
    lemma BrokenBecause(c: nat)
      requires Valid() && c < |calls| && calls[c].req >= 0 && t.bodies[calls[c].req].thread == ThreadContinue
      ensures var key := (calls[c].stream, t.bodies[calls[c].req].threadPrevious);
              if key in byMessage && calls[byMessage[key]].req >= 0
                && t.bodies[calls[byMessage[key]].req].form == t.bodies[calls[c].req].form
              then
                var p := byMessage[key];
                if calls[p].resp < 0 || t.bodies[calls[p].resp].replyKind != ReplyEntry
                then Continued(c) == Broken("thread_reply:no_reply")
                else (Continued(c) == Broken("thread_reply:form_mismatch")
                      <==> t.bodies[calls[p].resp].form != t.bodies[calls[c].req].form)
              else Continued(c) == Broken("thread_unresolved")
    {
      var key := (calls[c].stream, t.bodies[calls[c].req].threadPrevious);
      if key in byMessage { ReplyReadable(byMessage[key], c); }
    }

    predicate GoesOn(c: nat)
      requires Valid() && c < |calls|
    {
      calls[c].req >= 0 && Continued(c).From?
    }

    // -------------------------------------------------------------------
    // What a history is.
    // -------------------------------------------------------------------

    ghost predicate OwnHolds(c: nat)
      requires Valid() && c < |calls| && calls[c].req >= 0
    {
      t.OwnMeasure(calls[c].req).why == ""
    }

    ghost function OwnList(c: nat): (l: seq<Message>)
      requires Valid() && c < |calls| && calls[c].req >= 0 && OwnHolds(c)
      ensures |l| == t.OwnMeasure(calls[c].req).length
    {
      t.Content(calls[c].req, t.OwnMeasure(calls[c].req).depth)
    }

    /**
     c's thread goes back through exactly n continues to a request that holds its whole list, every list
     on the way holding.
     */
    ghost predicate WellFounded(c: nat, n: nat)
      requires Valid() && c < |calls|
      decreases n
    {
      && calls[c].req >= 0
      && OwnHolds(c)
      && if n == 0 then Continued(c).Whole?
         else Continued(c).From? && WellFounded(Continued(c).call, n - 1)
    }

    ghost function History(c: nat, n: nat): seq<Message>
      requires Valid() && c < |calls| && WellFounded(c, n)
      decreases n
    {
      if n == 0 then OwnList(c)
      else
        var x := Continued(c).call;
        History(x, n - 1) + [ReplyOf(x)] + OwnList(c)
    }

    lemma FoundedStep(c: nat, n: nat)
      requires Valid() && c < |calls| && WellFounded(c, n)
      ensures calls[c].req >= 0 && OwnHolds(c)
      ensures if n == 0 then Continued(c).Whole? else Continued(c).From? && WellFounded(Continued(c).call, n - 1)
    {
    }

    /** A history exists and is within both bounds. */
    ghost predicate Measurable(c: nat, n: nat)
      requires Valid() && c < |calls|
    {
      WellFounded(c, n) && n <= maxLinks && |History(c, n)| <= maxEntries
    }

    lemma {:induction false} FoundedOnce(c: nat, n: nat, m: nat)
      requires Valid() && c < |calls| && WellFounded(c, n) && WellFounded(c, m)
      ensures n == m
      decreases n
    {
      hide OwnHolds, Continued, ReplyWhy, FormOf;
      if n > 0 && m > 0 { FoundedOnce(Continued(c).call, n - 1, m - 1); }
    }

    // -------------------------------------------------------------------
    // The measure of a call whose thread ends, as the walk takes it.
    // -------------------------------------------------------------------

    /** The thread ends n calls back: at one that goes on from nothing. */
    ghost predicate Ends(c: nat, n: nat)
      requires Valid() && c < |calls|
      decreases n
    {
      if n == 0 then !GoesOn(c) else GoesOn(c) && Ends(Continued(c).call, n - 1)
    }

    ghost function MeasureAt(c: nat, n: nat): Measure
      requires Valid() && c < |calls| && Ends(c, n)
      decreases n
    {
      if n == 0 then First(c)
      else Joined(c, MeasureAt(Continued(c).call, n - 1))
    }

    /** The measure of a call that goes on from none. */
    ghost function First(c: nat): Measure
      requires Valid() && c < |calls|
    {
      if calls[c].req < 0 then NoMeasure(NO_REQUEST)
      else
        var own := t.OwnMeasure(calls[c].req);
        if own.why != "" then NoMeasure(own.why)
        else if own.length > maxEntries then NoMeasure(LIST_TOO_LARGE)
        else if Continued(c).Broken? then NoMeasure(Continued(c).why)
        else Measure(own.length, 0, "")
    }

    /** The measure of a call over that of the call it continues. */
    ghost function Joined(c: nat, before: Measure): Measure
      requires Valid() && c < |calls| && calls[c].req >= 0
    {
      var own := t.OwnMeasure(calls[c].req);
      if own.why != "" then NoMeasure(own.why)
      else if own.length > maxEntries then NoMeasure(LIST_TOO_LARGE)
      else if before.why == LIST_TOO_LARGE then NoMeasure(LIST_TOO_LARGE)
      else if before.why != "" then NoMeasure(UNRESOLVED)
      else if before.links + 1 > maxLinks || before.length + 1 + own.length > maxEntries then NoMeasure(LIST_TOO_LARGE)
      else Measure(before.length + 1 + own.length, before.links + 1, "")
    }

    lemma {:induction false} EndsOnce(c: nat, n: nat, m: nat)
      requires Valid() && c < |calls| && Ends(c, n) && Ends(c, m)
      ensures n == m
      decreases n
    {
      if n > 0 && m > 0 { EndsOnce(Continued(c).call, n - 1, m - 1); }
    }

    lemma {:induction false} FoundedEnds(c: nat, n: nat)
      requires Valid() && c < |calls| && WellFounded(c, n)
      ensures Ends(c, n)
      decreases n
    {
      if n > 0 { FoundedEnds(Continued(c).call, n - 1); }
    }

    /**
     The measure exists exactly when the recursive history does, within both bounds, and gives its
     length and links.
     */
    lemma {:induction false} MeasureIsHistory(c: nat, n: nat)
      requires Valid() && c < |calls| && Ends(c, n)
      ensures MeasureAt(c, n).why == "" <==> Measurable(c, n)
      ensures MeasureAt(c, n).why == "" ==> MeasureAt(c, n) == Measure(|History(c, n)|, n, "")
      decreases n
    {
      if n > 0 {
        MeasureIsHistory(Continued(c).call, n - 1);
      }
    }

    ghost predicate StaysIn(loop: set<nat>, c: nat)
      requires Valid()
    {
      c < |calls| && GoesOn(c) && Continued(c).call in loop
    }

    /** A set of calls that each go on to one of the set has no end. */
    lemma {:induction false} LoopNeverEnds(loop: set<nat>, c: nat, n: nat)
      requires Valid() && c in loop && c < |calls|
      requires forall x {:trigger StaysIn(loop, x)} :: x in loop ==> StaysIn(loop, x)
      ensures !Ends(c, n)
      decreases n
    {
      assert StaysIn(loop, c);
      if n > 0 { LoopNeverEnds(loop, Continued(c).call, n - 1); }
    }

    /** A measure is right: exact where the thread ends, and none where it does not. */
    ghost predicate Right(c: nat, m: Measure)
      requires Valid() && c < |calls|
    {
      && (forall n: nat :: Ends(c, n) ==> m == MeasureAt(c, n))
      && ((forall n: nat :: !Ends(c, n)) ==> m.why != "")
    }

    /** Right measures agree on whether there is a history, and on its length and links. */
    lemma {:induction false} RightDecides(c: nat, m: Measure)
      requires Valid() && c < |calls| && Right(c, m)
      ensures m.why == "" <==> exists n: nat :: Measurable(c, n)
      ensures m.why == "" ==> Measurable(c, m.links) && m.length == |History(c, m.links)|
    {
      if n: nat :| Ends(c, n) {
        MeasureIsHistory(c, n);
        forall k: nat | Measurable(c, k) ensures k == n {
          FoundedEnds(c, k);
          EndsOnce(c, k, n);
        }
      } else {
        forall k: nat ensures !Measurable(c, k) {
          if WellFounded(c, k) { FoundedEnds(c, k); }
        }
      }
    }

    /** The call before's right measure gives its own. */
    lemma {:induction false} RightJoins(c: nat, before: Measure)
      requires Valid() && c < |calls| && GoesOn(c) && Right(Continued(c).call, before)
      ensures Right(c, Joined(c, before))
    {
      var x := Continued(c).call;
      forall n: nat | Ends(c, n) ensures Joined(c, before) == MeasureAt(c, n) {
        assert Ends(x, n - 1);
      }
      if forall n: nat :: !Ends(c, n) {
        forall n: nat ensures !Ends(x, n) {
          assert Ends(c, n + 1) <==> Ends(x, n);
        }
      }
    }

    lemma RightFirst(c: nat)
      requires Valid() && c < |calls| && !GoesOn(c)
      ensures Right(c, First(c))
    {
      assert Ends(c, 0);
    }

    // -------------------------------------------------------------------
    // The system prompt of a call.
    // -------------------------------------------------------------------

    /** The prompt is the thread's: it is for the call this one continues to say. */
    predicate SystemAbove(c: nat)
      requires Valid() && c < |calls|
    {
      && calls[c].req >= 0
      && !t.bodies[calls[c].req].systemUnknown
      && t.bodies[calls[c].req].thread.ThreadContinue?
      && t.bodies[calls[c].req].system == 0
      && Continued(c).From?
    }

    function SystemHere(c: nat): System
      requires Valid() && c < |calls|
    {
      if calls[c].req < 0 then UNKNOWN_SYSTEM
      else
        var y := t.bodies[calls[c].req];
        if y.systemUnknown || y.thread.ThreadContinue? then UNKNOWN_SYSTEM else System(y.system, true)
    }

    /** The call that says c's prompt is n calls back. */
    ghost predicate SaidAt(c: nat, n: nat)
      requires Valid() && c < |calls|
      decreases n
    {
      if n == 0 then !SystemAbove(c) else SystemAbove(c) && SaidAt(Continued(c).call, n - 1)
    }

    ghost function SystemAt(c: nat, n: nat): System
      requires Valid() && c < |calls| && SaidAt(c, n)
      decreases n
    {
      if n == 0 then SystemHere(c) else SystemAt(Continued(c).call, n - 1)
    }

    /** The one prompt a call has: what the thread says, and none known where it has no start. */
    ghost predicate SystemIs(c: nat, s: System)
      requires Valid() && c < |calls|
    {
      && (forall n: nat :: SaidAt(c, n) ==> s == SystemAt(c, n))
      && ((forall n: nat :: !SaidAt(c, n)) ==> s == UNKNOWN_SYSTEM)
    }

    lemma {:induction false} SystemOnce(c: nat, s: System, u: System)
      requires Valid() && c < |calls| && SystemIs(c, s) && SystemIs(c, u)
      ensures s == u
    {
      if n: nat :| SaidAt(c, n) {
        assert s == SystemAt(c, n) == u;
      }
    }

    lemma SystemHereIs(c: nat)
      requires Valid() && c < |calls| && !SystemAbove(c)
      ensures SystemIs(c, SystemHere(c))
    {
      assert SaidAt(c, 0);
    }

    lemma {:induction false} SystemPasses(c: nat, s: System)
      requires Valid() && c < |calls| && SystemAbove(c) && SystemIs(Continued(c).call, s)
      ensures SystemIs(c, s)
    {
      var x := Continued(c).call;
      forall n: nat | SaidAt(c, n) ensures s == SystemAt(c, n) {
        assert SaidAt(x, n - 1);
      }
      if forall n: nat :: !SaidAt(c, n) {
        forall n: nat ensures !SaidAt(x, n) {
          assert SaidAt(c, n + 1) <==> SaidAt(x, n);
        }
      }
    }

    /**
     A request of its own says its prompt; one that continues and brings no system block has the prompt of the call it
     goes on from; and no other call's is known: one with no request, one whose system cannot be read,
     one that continues with a system block, and one with nothing to go on from.
     */
    lemma PromptSays(c: nat, s: System)
      requires Valid() && c < |calls|
      ensures (calls[c].req >= 0 && !t.bodies[calls[c].req].systemUnknown
               && t.bodies[calls[c].req].thread != ThreadContinue) ==>
                SystemIs(c, System(t.bodies[calls[c].req].system, true))
      ensures (calls[c].req >= 0 && !t.bodies[calls[c].req].systemUnknown
               && t.bodies[calls[c].req].thread == ThreadContinue
               && t.bodies[calls[c].req].system == 0 && Continued(c).From? && SystemIs(Continued(c).call, s)) ==>
                 SystemIs(c, s)
      ensures calls[c].req < 0 || t.bodies[calls[c].req].systemUnknown ==> SystemIs(c, System(0, false))
      ensures (calls[c].req >= 0 && t.bodies[calls[c].req].thread == ThreadContinue
               && (t.bodies[calls[c].req].system != 0 || !Continued(c).From?)) ==> SystemIs(c, System(0, false))
    {
      hide SystemIs, Continued;
      if SystemAbove(c) {
        if SystemIs(Continued(c).call, s) { SystemPasses(c, s); }
      } else {
        SystemHereIs(c);
      }
    }

    ghost predicate AsksIn(loop: set<nat>, c: nat)
      requires Valid()
    {
      c < |calls| && SystemAbove(c) && Continued(c).call in loop
    }

    /** A set of calls that each leave it to one of the set is never told the prompt. */
    lemma {:induction false} SystemLoop(loop: set<nat>, c: nat, n: nat)
      requires Valid() && c in loop && c < |calls|
      requires forall x {:trigger AsksIn(loop, x)} :: x in loop ==> AsksIn(loop, x)
      ensures !SaidAt(c, n)
      decreases n
    {
      assert AsksIn(loop, c);
      if n > 0 { SystemLoop(loop, Continued(c).call, n - 1); }
    }
  }
}
