/**
 One call's history against the call's before it: kept when it is the earlier
 one with more after it, changed otherwise, and where the earlier reply went.
 */
module HistoryCompare {
  import opened Messages
  import opened BodyLists
  import opened Threads
  import opened HistoryWalk
  import HistoryCounts
  import OrderTest

  const KEPT := "kept"
  const CHANGED := "changed"
  const FIRST := "first"
  const NOT_COMPARED := "not_compared"
  const UNAVAILABLE := "unavailable"

  const BACK := "back"
  const BACK_CHANGED := "back_changed"
  const NOT_FOUND := "not_found"
  const AMBIGUOUS := "ambiguous"

  const INTERNAL_CALL := "internal_call"
  const TURN_CALL := "turn_call"
  const AUXILIARY_STREAM := "auxiliary_stream"
  const CLASS_UNKNOWN := "class_unknown"

  datatype Option<T> = None | Some(value: T)

  /** messages is negative where the history has no length to say; system is "" where it is not asked. */
  datatype Verdict = Verdict(
    history: string, reason: string, messages: int, compared: bool,
    reply: string, replyReason: string, system: string, card: Option<HistoryCounts.Card>)

  /** What a call's records say it is; where they say nothing, a request of Claude Code's form is a turn. */
  function Class(s: Session, claudeCode: nat, c: nat): string
    requires s.Valid() && c < |s.calls|
  {
    if s.calls[c].flaggedInternal then INTERNAL_CALL
    else if s.calls[c].flaggedTurn || s.FormOf(s.calls[c].req) == claudeCode then TURN_CALL
    else ""
  }

  predicate SharesId(e: Message, r: Message) {
    r.hasID && e.hasID && e.id == r.id
  }

  /** Where a reply is in a list: as it was, changed under its id, or not there. */
  ghost function Found(r: Message, list: seq<Message>): string {
    if r in list then BACK
    else if exists e :: e in list && e.hasID && r.hasID && e.id == r.id then BACK_CHANGED
    else NOT_FOUND
  }

  method Find(r: Message, list: seq<Message>) returns (result: string)
    ensures result == Found(r, list)
  {
    result := NOT_FOUND;
    for i := 0 to |list|
      invariant r !in list[..i]
      invariant result == Found(r, list[..i])
    {
      var e := list[i];
      assert list[..i + 1] == list[..i] + [e];
      if e == r { return BACK; }
      if SharesId(e, r) { result := BACK_CHANGED; }
    }
    assert list[..|list|] == list;
  }

  /** The reply equals an entry of the earlier history, or shares its id, so it could be either. */
  ghost predicate CouldBeEarlier(r: Message, P: seq<Message>) {
    exists e :: e in P && (e == r || (e.hasID && r.hasID && e.id == r.id))
  }

  method SearchEarlier(r: Message, P: seq<Message>) returns (found: bool)
    ensures found == CouldBeEarlier(r, P)
  {
    for i := 0 to |P|
      invariant !CouldBeEarlier(r, P[..i])
    {
      if P[i] == r || SharesId(P[i], r) {
        assert P[i] in P;
        return true;
      }
      assert P[..i + 1] == P[..i] + [P[i]];
    }
    assert P[..|P|] == P;
    return false;
  }

  method PrefixTest(p: seq<Message>, n: seq<Message>) returns (r: bool)
    ensures r == IsPrefix(p, n)
  {
    if |p| > |n| { return false; }
    for i := 0 to |p|
      invariant p[..i] == n[..i]
    {
      if p[i] != n[i] { return false; }
    }
    return true;
  }

  // ---------------------------------------------------------------------
  // What a comparison must find.
  // ---------------------------------------------------------------------

  /** What is said of the earlier reply in a kept history, looked for after the earlier one. */
  ghost predicate ReplyAfter(r: Verdict, why: string, reply: Message, after: seq<Message>) {
    if why != "" then r.reply == UNAVAILABLE && r.replyReason == why
    else r.reply == Found(reply, after) && r.replyReason == ""
  }

  /** The verdict on two histories: kept when the earlier is a prefix of the later, else changed and explained. */
  ghost predicate Decided(r: Verdict, P: seq<Message>, N: seq<Message>, replyWhy: string, reply: Message) {
    && r.compared && r.reason == ""
    && if IsPrefix(P, N) then
        r.history == KEPT && r.card.None? && ReplyAfter(r, replyWhy, reply, N[|P|..])
      else
        && r.history == CHANGED && r.card.Some?
        && ReplyAfter(r, if replyWhy == "" && CouldBeEarlier(reply, P) then AMBIGUOUS else replyWhy, reply, N)
        && r.card.value.kept == |multiset(P) * multiset(N)|
        && r.card.value.kept + r.card.value.changed == |multiset(Identities(P)) * multiset(Identities(N))|
        && r.card.value.kept + r.card.value.changed + r.card.value.dropped == |P|
        && r.card.value.kept + r.card.value.changed + r.card.value.added == |N|
        && r.card.value.orderWhy == OrderTest.OrderWhy(P, N)
        && (r.card.value.orderWhy == "" ==>
          r.card.value.order == !OrderTest.OrderKept(P, N, r.card.value.kept + r.card.value.changed))
  }

  /**
   The first reason there is nothing to compare, "" for its history when there is; why1 and why2 are the
   two calls' own.
   */
  function Refusal(s: Session, claudeCode: nat, n: nat, p: int, why1: string, why2: string): (string, string)
    requires s.Valid() && n < |s.calls| && p < |s.calls|
  {
    if s.calls[n].aux then (NOT_COMPARED, AUXILIARY_STREAM)
    else if Class(s, claudeCode, n) == INTERNAL_CALL then (NOT_COMPARED, INTERNAL_CALL)
    else if Class(s, claudeCode, n) == "" then (UNAVAILABLE, CLASS_UNKNOWN)
    else if why1 != "" then (UNAVAILABLE, why1)
    else if p < 0 then (FIRST, "")
    else if s.calls[p].req < 0 then (UNAVAILABLE, "earlier_no_request")
    else if s.FormOf(s.calls[p].req) == 0 then (UNAVAILABLE, "earlier_messages:absent")
    else if Class(s, claudeCode, p) == "" then (UNAVAILABLE, "earlier_class_unknown")
    else if s.FormOf(s.calls[p].req) != s.FormOf(s.calls[n].req) then (UNAVAILABLE, FORM_MISMATCH)
    else if why2 != "" then (UNAVAILABLE, "earlier_" + why2)
    else ("", "")
  }

  /** What is said of a call, the first row that applies: when, the history and the reason. */
  function Rows(s: Session, claudeCode: nat, n: nat, p: int, why1: string, why2: string): seq<(bool, string, string)>
    requires s.Valid() && n < |s.calls| && p < |s.calls|
  {
    var c := s.calls[n];
    [(c.aux, "not_compared", "auxiliary_stream"),
     (c.flaggedInternal, "not_compared", "internal_call"),
     (!c.flaggedTurn && s.FormOf(c.req) != claudeCode, "unavailable", "class_unknown"),
     (why1 != "", "unavailable", why1),
     (p < 0, "first", ""),
     (p >= 0 && s.calls[p].req < 0, "unavailable", "earlier_no_request"),
     (p >= 0 && s.FormOf(s.calls[p].req) == 0, "unavailable", "earlier_messages:absent"),
     (p >= 0 && !s.calls[p].flaggedInternal && !s.calls[p].flaggedTurn && s.FormOf(s.calls[p].req) != claudeCode,
      "unavailable", "earlier_class_unknown"),
     (p >= 0 && s.FormOf(s.calls[p].req) != s.FormOf(c.req), "unavailable", "form_mismatch"),
     (why2 != "", "unavailable", "earlier_" + why2)]
  }

  /** A refusal is the first row that applies, and there is none when none does. */
  lemma RefusalIs(s: Session, claudeCode: nat, n: nat, p: int, why1: string, why2: string, k: nat)
    requires s.Valid() && n < |s.calls| && p < |s.calls|
    requires k <= 10 && forall j :: 0 <= j < k ==> !Rows(s, claudeCode, n, p, why1, why2)[j].0
    requires k < 10 ==> Rows(s, claudeCode, n, p, why1, why2)[k].0
    ensures Refusal(s, claudeCode, n, p, why1, why2) ==
            if k == 10 then ("", "") else (Rows(s, claudeCode, n, p, why1, why2)[k].1,
                                           Rows(s, claudeCode, n, p, why1, why2)[k].2)
  {
    hide Class, Session.Valid, Session.FormOf;
    ClassIs(s, claudeCode, n);
    if p >= 0 { ClassIs(s, claudeCode, p); }
    var rows := Rows(s, claudeCode, n, p, why1, why2);
    assert (k > 0 ==> !rows[0].0) && (k > 1 ==> !rows[1].0) && (k > 2 ==> !rows[2].0) && (k > 3 ==> !rows[3].0);
    assert (k > 4 ==> !rows[4].0) && (k > 5 ==> !rows[5].0) && (k > 6 ==> !rows[6].0) && (k > 7 ==> !rows[7].0);
    assert (k > 8 ==> !rows[8].0) && (k > 9 ==> !rows[9].0);
    assert Class(s, claudeCode, n) == "" <==> !s.calls[n].flaggedInternal && rows[2].0;
  }

  /** Everything the call itself and the one before it need for their histories to be compared. */
  ghost predicate Comparable(s: Session, claudeCode: nat, n: nat, p: int)
    requires s.Valid() && n < |s.calls| && p < |s.calls|
  {
    && !s.calls[n].aux && Class(s, claudeCode, n) == TURN_CALL
    && p >= 0 && s.calls[p].req >= 0 && s.calls[n].req >= 0
    && s.FormOf(s.calls[p].req) != 0 && Class(s, claudeCode, p) != ""
    && s.FormOf(s.calls[p].req) == s.FormOf(s.calls[n].req)
    && (exists i: nat :: s.Measurable(n, i))
    && (exists i: nat :: s.Measurable(p, i))
  }

  /**
   A request continuing its predecessor's reply has its history, that reply and its own list: the walk
   need not be made.
   */
  lemma {:induction false} ContinuesPredecessor(s: Session, n: nat, p: nat, j: nat, i: nat)
    requires s.Valid() && n < |s.calls| && p < |s.calls| && s.calls[n].stream == s.calls[p].stream
    requires s.Measurable(n, j) && s.Measurable(p, i)
    requires s.t.bodies[s.calls[n].req].thread.ThreadContinue?
    requires s.t.bodies[s.calls[n].req].threadPrevious == s.calls[p].msg != 0
    ensures s.ReplyWhy(p, n) == ""
    ensures IsPrefix(s.History(p, i), s.History(n, j))
    ensures Found(s.ReplyOf(p), s.History(n, j)[|s.History(p, i)|..]) == BACK
  {
    assert s.Continued(n) == From(p);
    s.FoundedOnce(p, j - 1, i);
    var after := s.History(n, j)[|s.History(p, i)|..];
    assert after[0] == s.ReplyOf(p);
  }

  /** The system prompts of two Claude Code calls differ, agree, or one is not known. */
  ghost predicate SystemSaid(s: Session, claudeCode: nat, n: nat, p: nat, said: string)
    requires s.Valid() && n < |s.calls| && p < |s.calls|
  {
    if s.FormOf(s.calls[n].req) != claudeCode then said == ""
    else forall a, b :: s.SystemIs(p, a) && s.SystemIs(n, b) ==>
      said == if !a.known || !b.known then UNAVAILABLE else if a != b then "yes" else "no"
  }

  method SystemChanged(h: Historian, claudeCode: nat, n: nat, p: nat) returns (said: string)
    requires h.Valid() && n < |h.s.calls| && p < |h.s.calls|
    modifies h`systems
    ensures h.Valid() && SystemSaid(h.s, claudeCode, n, p, said)
  {
    if h.s.FormOf(h.s.calls[n].req) != claudeCode { return ""; }
    var a := h.SystemOf(p);
    var b := h.SystemOf(n);
    said := if !a.known || !b.known then UNAVAILABLE else if a != b then "yes" else "no";
    forall x, y | h.s.SystemIs(p, x) && h.s.SystemIs(n, y) ensures x == a && y == b {
      h.s.SystemOnce(p, a, x);
      h.s.SystemOnce(n, b, y);
    }
  }

  /** The reply p's response produced, for comparing with n, or why there is none. */
  function Reply(s: Session, p: nat, n: nat): Message
    requires s.Valid() && p < |s.calls| && n < |s.calls|
  {
    if s.ReplyWhy(p, n) == "" then s.ReplyOf(p) else Entry(false, 0, 0)
  }

  /** The full comparison of two histories, by the prefix test and the search for the reply. */
  method Full(P: seq<Message>, N: seq<Message>, replyWhy: string, reply: Message, messages: int, system: string)
    returns (r: Verdict)
    ensures Decided(r, P, N, replyWhy, reply) && r.messages == messages && r.system == system
  {
    var kept := PrefixTest(P, N);
    if kept {
      var status := BACK;
      if replyWhy == "" { status := Find(reply, N[|P|..]); } else { status := UNAVAILABLE; }
      return Verdict(KEPT, "", messages, true, status, replyWhy, system, None);
    }
    var why := replyWhy;
    if why == "" {
      var earlier := SearchEarlier(reply, P);
      if earlier { why := AMBIGUOUS; }
    }
    var status := UNAVAILABLE;
    if why == "" { status := Find(reply, N); }
    var card := HistoryCounts.Counts(P, N);
    return Verdict(CHANGED, "", messages, true, status, why, system, Some(card));
  }

  /** What a measure says of the call's one history. */
  ghost predicate Says(s: Session, c: nat, m: Measure)
    requires s.Valid() && c < |s.calls|
  {
    && (m.why == "" ==> s.Measurable(c, m.links) && m.length == |s.History(c, m.links)|)
    && (forall i: nat :: s.Measurable(c, i) ==> m.why == "" && i == m.links)
  }

  method LengthOf(h: Historian, c: nat) returns (m: Measure)
    requires h.Valid() && c < |h.s.calls|
    modifies h`measured, h.own`lists
    ensures h.Valid() && Says(h.s, c, m)
    ensures c in h.measured && h.measured[c] == m
    ensures forall x :: x in old(h.measured) ==> x in h.measured && h.measured[x] == old(h.measured[x])
  {
    m := h.Length(c);
    h.s.RightDecides(c, m);
    forall i: nat | h.s.Measurable(c, i) ensures i == m.links { h.s.FoundedOnce(c, i, m.links); }
  }

  method ListOf(h: Historian, c: nat, m: Measure) returns (out: seq<Message>)
    requires h.Valid() && c < |h.s.calls| && Says(h.s, c, m) && m.why == ""
    requires c in h.measured && h.measured[c] == m
    modifies h`measured, h.own`lists
    ensures h.Valid() && out == h.s.History(c, m.links)
    ensures forall x :: x in old(h.measured) ==> x in h.measured && h.measured[x] == old(h.measured[x])
  {
    var why;
    out, why := h.List(c);
  }

  function WhyOf(measured: map<nat, Measure>, c: int): string {
    if c in measured then measured[c].why else ""
  }

  /** The verdict a comparison must give: the refusal that applies first, or what the two histories decide. */
  ghost predicate Correct(s: Session, claudeCode: nat, n: nat, p: int, measured: map<nat, Measure>, r: Verdict)
    requires s.Valid() && n < |s.calls| && p < |s.calls|
  {
    && n in measured
    && r.compared == Comparable(s, claudeCode, n, p)
    && (forall j: nat :: s.Measurable(n, j) ==> r.messages == |s.History(n, j)|)
    && (!r.compared ==>
          r.card.None? && (r.history, r.reason) == Refusal(s, claudeCode, n, p, WhyOf(measured, n), WhyOf(measured, p)))
    && (r.compared ==>
      && SystemSaid(s, claudeCode, n, p, r.system)
      && forall i: nat, j: nat {:trigger s.Measurable(p, i), s.Measurable(n, j)} ::
        s.Measurable(p, i) && s.Measurable(n, j) ==>
        Decided(r, s.History(p, i), s.History(n, j), s.ReplyWhy(p, n), Reply(s, p, n)))
  }

  /** Compares a call with the one before it in its stream; p is negative for none. */
  method Compare(h: Historian, claudeCode: nat, n: nat, p: int) returns (r: Verdict)
    requires h.Valid() && n < |h.s.calls| && p < |h.s.calls| && h.s.calls[n].req >= 0
    requires p >= 0 ==> h.s.calls[p].stream == h.s.calls[n].stream
    modifies h, h.own
    ensures h.Valid() && Correct(h.s, claudeCode, n, p, h.measured, r)
  {
    hide Session.History, Session.WellFounded, Session.Right, Session.SystemIs, Table.Measures, Decided;
    var s := h.s;
    var nm := LengthOf(h, n);
    var messages := if nm.why == "" then nm.length else -1;
    var early := Refusal(s, claudeCode, n, p, nm.why, "");
    if early != ("", "") {
      return Verdict(early.0, early.1, messages, false, "", "", "", None);
    }
    var pm := LengthOf(h, p);
    if pm.why != "" {
      return Verdict(UNAVAILABLE, "earlier_" + pm.why, messages, false, "", "", "", None);
    }
    var system := SystemChanged(h, claudeCode, n, p);
    r := CompareMeasured(h, n, p, nm, pm, messages, system);
  }

  /**
   The comparison of two calls with histories: at once where one continues the other's reply, else over
   both lists.
   */
  method CompareMeasured(h: Historian, n: nat, p: nat, nm: Measure, pm: Measure, messages: int, system: string)
    returns (r: Verdict)
    requires h.Valid() && n < |h.s.calls| && p < |h.s.calls| && h.s.calls[n].req >= 0
    requires h.s.calls[p].stream == h.s.calls[n].stream
    requires Says(h.s, n, nm) && nm.why == "" && n in h.measured && h.measured[n] == nm
    requires Says(h.s, p, pm) && pm.why == "" && p in h.measured && h.measured[p] == pm
    modifies h`measured, h.own`lists
    ensures h.Valid()
    ensures forall x :: x in old(h.measured) ==> x in h.measured && h.measured[x] == old(h.measured[x])
    ensures r.messages == messages && r.system == system
    ensures Decided(r, h.s.History(p, pm.links), h.s.History(n, nm.links), h.s.ReplyWhy(p, n), Reply(h.s, p, n))
  {
    var s := h.s;
    var y := s.t.bodies[s.calls[n].req];
    if y.thread == ThreadContinue && y.threadPrevious == s.calls[p].msg && s.calls[p].msg != 0 {
      ContinuesPredecessor(s, n, p, nm.links, pm.links);
      return Verdict(KEPT, "", messages, true, BACK, "", system, None);
    }
    var P := ListOf(h, p, pm);
    var N := ListOf(h, n, nm);
    r := Full(P, N, s.ReplyWhy(p, n), Reply(s, p, n), messages, system);
  }

  // ---------------------------------------------------------------------
  // Which call is compared with which.
  // ---------------------------------------------------------------------

  /** The nearest earlier call of the list that is not the framework's own, or negative. */
  ghost predicate Nearest(s: Session, claudeCode: nat, list: seq<nat>, at: nat, p: int)
    requires s.Valid() && at <= |list| && forall k :: 0 <= k < |list| ==> list[k] < |s.calls|
  {
    if p < 0 then AllInternal(s, claudeCode, list, 0, at)
    else exists k ::
      0 <= k < at && list[k] == p && Class(s, claudeCode, p) != INTERNAL_CALL
        && AllInternal(s, claudeCode, list, k + 1, at)
  }

  ghost predicate AllInternal(s: Session, claudeCode: nat, list: seq<nat>, from: nat, to: nat)
    requires s.Valid() && from <= to <= |list| && forall k :: 0 <= k < |list| ==> list[k] < |s.calls|
  {
    forall l :: from <= l < to ==> Class(s, claudeCode, list[l]) == INTERNAL_CALL
  }

  /** The nearest is compared with where it is of the same epoch. */
  function InEpoch(s: Session, c: nat, nearest: int): int
    requires c < |s.calls| && nearest < |s.calls|
  {
    if nearest >= 0 && s.calls[nearest].epoch == s.calls[c].epoch then nearest else -1
  }

  /** The last call before at that is not the framework's own, negative for none. */
  ghost function NearestBefore(s: Session, claudeCode: nat, list: seq<nat>, at: nat): (p: int)
    requires s.Valid() && at <= |list| && forall k :: 0 <= k < |list| ==> list[k] < |s.calls|
    ensures p < |s.calls|
  {
    if at == 0 then -1
    else if Class(s, claudeCode, list[at - 1]) != INTERNAL_CALL then list[at - 1]
    else NearestBefore(s, claudeCode, list, at - 1)
  }

  lemma NearestStep(s: Session, claudeCode: nat, list: seq<nat>, at: nat)
    requires s.Valid() && at <= |list| && forall k :: 0 <= k < |list| ==> list[k] < |s.calls|
    ensures NearestBefore(s, claudeCode, list, at) ==
      if at == 0 then -1
      else if Class(s, claudeCode, list[at - 1]) != INTERNAL_CALL then list[at - 1]
      else NearestBefore(s, claudeCode, list, at - 1)
  {
    hide Class, Session.Valid;
  }

  lemma {:induction false} NearestIsBefore(s: Session, claudeCode: nat, list: seq<nat>, at: nat)
    requires s.Valid() && at <= |list| && forall k :: 0 <= k < |list| ==> list[k] < |s.calls|
    ensures Nearest(s, claudeCode, list, at, NearestBefore(s, claudeCode, list, at))
  {
    hide Class, Session.Valid;
    if at > 0 {
      var p := NearestBefore(s, claudeCode, list, at - 1);
      NearestIsBefore(s, claudeCode, list, at - 1);
      if Class(s, claudeCode, list[at - 1]) != INTERNAL_CALL {
        assert AllInternal(s, claudeCode, list, at, at);
      } else if p >= 0 {
        var j :| 0 <= j < at - 1 && list[j] == p && AllInternal(s, claudeCode, list, j + 1, at - 1);
        assert AllInternal(s, claudeCode, list, j + 1, at);
      }
    }
  }

  /**
   What a call is compared with: an earlier call of its epoch that is not the framework's own, with none but
   the framework's own between; or nothing, when the nearest that is not its own is of another epoch or there is none.
   */
  ghost predicate ComparedWith(s: Session, list: seq<nat>, k: nat, b: int)
    requires k < |list| && forall l :: 0 <= l < |list| ==> list[l] < |s.calls|
  {
    if b >= 0
    then exists j: nat :: j < k && list[j] == b && Eligible(s, list, j, k)
                          && s.calls[list[j]].epoch == s.calls[list[k]].epoch
    else forall j: nat :: j < k && Eligible(s, list, j, k) ==> s.calls[list[j]].epoch != s.calls[list[k]].epoch
  }

  /** Call j of the list is not the framework's own, and every call after it and before k is. */
  ghost predicate Eligible(s: Session, list: seq<nat>, j: nat, k: nat)
    requires j < k < |list| && forall l :: 0 <= l < |list| ==> list[l] < |s.calls|
  {
    !s.calls[list[j]].flaggedInternal && forall l :: j < l < k ==> s.calls[list[l]].flaggedInternal
  }

  /**
   Whose call it is: the framework's when a record says so; else a turn when a record or the request's
   form says so.
   */
  lemma ClassIs(s: Session, claudeCode: nat, c: nat)
    requires s.Valid() && c < |s.calls|
    ensures Class(s, claudeCode, c) == INTERNAL_CALL <==> s.calls[c].flaggedInternal
    ensures Class(s, claudeCode, c) == TURN_CALL <==>
              !s.calls[c].flaggedInternal && (s.calls[c].flaggedTurn || s.FormOf(s.calls[c].req) == claudeCode)
    ensures Class(s, claudeCode, c) in {INTERNAL_CALL, TURN_CALL, ""}
  {
    assert INTERNAL_CALL[0] != TURN_CALL[0] && |INTERNAL_CALL| > 0;
  }

  lemma PredecessorIs(s: Session, claudeCode: nat, list: seq<nat>, k: nat)
    requires s.Valid() && k < |list| && forall l :: 0 <= l < |list| ==> list[l] < |s.calls|
    ensures ComparedWith(s, list, k, InEpoch(s, list[k], NearestBefore(s, claudeCode, list, k)))
  {
    hide Class, Session.Valid, NearestBefore;
    NearestIsBefore(s, claudeCode, list, k);
    forall c: nat | c < |s.calls| { ClassIs(s, claudeCode, c); }
    var p := NearestBefore(s, claudeCode, list, k);
    if p >= 0 {
      var i :| 0 <= i < k && list[i] == p && Class(s, claudeCode, p) != INTERNAL_CALL
        && AllInternal(s, claudeCode, list, i + 1, k);
      assert Eligible(s, list, i, k);
      forall j: nat | j < k && Eligible(s, list, j, k) ensures j == i {
        assert !(j < i) && !(i < j);
      }
    }
  }

  /** The call each call of a stream is compared with. */
  method Predecessors(s: Session, claudeCode: nat, list: seq<nat>) returns (before: seq<int>)
    requires s.Valid() && forall k :: 0 <= k < |list| ==> list[k] < |s.calls|
    ensures |before| == |list|
    ensures forall k :: 0 <= k < |list| ==> ComparedWith(s, list, k, before[k])
  {
    hide Class, Session.Valid, NearestBefore, ComparedWith;
    NearestStep(s, claudeCode, list, 0);
    before := [];
    var last: int := -1;
    for k := 0 to |list|
      invariant |before| == k && last == NearestBefore(s, claudeCode, list, k)
      invariant forall m :: 0 <= m < k ==> ComparedWith(s, list, m, before[m])
    {
      PredecessorIs(s, claudeCode, list, k);
      NearestStep(s, claudeCode, list, k + 1);
      before := before + [InEpoch(s, list[k], last)];
      if Class(s, claudeCode, list[k]) != INTERNAL_CALL { last := list[k]; }
    }
  }
}
