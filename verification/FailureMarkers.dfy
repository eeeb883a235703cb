/**
 The failure markers of a chunk: every read of evidence is made under a marker
 that stands while the read is unfinished and for ever when it failed fatally,
 and one check under the chunk's gate is the cutoff for all of them. Reads and
 checks run in any interleaving; every operation may fail, and every process
 may stop anywhere.
 */
module FailureMarkers {

  datatype Option<T> = None | Some(value: T)

  /**
   A marker's path: the directory of its chunk, of its attempt, and the random part of its name; "" is
   no marker's name.
   */
  datatype Marker = Marker(chunk: string, attempt: string, random: string)

  datatype Gate = Gate(chunk: string, random: string)

  /** The gate of the chunk a marker belongs to, which every attempt of the chunk shares. */
  function FailureGate(m: Marker): Option<Gate> {
    if m.random == "" then None else Some(Gate(m.chunk, m.random))
  }

  /**
   Markers of one name part share a gate exactly when they are of one chunk, whatever the attempts; one
   without has none.
   */
  lemma GateShared(m: Marker, n: Marker)
    ensures FailureGate(m).Some? <==> m.random != ""
    ensures FailureGate(m).Some? ==> (FailureGate(m) == FailureGate(n) <==> m.chunk == n.chunk && m.random == n.random)
  {
  }

  /** Where a read under a marker is. */
  datatype Phase =
    | Start               // the gate not yet taken
    | CreateLocked        // the gate taken, the marker not yet made
    | CreateDone(ok: bool) // the marker made, or not; the gate still held
    | NotRead             // ended: nothing was read
    | Reading             // the marker made, the gate let go, the read begun
    | EndedWell           // the read ended well, or failed in an ordinary way
    | EndedFatal          // the read failed fatally
    | RemoveLocked        // the gate taken again
    | RemoveDone          // the removal tried; the gate still held
    | Done                // ended
    // A check of issued markers.
    | CheckStart
    | Looking(at: nat)    // the gate taken; markers before at were absent
    | Looked(ok: bool)    // the looking ended; the gate still held
    | Passed              // the check returned nil
    | Failed              // the check returned an error

  datatype Actor =
    | Reader(marker: Marker, phase: Phase, stopped: bool)
    | Check(markers: seq<Marker>, phase: Phase, stopped: bool)

  /** files names the actor that made the file at each marker's path; gates the holder of each gate. */
  datatype State = State(actors: map<nat, Actor>, files: map<Marker, nat>, gates: map<Gate, nat>)

  const INITIAL := State(map[], map[], map[])

  /** One step of one actor, with how the operation it makes turns out. */
  datatype Action =
    | ArriveReader(id: nat, marker: Marker)
    | ArriveCheck(id: nat, markers: seq<Marker>)
    | Lock(id: nat, ok: bool)
    | Create(id: nat, ok: bool, left: bool)
    | End(id: nat, fatally: bool)
    | Remove(id: nat, removed: bool)
    | Look(id: nat, ok: bool)
    | Unlock(id: nat, ok: bool, released: bool)
    | Stop(id: nat, released: bool)

  function GateOf(a: Actor): Option<Gate> {
    match a
    case Reader(m, _, _) => FailureGate(m)
    case Check(ms, _, _) => if ms == [] then None else FailureGate(ms[0])
  }

  function Release(gates: map<Gate, nat>, g: Option<Gate>, id: nat, released: bool): map<Gate, nat> {
    if released && g.Some? && g.value in gates && gates[g.value] == id then gates - {g.value} else gates
  }

  function Goes(s: State, id: nat, phase: Phase): map<nat, Actor>
    requires id in s.actors
  {
    s.actors[id := s.actors[id].(phase := phase)]
  }

  predicate Running(s: State, id: nat) {
    id in s.actors && !s.actors[id].stopped
  }

  /** Whether an action can happen: program order, the exclusive file and the exclusive gate. */
  predicate Enabled(s: State, a: Action) {
    match a
    case ArriveReader(id, _) => id !in s.actors
    case ArriveCheck(id, _) => id !in s.actors
    case Lock(id, ok) =>
      && Running(s, id)
      && (s.actors[id].phase.Start? || s.actors[id].phase.EndedWell? || s.actors[id].phase.CheckStart?)
      && (ok ==> GateOf(s.actors[id]).Some? && GateOf(s.actors[id]).value !in s.gates)
    case Create(id, ok, left) =>
      && Running(s, id) && s.actors[id].Reader? && s.actors[id].phase.CreateLocked?
      && (ok || left ==> s.actors[id].marker !in s.files)
    case End(id, _) => Running(s, id) && s.actors[id].phase.Reading?
    case Remove(id, removed) =>
      && Running(s, id) && s.actors[id].Reader? && s.actors[id].phase.RemoveLocked?
      && (removed ==> s.actors[id].marker in s.files && s.files[s.actors[id].marker] == id)
    case Look(id, ok) =>
      Running(s, id) && s.actors[id].Check? && s.actors[id].phase.Looking?
    case Unlock(id, ok, released) =>
      && Running(s, id)
      && (s.actors[id].phase.CreateDone? || s.actors[id].phase.RemoveDone? || s.actors[id].phase.Looked?)
      && (ok ==> released)
    case Stop(id, _) => Running(s, id)
  }

  /** What an action does. */
  function Do(s: State, a: Action): State
    requires Enabled(s, a)
  {
    match a
    case ArriveReader(id, m) =>
      s.(actors := s.actors[id := Reader(m, if FailureGate(m).Some? then Start else NotRead, false)])
    case ArriveCheck(id, ms) =>
      var phase := if ms == [] then Passed else if FailureGate(ms[0]).Some? then CheckStart else Failed;
      s.(actors := s.actors[id := Check(ms, phase, false)])
    case Lock(id, ok) =>
      var was := s.actors[id].phase;
      if ok then
        var phase := if was.Start? then CreateLocked else if was.EndedWell? then RemoveLocked else Looking(0);
        State(Goes(s, id, phase), s.files, s.gates[GateOf(s.actors[id]).value := id])
      else
        s.(actors := Goes(s, id, if was.Start? then NotRead else if was.EndedWell? then Done else Failed))
    case Create(id, ok, left) =>
      var files := if ok || left then s.files[s.actors[id].marker := id] else s.files;
      State(Goes(s, id, CreateDone(ok)), files, s.gates)
    case End(id, fatally) =>
      s.(actors := Goes(s, id, if fatally then EndedFatal else EndedWell))
    case Remove(id, removed) =>
      State(Goes(s, id, RemoveDone), if removed then s.files - {s.actors[id].marker} else s.files, s.gates)
    case Look(id, ok) =>
      var c := s.actors[id];
      var at := c.phase.at;
      if at >= |c.markers| then s.(actors := Goes(s, id, Looked(true)))
      else if FailureGate(c.markers[at]) != GateOf(c) || !ok || c.markers[at] in s.files then
        s.(actors := Goes(s, id, Looked(false)))
      else s.(actors := Goes(s, id, Looking(at + 1)))
    case Unlock(id, ok, released) =>
      var was := s.actors[id].phase;
      var phase :=
        if was.CreateDone? then if was.ok && ok then Reading else NotRead
        else if was.RemoveDone? then Done
        else if was.ok && ok then Passed else Failed;
      State(Goes(s, id, phase), s.files, Release(s.gates, GateOf(s.actors[id]), id, released))
    case Stop(id, released) =>
      State(s.actors[id := s.actors[id].(stopped := true)], s.files,
            Release(s.gates, GateOf(s.actors[id]), id, released))
  }

  // ---------------------------------------------------------------------
  // Runs.
  // ---------------------------------------------------------------------

  ghost predicate IsRun(run: seq<Action>)
    decreases |run|, 0
  {
    run == [] || (IsRun(run[..|run| - 1]) && Enabled(After(run[..|run| - 1]), run[|run| - 1]))
  }

  /** The state a run of actions comes to. */
  ghost function After(run: seq<Action>): State
    requires IsRun(run)
    decreases |run|, 1
  {
    if run == [] then INITIAL else Do(After(run[..|run| - 1]), run[|run| - 1])
  }

  // ---------------------------------------------------------------------
  // What every step keeps.
  // ---------------------------------------------------------------------

  /** Whether an actor in this phase holds its gate. */
  predicate Holding(p: Phase) {
    p.CreateLocked? || p.CreateDone? || p.RemoveLocked? || p.RemoveDone? || p.Looking? || p.Looked?
  }

  /** Whether a read in this phase must have its marker standing. */
  predicate Pinned(p: Phase) {
    (p.CreateDone? && p.ok) || p.Reading? || p.EndedWell? || p.EndedFatal? || p.RemoveLocked?
  }

  predicate ReaderPhase(p: Phase) {
    !p.CheckStart? && !p.Looking? && !p.Looked? && !p.Passed? && !p.Failed?
  }

  ghost predicate GatesHeld(s: State) {
    forall id :: id in s.actors && !s.actors[id].stopped && Holding(s.actors[id].phase) ==>
      GateOf(s.actors[id]).Some? && GateOf(s.actors[id]).value in s.gates && s.gates[GateOf(s.actors[id]).value] == id
  }

  ghost predicate MarkersStand(s: State) {
    forall id :: id in s.actors && s.actors[id].Reader? && Pinned(s.actors[id].phase) ==>
      s.actors[id].marker in s.files && s.files[s.actors[id].marker] == id
  }

  /** The markers a check has passed over are absent, and share its gate. */
  ghost predicate Absent(s: State, c: Actor, n: nat)
    requires c.Check? && n <= |c.markers|
  {
    forall k :: 0 <= k < n ==> c.markers[k] !in s.files && FailureGate(c.markers[k]) == GateOf(c)
  }

  function Seen(c: Actor): nat
    requires c.Check?
  {
    if c.phase.Looking? && c.phase.at <= |c.markers| then c.phase.at
    else if c.phase.Looked? && c.phase.ok then |c.markers| else 0
  }

  ghost predicate ChecksHold(s: State) {
    forall id :: id in s.actors && s.actors[id].Check? && !s.actors[id].stopped ==>
      Absent(s, s.actors[id], Seen(s.actors[id]))
  }

  ghost predicate PhasesFit(s: State) {
    forall id :: id in s.actors ==>
      && ReaderPhase(s.actors[id].phase) == s.actors[id].Reader?
      && (s.actors[id].Reader? && s.actors[id].phase.Start? ==> FailureGate(s.actors[id].marker).Some?)
      && (s.actors[id].Check? && s.actors[id].phase.Looking? ==> s.actors[id].phase.at <= |s.actors[id].markers|)
  }

  ghost predicate Inv(s: State) {
    GatesHeld(s) && MarkersStand(s) && ChecksHold(s) && PhasesFit(s)
  }

  lemma StepKeepsPhases(s: State, a: Action)
    requires PhasesFit(s) && Enabled(s, a)
    ensures PhasesFit(Do(s, a))
  {
  }

  /** The gate is exclusive: who takes it finds it free, and only its holder lets it go. */
  lemma StepKeepsGates(s: State, a: Action)
    requires GatesHeld(s) && PhasesFit(s) && Enabled(s, a)
    ensures GatesHeld(Do(s, a))
  {
  }

  /** A marker is made only where none stands, and removed only by the read that made it, once that ended well. */
  lemma StepKeepsMarkers(s: State, a: Action)
    requires MarkersStand(s) && PhasesFit(s) && Enabled(s, a)
    ensures MarkersStand(Do(s, a))
  {
  }

  /** No marker is made under a gate a check holds. */
  lemma StepKeepsChecks(s: State, a: Action)
    requires GatesHeld(s) && PhasesFit(s) && ChecksHold(s) && Enabled(s, a)
    ensures ChecksHold(Do(s, a))
  {
    var t := Do(s, a);
    forall id | id in t.actors && t.actors[id].Check? && !t.actors[id].stopped
      ensures Absent(t, t.actors[id], Seen(t.actors[id]))
    {
      CheckKeeps(s, a, id);
    }
  }

  lemma CheckKeeps(s: State, a: Action, id: nat)
    requires GatesHeld(s) && PhasesFit(s) && ChecksHold(s) && Enabled(s, a)
    requires id in Do(s, a).actors && Do(s, a).actors[id].Check? && !Do(s, a).actors[id].stopped
    ensures Absent(Do(s, a), Do(s, a).actors[id], Seen(Do(s, a).actors[id]))
  {
    if a.Create? && id in s.actors {
      assert !s.actors[a.id].stopped && Holding(s.actors[a.id].phase);
      assert Seen(s.actors[id]) > 0 ==> Holding(s.actors[id].phase);
    }
  }

  lemma StepKeeps(s: State, a: Action)
    requires Inv(s) && Enabled(s, a)
    ensures Inv(Do(s, a))
  {
    StepKeepsPhases(s, a);
    StepKeepsGates(s, a);
    StepKeepsMarkers(s, a);
    StepKeepsChecks(s, a);
  }

  lemma {:induction false} RunKeeps(run: seq<Action>)
    requires IsRun(run)
    ensures Inv(After(run))
    decreases |run|
  {
    if run != [] {
      RunKeeps(run[..|run| - 1]);
      StepKeeps(After(run[..|run| - 1]), run[|run| - 1]);
    }
  }

  // ---------------------------------------------------------------------
  // What the protocol promises.
  // ---------------------------------------------------------------------

  /** Every read under the markers that was begun has ended well and had its marker removed. */
  ghost predicate Quiet(s: State, markers: seq<Marker>) {
    forall id :: id in s.actors && s.actors[id].Reader? && s.actors[id].marker in markers ==>
      !Pinned(s.actors[id].phase)
  }

  ghost predicate Returned(s: State, id: nat, markers: seq<Marker>) {
    id in s.actors && s.actors[id].Check? && s.actors[id].phase.Passed? && s.actors[id].markers == markers
  }

  /**
   A check that returns nil had a moment, holding the gate, at which no read under its markers was
   unfinished and none had ever ended fatally.
   */
  lemma {:induction false} NilMeansQuiet(run: seq<Action>, id: nat, markers: seq<Marker>) returns (cutoff: nat)
    requires IsRun(run) && Returned(After(run), id, markers)
    ensures cutoff <= |run| && IsRun(run[..cutoff]) && Quiet(After(run[..cutoff]), markers)
    ensures markers != [] ==> id in After(run[..cutoff]).actors && Holding(After(run[..cutoff]).actors[id].phase)
    decreases |run|
  {
    var front := run[..|run| - 1];
    var s, a := After(front), run[|run| - 1];
    if markers == [] {
      cutoff := |run|;
      assert run[..cutoff] == run;
    } else if id in s.actors && s.actors[id].phase.Passed? {
      StepKeepsPassed(s, a, id);
      cutoff := NilMeansQuiet(front, id, markers);
      assert front[..cutoff] == run[..cutoff];
    } else {
      cutoff := |run| - 1;
      RunKeeps(front);
      assert a.Unlock? && a.id == id && s.actors[id].phase == Looked(true);
      assert Absent(s, s.actors[id], |markers|);
    }
  }

  lemma StepKeepsPassed(s: State, a: Action, id: nat)
    requires Enabled(s, a) && id in s.actors && s.actors[id].phase.Passed?
    ensures Do(s, a).actors[id].phase.Passed? && Do(s, a).actors[id].Check? == s.actors[id].Check?
    ensures s.actors[id].Check? ==> Do(s, a).actors[id].markers == s.actors[id].markers
  {
  }

  ghost predicate FatalUnder(s: State, id: nat, m: Marker) {
    id in s.actors && s.actors[id].Reader? && s.actors[id].phase.EndedFatal? && s.actors[id].marker == m
  }

  lemma StepKeepsFatal(s: State, a: Action, id: nat, m: Marker)
    requires Enabled(s, a) && FatalUnder(s, id, m)
    ensures FatalUnder(Do(s, a), id, m)
  {
  }

  /** A fatal read stays one, whatever its process and the others go on to do. */
  lemma {:induction false} FatalStays(run: seq<Action>, at: nat, id: nat, m: Marker)
    requires IsRun(run) && at <= |run| && IsRun(run[..at]) && FatalUnder(After(run[..at]), id, m)
    ensures FatalUnder(After(run), id, m)
    decreases |run|
  {
    if at < |run| {
      var front := run[..|run| - 1];
      hide Enabled, Do, FatalUnder;
      assert front[..at] == run[..at];
      FatalStays(front, at, id, m);
      StepKeepsFatal(After(front), run[|run| - 1], id, m);
    } else {
      assert run[..at] == run;
    }
  }

  /**
   Once a read has failed fatally, no other read is ever under way under its marker, and no check of the
   marker ever passes it.
   */
  lemma {:induction false} NoReadAfterFatal(run: seq<Action>, at: nat, id: nat, m: Marker, other: nat)
    requires IsRun(run) && at <= |run| && IsRun(run[..at]) && FatalUnder(After(run[..at]), id, m)
    ensures
      var s := After(run);
      && (other in s.actors && s.actors[other].Reader? && s.actors[other].marker == m && other != id ==>
          !s.actors[other].phase.Reading?)
      && m in s.files && s.files[m] == id
      && (other in s.actors && s.actors[other].Check? && !s.actors[other].stopped && m in s.actors[other].markers ==>
        s.actors[other].phase != Looked(true))
  {
    FatalStays(run, at, id, m);
    RunKeeps(run);
  }

  // ---------------------------------------------------------------------
  // What it does not get in the way of.
  // ---------------------------------------------------------------------

  /** Actions that can follow one another from a state. */
  ghost predicate CanFollow(s: State, run: seq<Action>)
    decreases |run|
  {
    run == [] || (Enabled(s, run[0]) && CanFollow(Do(s, run[0]), run[1..]))
  }

  ghost function Following(s: State, run: seq<Action>): State
    requires CanFollow(s, run)
    decreases |run|
  {
    if run == [] then s else Following(Do(s, run[0]), run[1..])
  }

  /** A read nothing disturbs is made, and leaves neither marker nor gate behind. */
  lemma UndisturbedRead(s: State, id: nat)
    requires Running(s, id) && s.actors[id].Reader? && s.actors[id].phase.Start?
    requires FailureGate(s.actors[id].marker).Some? && FailureGate(s.actors[id].marker).value !in s.gates
    requires s.actors[id].marker !in s.files
    ensures
      var s1 := Do(s, Lock(id, true));
      var s2 := Do(s1, Create(id, true, true));
      var s3 := Do(s2, Unlock(id, true, true));
      var s4 := Do(s3, End(id, false));
      var s5 := Do(s4, Lock(id, true));
      var s6 := Do(s5, Remove(id, true));
      var s7 := Do(s6, Unlock(id, true, true));
      s3.actors[id].phase.Reading? && s7.actors[id].phase.Done? && s7.files == s.files && s7.gates == s.gates
  {
  }

  /** Where no marker stands, a check nothing disturbs returns nil. */
  lemma UndisturbedCheck(s: State, id: nat) returns (run: seq<Action>)
    requires Running(s, id) && s.actors[id].Check? && s.actors[id].phase.CheckStart? && s.actors[id].markers != []
    requires GateOf(s.actors[id]).Some? && GateOf(s.actors[id]).value !in s.gates
    requires forall m :: m in s.actors[id].markers ==> m !in s.files && FailureGate(m) == GateOf(s.actors[id])
    ensures CanFollow(s, run) && id in Following(s, run).actors && Following(s, run).actors[id].phase.Passed?
  {
    var first := Lock(id, true);
    var rest := LookOn(Do(s, first), id, 0);
    run := [first] + rest;
    assert run[1..] == rest;
  }

  lemma {:induction false} LookOn(s: State, id: nat, at: nat) returns (run: seq<Action>)
    requires Running(s, id) && s.actors[id].Check? && s.actors[id].phase == Looking(at) && at <= |s.actors[id].markers|
    requires GateOf(s.actors[id]).Some?
    requires forall m :: m in s.actors[id].markers ==> m !in s.files && FailureGate(m) == GateOf(s.actors[id])
    ensures CanFollow(s, run) && id in Following(s, run).actors && Following(s, run).actors[id].phase.Passed?
    decreases |s.actors[id].markers| - at
  {
    var look := Look(id, true);
    var t := Do(s, look);
    if at < |s.actors[id].markers| {
      assert s.actors[id].markers[at] in s.actors[id].markers;
      var rest := LookOn(t, id, at + 1);
      run := [look] + rest;
      assert run[1..] == rest;
    } else {
      var unlock := Unlock(id, true, true);
      run := [look, unlock];
      assert run[1..] == [unlock] && [unlock][1..] == [];
      assert CanFollow(t, [unlock]);
      assert Following(t, [unlock]) == Do(t, unlock);
    }
  }

  // ---------------------------------------------------------------------
  // The first failed read of a navigation, which is never forgotten.
  // ---------------------------------------------------------------------

  datatype ReadError = Evidence | NoRecord | Other

  /** What a read answers: a record, or an error. */
  datatype Answer = Record(value: string) | Error(error: ReadError)

  class Strict {
    const cited: set<(nat, nat)>
    const held: set<nat>
    var err: Option<ReadError>

    constructor (cited: set<(nat, nat)>, held: set<nat>)
      ensures this.cited == cited && this.held == held && err == None
    {
      this.cited, this.held, err := cited, held, None;
    }

    /** Damage to the evidence, rather than an ordinary answer to a wrong question. */
    predicate Fatal(seqNo: nat, row: nat, a: Answer) {
      a.Error? && (a.error == Evidence || (a.error == NoRecord && (seqNo, row) in cited))
    }

    /** A position the snapshot does not hold and nothing cites is refused unread. */
    predicate Refuses(seqNo: nat, row: nat) {
      seqNo !in held && (seqNo, row) !in cited
    }

    method Fail(e: ReadError)
      modifies this`err
      ensures err == if old(err).None? then Some(e) else old(err)
    {
      if err == None { err := Some(e); }
    }

    /** One read with no marker; found is what reading the record would give. */
    method Read(seqNo: nat, row: nat, found: Answer) returns (a: Answer)
      modifies this`err
      ensures a == if seqNo in held || (seqNo, row) in cited then found else Error(NoRecord)
      ensures old(err).Some? ==> err == old(err)
      ensures old(err).None? ==>
                (err.Some? <==> found.Error? && ((found.error == Evidence && (seqNo in held || (seqNo, row) in cited))
                                                 || (found.error == NoRecord && (seqNo, row) in cited)))
      ensures err.Some? && old(err).None? ==> err.value == a.error
    {
      if seqNo !in held && (seqNo, row) !in cited { return Error(NoRecord); }
      a := found;
      if Fatal(seqNo, row, a) { Fail(a.error); }
    }
  }
}
