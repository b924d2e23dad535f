/** Replaying the audit trail into repair records (`extract_transcript_tuple` in
    src/mind3/benchmarks/runner.py), and why the replay stays in step with the run that wrote the trail. */
module Transcript {
  import opened Options
  import opened TraceLog
  import opened RepairSpec
  import opened RepairRun
  import opened TrailLaw
  import Workspace

  datatype RepairRecord = RepairRecord(
    turn: nat, guidance: string, rtl: Option<string>, raw: Option<string>,
    passed: bool, category: Option<string>, reason: Option<string>)

  /** The loop variables of the replay; `taken` counts the raw responses popped from the queue. */
  datatype Replay = Replay(
    guidance: string, rtl: Option<string>, taken: nat, attempts: seq<RepairRecord>,
    initialRtl: Option<string>, initialFailure: Option<string>)

  const START := Replay("", None, 0, [], None, None)

  predicate RepairRole(role: Role) { role == Repairer || role == LegacyRepairer }

  /** `payload.get("content") or payload.get("rtl_file")`. */
  function Shown(content: string, fileRecord: string): string { if content != "" then content else fileRecord }

  function Truthy(s: Option<string>): Option<string> { if s == Some("") then None else s }

  function Front(queue: seq<string>): Option<string> { if queue == [] then None else Some(queue[0]) }

  function PassedOf(p: Payload): bool { p.Checked? && p.passed }
  function CategoryIn(p: Payload): Option<string> { if p.Checked? then Truthy(p.category) else None }
  function ReasonIn(p: Payload): Option<string> { if p.Checked? then Truthy(p.reason) else None }

  function At(raws: seq<string>, k: nat): Option<string> { if k < |raws| then Some(raws[k]) else None }

  /** One event of the trail. */
  function ReplayStep(r: Replay, phase: Phase, turn: nat, payload: Payload, raws: seq<string>): Replay {
    match phase
    case Execute =>
      if payload.Wrote? && payload.role == Designer then r.(initialRtl := Some(Shown(payload.content, payload.fileRecord)))
      else if payload.Wrote? && RepairRole(payload.role) then r.(rtl := Some(Shown(payload.content, payload.fileRecord)))
      else r
    case ModelCall =>
      if payload.Request? && RepairRole(payload.role) then r.(guidance := payload.guidance) else r
    case Verify =>
      if turn == 0 then
        if PassedOf(payload) then r else r.(initialFailure := CategoryIn(payload))
      else
        r.(attempts := r.attempts + [RepairRecord(turn, r.guidance, r.rtl, At(raws, r.taken), PassedOf(payload),
                                                  CategoryIn(payload), ReasonIn(payload))],
           taken := if r.taken < |raws| then r.taken + 1 else r.taken,
           rtl := None)
    case _ => r
  }

  function ReplayAll(records: seq<TraceRecord<Payload>>, raws: seq<string>): Replay {
    if records == [] then START else
    var last := records[|records| - 1];
    ReplayStep(ReplayAll(records[..|records| - 1], raws), last.phase, last.event.turn, last.event.payload, raws)
  }

  /** The replay as the runner does it: one pass over the trail, popping the queue of raw responses. */
  method ExtractAttempts(records: seq<TraceRecord<Payload>>, raws: seq<string>) returns (result: Replay)
    ensures result == ReplayAll(records, raws)
  {
    var guidance, rtl: Option<string>, attempts: seq<RepairRecord> := "", None, [];
    var initialRtl: Option<string>, initialFailure: Option<string> := None, None;
    var queue := raws;
    for i := 0 to |records|
      invariant |queue| <= |raws| && queue == raws[|raws| - |queue|..]
      invariant ReplayAll(records[..i], raws) ==
                Replay(guidance, rtl, |raws| - |queue|, attempts, initialRtl, initialFailure)
    {
      assert records[..i + 1][..i] == records[..i];
      var payload, turn := records[i].event.payload, records[i].event.turn;
      match records[i].phase {
        case Execute =>
          if payload.Wrote? && payload.role == Designer {
            initialRtl := Some(Shown(payload.content, payload.fileRecord));
          } else if payload.Wrote? && RepairRole(payload.role) {
            rtl := Some(Shown(payload.content, payload.fileRecord));
          }
        case ModelCall =>
          if payload.Request? && RepairRole(payload.role) { guidance := payload.guidance; }
        case Verify =>
          if turn == 0 {
            if !PassedOf(payload) { initialFailure := CategoryIn(payload); }
          } else {
            attempts := attempts + [RepairRecord(turn, guidance, rtl, Front(queue), PassedOf(payload),
                                                 CategoryIn(payload), ReasonIn(payload))];
            if queue != [] { queue := queue[1..]; }
            rtl := None;
          }
        case _ =>
      }
    }
    assert records[..|records|] == records;
    result := Replay(guidance, rtl, |raws| - |queue|, attempts, initialRtl, initialFailure);
  }

  // ---------------------------------------------------------------- what the run put on the trail

  /** The responses that were put on the trail: all but those lost to a failed write. */
  function Kept(served: seq<Served>): seq<Served> {
    if served == [] then [] else
    var last := served[|served| - 1];
    Kept(served[..|served| - 1]) + if last.fate == Lost then [] else [last]
  }

  /** The RTL a record may show: only what this very response put on disk. */
  function RtlOf(fate: Fate): Option<string> {
    if fate.Executed? then Some(Shown(fate.code, fate.record)) else None
  }

  ghost predicate Tells(a: RepairRecord, v: Served) {
    a.turn == v.turn && a.guidance == v.guidance && a.rtl == RtlOf(v.fate) && (a.passed ==> v.fate.Executed?)
  }

  ghost predicate TellsAll(attempts: seq<RepairRecord>, kept: seq<Served>) {
    |attempts| == |kept| && forall j :: 0 <= j < |attempts| ==> Tells(attempts[j], kept[j])
  }

  ghost predicate RawsInOrder(attempts: seq<RepairRecord>, raws: seq<string>) {
    forall j :: 0 <= j < |attempts| ==> attempts[j].raw == At(raws, j)
  }

  /** The bookkeeping agrees with the raw responses the driver kept. */
  ghost predicate Booked(served: seq<Served>, rawRepairs: seq<string>) {
    |served| == |rawRepairs| && forall j :: 0 <= j < |served| ==> served[j].raw == rawRepairs[j]
  }

  /** Turns strictly increase and stay below `bound`. */
  ghost predicate Rising(served: seq<Served>, bound: nat) {
    && (forall j :: 0 <= j < |served| ==> 0 < served[j].turn < bound)
    && (forall i, j :: 0 <= i < j < |served| ==> served[i].turn < served[j].turn)
  }

  ghost predicate Consumed(r: Replay, raws: seq<string>) {
    r.taken == Min(|r.attempts|, |raws|) && RawsInOrder(r.attempts, raws)
  }

  function Read(s: State, raws: seq<string>): Replay { ReplayAll(s.log.records, raws) }

  /** Between turns: one record per response on the trail, and no RTL left over for the next one. */
  ghost predicate Between(r: Replay, served: seq<Served>, rawRepairs: seq<string>, turn: nat, raws: seq<string>) {
    && r.rtl == None && Consumed(r, raws)
    && TellsAll(r.attempts, Kept(served))
    && Booked(served, rawRepairs) && Rising(served, turn + 1)
  }

  /** Inside a turn: the last response is in but its record is still to come, and the replay holds this
      turn's guidance and exactly the RTL this response put on disk. */
  ghost predicate Inside(r: Replay, served: seq<Served>, rawRepairs: seq<string>, turn: nat, raws: seq<string>) {
    && served != [] && turn > 0
    && var last := served[|served| - 1];
    && last.turn == turn && last.fate != Lost
    && r.guidance == last.guidance && r.rtl == RtlOf(last.fate) && Consumed(r, raws)
    && TellsAll(r.attempts, Kept(served[..|served| - 1]))
    && Booked(served, rawRepairs) && Rising(served, turn + 1)
  }

  ghost predicate InStep(s: State, raws: seq<string>) {
    Between(Read(s, raws), s.served, s.rawRepairs, s.turn, raws)
  }

  ghost predicate HalfStep(s: State, raws: seq<string>) {
    Inside(Read(s, raws), s.served, s.rawRepairs, s.turn, raws)
  }

  // ---------------------------------------------------------------- emissions, as the replay sees them

  lemma EmitRead(env: Env, s: State, phase: Phase, payload: Payload, raws: seq<string>)
    ensures Read(EmitTrace(env, s, phase, payload), raws) == ReplayStep(Read(s, raws), phase, s.turn, payload, raws)
  {
    var after := EmitTrace(env, s, phase, payload).log.records;
    assert after[..|after| - 1] == s.log.records;
  }

  /** Entries that the replay does not look at. */
  predicate Silent(phase: Phase, payload: Payload) {
    || (phase != Execute && phase != ModelCall && phase != Verify)
    || (phase == ModelCall && !payload.Request?)
    || (phase == Execute && payload.Wrote? && !RepairRole(payload.role) && payload.role != Designer)
  }

  lemma SilentKeeps(env: Env, s: State, phase: Phase, payload: Payload, raws: seq<string>)
    requires Silent(phase, payload)
    ensures Read(EmitTrace(env, s, phase, payload), raws) == Read(s, raws)
  {
    EmitRead(env, s, phase, payload, raws);
  }

  lemma KeptSnoc(served: seq<Served>, v: Served)
    ensures Kept(served + [v]) == Kept(served) + if v.fate == Lost then [] else [v]
  {
    assert (served + [v])[..|served|] == served;
  }

  /** A VERIFY event closes the turn. */
  lemma VerifyCloses(env: Env, s: State, passed: bool, category: Option<string>, reason: Option<string>, raws: seq<string>)
    requires HalfStep(s, raws) && (passed ==> s.served[|s.served| - 1].fate.Executed?)
    ensures InStep(EmitTrace(env, s, Verify, Checked(passed, category, reason)), raws)
  {
    EmitRead(env, s, Verify, Checked(passed, category, reason), raws);
    InsideCloses(Read(s, raws), s.served, s.rawRepairs, s.turn, Checked(passed, category, reason), raws);
  }

  lemma InsideCloses(r: Replay, served: seq<Served>, rawRepairs: seq<string>, turn: nat, payload: Payload, raws: seq<string>)
    requires Inside(r, served, rawRepairs, turn, raws) && payload.Checked?
    requires payload.passed ==> served[|served| - 1].fate.Executed?
    ensures Between(ReplayStep(r, Verify, turn, payload, raws), served, rawRepairs, turn, raws)
  {
    var n := |served| - 1;
    var record := RepairRecord(turn, r.guidance, r.rtl, At(raws, r.taken), payload.passed, Truthy(payload.category),
                               Truthy(payload.reason));
    assert ReplayStep(r, Verify, turn, payload, raws).attempts == r.attempts + [record];
    assert Kept(served) == Kept(served[..n]) + [served[n]];
    ConsumedSnoc(r.attempts, record, r.taken, raws);
  }

  lemma ConsumedSnoc(attempts: seq<RepairRecord>, record: RepairRecord, taken: nat, raws: seq<string>)
    requires taken == Min(|attempts|, |raws|) && RawsInOrder(attempts, raws) && record.raw == At(raws, taken)
    ensures RawsInOrder(attempts + [record], raws)
    ensures (if taken < |raws| then taken + 1 else taken) == Min(|attempts| + 1, |raws|)
  {
  }

  // ---------------------------------------------------------------- one turn

  lemma AskedRead(env: Env, s: State, guidance: string, raws: seq<string>)
    ensures Read(Ask(env, s, guidance), raws) == Read(s, raws).(guidance := guidance)
    ensures SameBooks(s, Ask(env, s, guidance)) && Ask(env, s, guidance).turn == s.turn + 1
  {
    var counted := s.(turn := s.turn + 1, repairCalls := s.repairCalls + 1);
    EmitRead(env, counted, ModelCall, Request(Repairer, guidance), raws);
  }

  ghost predicate SameBooks(s: State, t: State) { s.served == t.served && s.rawRepairs == t.rawRepairs }

  lemma AskedAndHeard(env: Env, s: State, guidance: string, raw: string, truncated: Option<bool>, raws: seq<string>)
    requires InStep(s, raws)
    ensures HalfStep(Hear(Ask(env, s, guidance), guidance, raw, truncated), raws)
    ensures Hear(Ask(env, s, guidance), guidance, raw, truncated).served[|s.served|].fate == NotWritten
  {
    AskedRead(env, s, guidance, raws);
    HeardInside(Read(s, raws), s.served, s.rawRepairs, s.turn, guidance, raw, raws);
  }

  lemma HeardInside(r: Replay, served: seq<Served>, rawRepairs: seq<string>, turn: nat, guidance: string, raw: string,
                    raws: seq<string>)
    requires Between(r, served, rawRepairs, turn, raws)
    ensures Inside(r.(guidance := guidance), served + [Served(turn + 1, guidance, raw, NotWritten)], rawRepairs + [raw],
                   turn + 1, raws)
  {
    var more := served + [Served(turn + 1, guidance, raw, NotWritten)];
    assert more[..|more| - 1] == served;
  }

  lemma AskedOnly(env: Env, s: State, guidance: string, raws: seq<string>)
    requires InStep(s, raws)
    ensures InStep(Ask(env, s, guidance), raws)
  {
    AskedRead(env, s, guidance, raws);
    LaterBetween(Read(s, raws), s.served, s.rawRepairs, s.turn, guidance, raws);
  }

  lemma LaterBetween(r: Replay, served: seq<Served>, rawRepairs: seq<string>, turn: nat, guidance: string, raws: seq<string>)
    requires Between(r, served, rawRepairs, turn, raws)
    ensures Between(r.(guidance := guidance), served, rawRepairs, turn + 1, raws)
  {
  }

  /** Changes that neither the trail nor the bookkeeping sees. */
  ghost predicate SameStory(s: State, t: State) {
    s.log.records == t.log.records && s.served == t.served && s.rawRepairs == t.rawRepairs && s.turn == t.turn
  }

  lemma RollbackInStep(env: Env, s: State, status: Status, category: Option<string>, raws: seq<string>)
    requires InStep(s, raws)
    ensures InStep(Rollback(env, s, status, category).s, raws)
  {
    SilentKeeps(env, Restore(s), RepairOrFinish, Finished(status, category), raws);
  }

  lemma CallLostInStep(env: Env, s: State, exc: string, raws: seq<string>)
    requires InStep(s, raws)
    ensures var f := CallLost(env, s, exc); InStep(f.s, raws)
  {
    var failed := Remember(s, CALL_FAILURE);
    if EndsWithFailures(failed.history) { RollbackInStep(env, failed, RolledBack, Some("MODEL_CALL_FAILURE"), raws); }
  }

  lemma ChargeParseInStep(env: Env, s: State, error: string, raws: seq<string>)
    requires HalfStep(s, raws)
    ensures InStep(ChargeParse(env, s, error), raws)
  {
    var counted := Remember(s.(parseAttempts := s.parseAttempts + 1), PARSE_FAILURE);
    assert HalfStep(counted, raws);
    VerifyCloses(env, counted, false, Some(PARSE_FAILURE), Some(error), raws);
  }

  lemma StoryKeeps(s: State, t: State, raws: seq<string>)
    requires InStep(s, raws) && SameStory(s, t)
    ensures InStep(t, raws)
  {
  }

  lemma ParseFailedInStep(env: Env, s: State, error: string, raws: seq<string>)
    requires HalfStep(s, raws)
    ensures InStep(ParseFailed(env, s, error).s, raws)
  {
    ChargeParseInStep(env, s, error, raws);
    var failed := ChargeParse(env, s, error);
    if ParseBudgetGone(failed) {
      RollbackInStep(env, failed, RolledBack, Some(PARSE_FAILURE), raws);
    } else {
      StoryKeeps(failed, RetryParse(env, Bump(failed), error), raws);
    }
  }

  lemma SkipInStep(env: Env, s: State, guidance: string, raws: seq<string>)
    requires HalfStep(s, raws)
    ensures InStep(Skip(env, s, guidance).s, raws)
  {
    var noted := Remember(s, UNCHANGED);
    VerifyCloses(env, noted, false, Some("REPAIR_UNCHANGED_CANDIDATE"), Some("unchanged"), raws);
    var seen := EmitCheck(env, noted, "REPAIR_UNCHANGED_CANDIDATE", "unchanged");
    if Spent(seen, seen.pending) >= Limit(env, seen.pending) || ParseBudgetGone(seen) {
      RollbackInStep(env, seen, RolledBack, Some("REPAIR_UNCHANGED_CANDIDATE"), raws);
    }
  }

  lemma WriteStep(env: Env, s: State, code: string, raws: seq<string>)
    requires HalfStep(s, raws) && s.served[|s.served| - 1].fate == NotWritten
    ensures var f := RepairSpec.Write(env, s, code);
      match f
      case ToVerifier(t) => HalfStep(t, raws) && t.served[|t.served| - 1].fate.Executed?
      case Again(t) => InStep(t, raws)
      case Stop(_, _) => false
  {
    match env.write(s.repairCalls)
    case WriteFailed(exc, left) =>
      LostStep(s, raws);
      StoryKeeps(Mark(s, Lost), Missed(env, s, exc, left), raws);
    case Written(record) => AppliedStep(env, s, code, record, raws);
  }

  /** A failed write leaves no record: the response is on the books but not on the trail. */
  lemma LostStep(s: State, raws: seq<string>)
    requires HalfStep(s, raws) && s.served[|s.served| - 1].fate == NotWritten
    ensures InStep(Mark(s, Lost), raws)
  {
    var n := |s.served| - 1;
    assert Mark(s, Lost).served[..n] == s.served[..n];
  }

  lemma MarkKeeps(s: State, fate: Fate)
    requires s.served != [] && Booked(s.served, s.rawRepairs) && Rising(s.served, s.turn + 1)
    ensures var n := |s.served| - 1; var m := Mark(s, fate);
      && |m.served| == n + 1 && m.served[..n] == s.served[..n] && m.served[n] == s.served[n].(fate := fate)
      && Booked(m.served, m.rawRepairs) && Rising(m.served, m.turn + 1)
  {
  }

  lemma AppliedRead(env: Env, s: State, code: string, record: string, raws: seq<string>)
    ensures var t := Applied(env, s, code, record);
      && Read(t, raws) == Read(s, raws).(rtl := Some(Shown(code, record)))
      && t.served == Mark(s, Executed(code, record)).served && t.rawRepairs == s.rawRepairs && t.turn == s.turn
  {
    var written := Stored(env, s, code, record);
    WrittenRead(env, s, written, code, record, raws);
  }

  lemma WrittenRead(env: Env, s: State, written: State, code: string, record: string, raws: seq<string>)
    requires written.log == s.log
    ensures Read(EmitTrace(env, written, Execute, Wrote(Repairer, code, record)), raws) ==
            Read(s, raws).(rtl := Some(Shown(code, record)))
  {
    EmitRead(env, written, Execute, Wrote(Repairer, code, record), raws);
  }

  lemma AppliedStep(env: Env, s: State, code: string, record: string, raws: seq<string>)
    requires HalfStep(s, raws) && s.served[|s.served| - 1].fate == NotWritten
    ensures var t := Applied(env, s, code, record);
      HalfStep(t, raws) && t.served != [] && t.served[|t.served| - 1].fate.Executed?
  {
    MarkKeeps(s, Executed(code, record));
    AppliedRead(env, s, code, record, raws);
    ExecutedHalf(s, Applied(env, s, code, record), code, record, raws);
  }

  lemma ExecutedHalf(s: State, t: State, code: string, record: string, raws: seq<string>)
    requires HalfStep(s, raws) && t.turn == s.turn && Booked(t.served, t.rawRepairs) && Rising(t.served, t.turn + 1)
    requires Read(t, raws) == Read(s, raws).(rtl := Some(Shown(code, record)))
    requires |t.served| == |s.served| && t.served[..|s.served| - 1] == s.served[..|s.served| - 1]
    requires t.served[|s.served| - 1] == s.served[|s.served| - 1].(fate := Executed(code, record))
    ensures HalfStep(t, raws)
  {
  }

  /** Where a turn leaves the replay: in step, or half a step ahead of the verifier on an executed response. */
  ghost predicate FlowInStep(f: Flow, raws: seq<string>) {
    match f
    case ToVerifier(s) => HalfStep(s, raws) && s.served[|s.served| - 1].fate.Executed?
    case Again(s) => InStep(s, raws)
    case Stop(s, result) => InStep(s, raws)
  }

  lemma JudgeInStep(env: Env, s: State, guidance: string, code: string, same: bool, skip: bool, large: bool, raws: seq<string>)
    requires HalfStep(s, raws) && s.served[|s.served| - 1].fate == NotWritten
    ensures FlowInStep(Judge(env, s, guidance, code, same, skip, large), raws)
  {
    var paid := Pay(s, same);
    assert SameStory(s, paid);
    if skip {
      SkipInStep(env, paid, guidance, raws);
    } else if large {
      var noted := Remember(paid, TOO_LARGE).(guidance := Some(env.say(PatchTooLarge)));
      VerifyCloses(env, noted, false, Some(TOO_LARGE), Some("change budget"), raws);
    } else {
      WriteStep(env, paid, code, raws);
    }
  }

  lemma ReactInStep(env: Env, s: State, guidance: string, current: string, raw: string, raws: seq<string>)
    requires HalfStep(s, raws) && s.served[|s.served| - 1].fate == NotWritten
    ensures FlowInStep(React(env, s, guidance, current, raw), raws)
  {
    match env.parse(raw, Context(env, current))
    case Unparseable(error) => ParseFailedInStep(env, s, error, raws);
    case Parsed(code) =>
      JudgeInStep(env, s, guidance, code, SameCandidate(current, code), Skips(env, current, code),
                  TooLarge(env, current, code), raws);
  }

  lemma RepairTurnInStep(env: Env, s: State, guidance: string, raws: seq<string>)
    requires InStep(s, raws)
    ensures FlowInStep(RepairTurn(env, s, guidance), raws)
  {
    if ParseBudgetGone(s) {
      RollbackInStep(env, s, RolledBack, Some(PARSE_FAILURE), raws);
    } else if Spent(s, s.pending) + 1 > Limit(env, s.pending) {
      RollbackInStep(env, s, RolledBack, None, raws);
    } else {
      CallModelInStep(env, s, guidance, raws);
    }
  }

  lemma CallModelInStep(env: Env, s: State, guidance: string, raws: seq<string>)
    requires InStep(s, raws)
    ensures FlowInStep(CallModel(env, s, guidance), raws)
  {
    match env.repair(s.repairCalls)
    case CallFailed(exc) =>
      AskedOnly(env, s, guidance, raws);
      CallLostInStep(env, Ask(env, s, guidance), exc, raws);
    case Response(raw, truncated) =>
      AskedAndHeard(env, s, guidance, raw, truncated, raws);
      ReactInStep(env, Hear(Ask(env, s, guidance), guidance, raw, truncated), guidance, CurrentRtl(env, s), raw, raws);
  }

  // ---------------------------------------------------------------- the verifier

  /** Before the first repair turn every VERIFY event has turn 0 and leaves no record. */
  ghost predicate Fresh(s: State, raws: seq<string>) {
    var r := Read(s, raws);
    && s.turn == 0 && s.served == [] && s.rawRepairs == []
    && r.attempts == [] && r.taken == 0 && r.rtl == None
  }

  /** Ready for the verifier: at turn 0, or half a step into a turn whose response was executed. */
  ghost predicate Poised(s: State, raws: seq<string>) {
    Fresh(s, raws) || (HalfStep(s, raws) && s.served[|s.served| - 1].fate.Executed?)
  }

  lemma FreshIsInStep(s: State, raws: seq<string>)
    requires Fresh(s, raws)
    ensures InStep(s, raws)
  {
  }

  lemma FreshEmit(env: Env, s: State, phase: Phase, payload: Payload, raws: seq<string>)
    requires Fresh(s, raws)
    requires Silent(phase, payload) || phase == Verify || (phase == Execute && payload.Wrote? && payload.role == Designer)
    ensures Fresh(EmitTrace(env, s, phase, payload), raws)
  {
    EmitRead(env, s, phase, payload, raws);
  }

  lemma ExaminedInStep(env: Env, s: State, files: Workspace.Tree, passed: bool, category: Option<string>,
                       reason: Option<string>, raws: seq<string>)
    requires Poised(s, raws)
    ensures InStep(Examined(env, s, files, passed, category, reason), raws)
  {
    if Fresh(s, raws) {
      ExaminedFresh(env, s, files, passed, category, reason, raws);
    } else {
      ExaminedHalf(env, s, files, passed, category, reason, raws);
    }
  }

  lemma ExaminedFresh(env: Env, s: State, files: Workspace.Tree, passed: bool, category: Option<string>,
                      reason: Option<string>, raws: seq<string>)
    requires Fresh(s, raws)
    ensures InStep(Examined(env, s, files, passed, category, reason), raws)
  {
    var run := Ran(s, files);
    FreshEmit(env, run, Verify, Checked(passed, category, reason), raws);
    FreshIsInStep(Examined(env, s, files, passed, category, reason), raws);
  }

  lemma ExaminedHalf(env: Env, s: State, files: Workspace.Tree, passed: bool, category: Option<string>,
                     reason: Option<string>, raws: seq<string>)
    requires HalfStep(s, raws) && s.served[|s.served| - 1].fate.Executed?
    ensures InStep(Examined(env, s, files, passed, category, reason), raws)
  {
    var run := Ran(s, files);
    assert HalfStep(run, raws);
    VerifyCloses(env, run, passed, category, reason, raws);
  }

  /** In step, except that a verifier that crashes leaves its turn without a record. */
  ghost predicate OutcomeInStep(o: Outcome, raws: seq<string>) {
    match o
    case Continue(s) => InStep(s, raws)
    case Done(s, result) => InStep(s, raws) || (result == Raised && HalfStep(s, raws))
  }

  lemma RunVerifierInStep(env: Env, s: State, raws: seq<string>)
    requires FreshCandidate(env, s) && Poised(s, raws)
    ensures OutcomeInStep(RunVerifier(env, s), raws)
  {
    var v := env.verify(s.verifierCalls);
    if v.Crashed? {
      CrashedInStep(env, s, raws);
    } else {
      ExaminedInStep(env, s, v.files, v.passed, v.category, v.reason, raws);
      ConcludeInStep(env, Examined(env, s, v.files, v.passed, v.category, v.reason), v, raws);
    }
  }

  lemma CrashedInStep(env: Env, s: State, raws: seq<string>)
    requires Poised(s, raws)
    ensures OutcomeInStep(Done(s.(verifierCalls := s.verifierCalls + 1, given := s.workspace), Raised), raws)
  {
    if Fresh(s, raws) { FreshIsInStep(s, raws); }
  }

  lemma ConcludeInStep(env: Env, s: State, v: VerifyAnswer, raws: seq<string>)
    requires v.Verdict? && InStep(s, raws)
    ensures OutcomeInStep(Conclude(env, s, v), raws)
  {
    if v.passed {
      AcceptInStep(env, s, v.silicon, raws);
    } else {
      DiagnoseInStep(env, s, CategoryOf(v.category), NonRepairable(CategoryOf(v.category)),
                     StageFor(CategoryOf(v.category), v.gate), Evidence(v.prompt, RecentlyUnchanged(s.history)),
                     v.evidenceValid, raws);
    }
  }

  lemma AcceptInStep(env: Env, s: State, silicon: bool, raws: seq<string>)
    requires InStep(s, raws)
    ensures InStep(Accept(env, s, silicon).s, raws)
  {
    var status := if silicon then SiliconVerified else VerifiedSuccess;
    SilentKeeps(env, s.(snapshot := None), RepairOrFinish, Finished(status, None), raws);
    SilentKeeps(env, EmitTrace(env, s.(snapshot := None), RepairOrFinish, Finished(status, None)),
                Phase.Trace, Note("final_status"), raws);
  }

  lemma DiagnoseInStep(env: Env, s: State, category: string, hopeless: bool, stage: Stage, notice: Notice,
                       evidenceValid: bool, raws: seq<string>)
    requires InStep(s, raws)
    ensures OutcomeInStep(Diagnose(env, s, category, hopeless, stage, notice, evidenceValid), raws)
  {
    if hopeless {
      RollbackInStep(env, s, AbortedNonRepairable, Some(category), raws);
    } else if Spent(s, stage) >= Limit(env, stage) {
      RollbackInStep(env, s, RolledBack, Some(category), raws);
    }
  }

  lemma IterateInStep(env: Env, s: State, raws: seq<string>)
    requires s.guidance == None ==> FreshCandidate(env, s) && Fresh(s, raws)
    requires s.guidance.Some? ==> InStep(s, raws)
    ensures OutcomeInStep(Iterate(env, s), raws)
  {
    match s.guidance
    case None => RunVerifierInStep(env, s, raws);
    case Some(guidance) =>
      RepairTurnInStep(env, s, guidance, raws);
      match RepairTurn(env, s, guidance)
      case ToVerifier(s') => RunVerifierInStep(env, s', raws);
      case Again(_) =>
      case Stop(_, _) =>
  }

  lemma {:induction false} LoopInStep(env: Env, s: State, at: Origin, raws: seq<string>)
    requires LoopInv(env, s, at)
    requires if s.guidance == None then Fresh(s, raws) else InStep(s, raws)
    ensures OutcomeInStep(Done(RunLoop(env, s, at).0, RunLoop(env, s, at).1), raws)
    decreases Unspent(env, s), if s.guidance == None then 1 else 0, 3 - Min(Streak(s.history), 3)
  {
    IterateGood(env, s, at);
    BudgetBound(env, s);
    IterateInStep(env, s, raws);
    match Iterate(env, s)
    case Done(_, _) =>
    case Continue(s') => LoopInStep(env, s', at, raws);
  }

  // ---------------------------------------------------------------- before the loop

  ghost predicate FreshOutcome(o: Outcome, raws: seq<string>) { Fresh(o.s, raws) }

  lemma FreshRollback(env: Env, s: State, status: Status, category: Option<string>, raws: seq<string>)
    requires Fresh(s, raws)
    ensures FreshOutcome(Rollback(env, s, status, category), raws)
  {
    FreshEmit(env, Restore(s), RepairOrFinish, Finished(status, category), raws);
  }

  lemma FreshCheck(env: Env, s: State, category: string, reason: string, raws: seq<string>)
    requires Fresh(s, raws)
    ensures Fresh(EmitCheck(env, s, category, reason), raws)
  {
    FreshEmit(env, s, Verify, Checked(false, Some(category), Some(reason)), raws);
  }

  lemma BeginFresh(env: Env, at: Origin, raws: seq<string>)
    ensures Fresh(Begin(env, at.numPredict, at.workspace, Log([], at.genesis, 0)), raws)
  {
    var s := Blank(at.numPredict, at.workspace, Log([], at.genesis, 0));
    var told := EmitTrace(env, s, Intake, Note("task"));
    var announced := EmitTrace(env, told, Route, Note("contract_first_compile_first"));
    FreshEmit(env, s, Intake, Note("task"), raws);
    FreshEmit(env, told, Route, Note("contract_first_compile_first"), raws);
    FreshEmit(env, CreateSnapshot(announced), Phase.Snapshot, Note("items"), raws);
  }

  lemma ArchitectFresh(env: Env, s: State, attempt: nat, raws: seq<string>)
    requires Fresh(s, raws)
    ensures var a := AskArchitect(env, s, attempt);
      match a
      case Retry(r) => Fresh(r, raws)
      case Settled(o) => FreshOutcome(o, raws)
  {
    var asked := EmitTrace(env, s, ModelCall, Note("contract_synthesis"));
    FreshEmit(env, s, ModelCall, Note("contract_synthesis"), raws);
    match env.architect(attempt)
    case Rejected(exc) => FreshEmit(env, asked, Parse, ArchitectResult(Some(exc)), raws);
    case Inconsistent(violations) =>
      FreshEmit(env, asked, Parse, ArchitectResult(if attempt == 0 then Some(violations) else None), raws);
      if attempt != 0 { RejectFresh(env, EmitTrace(env, asked, Parse, ArchitectResult(None)), violations, raws); }
    case Accepted => FreshEmit(env, asked, Parse, ArchitectResult(None), raws);
  }

  lemma RejectFresh(env: Env, s: State, violations: string, raws: seq<string>)
    requires Fresh(s, raws)
    ensures FreshOutcome(RejectContract(env, s, violations), raws)
  {
    FreshCheck(env, s, "SPECIFICATION_ERROR", violations, raws);
    FreshRollback(env, EmitCheck(env, s, "SPECIFICATION_ERROR", violations), AbortedNonRepairable,
                  Some("SPECIFICATION_ERROR"), raws);
  }

  lemma ContractFresh(env: Env, s: State, raws: seq<string>)
    requires Fresh(s, raws)
    ensures FreshOutcome(AgreeContract(env, s), raws)
  {
    if env.contractGiven {
      FreshEmit(env, s, Parse, ArchitectResult(None), raws);
    } else {
      ArchitectFresh(env, s, 0, raws);
      var first := AskArchitect(env, s, 0);
      if first.Retry? { ArchitectFresh(env, first.s, 1, raws); }
    }
  }

  lemma HarnessFresh(env: Env, s: State, raws: seq<string>)
    requires Fresh(s, raws)
    ensures FreshOutcome(StageHarness(env, s), raws)
  {
    match env.harness
    case UnverifiableProperty(exc) =>
      FreshCheck(env, s, "UNSUPPORTED_FORMAL_PROPERTY", exc, raws);
      FreshRollback(env, EmitCheck(env, s, "UNSUPPORTED_FORMAL_PROPERTY", exc), AbortedNonRepairable,
                    Some("UNSUPPORTED_FORMAL_PROPERTY"), raws);
    case VacuousProperties(exc) =>
      FreshCheck(env, s, "NO_GENUINE_PROPERTY", exc, raws);
      FreshRollback(env, EmitCheck(env, s, "NO_GENUINE_PROPERTY", exc), AbortedNonRepairable, Some("NO_GENUINE_PROPERTY"), raws);
    case HarnessBuilt =>
      if env.staging.AllStaged? {
        var staged := s.(workspace := s.workspace + StagedFiles(env));
        FreshEmit(env, staged, Execute, Wrote(HarnessLead, "", ""), raws);
        FreshEmit(env, EmitTrace(env, staged, Execute, Wrote(HarnessLead, "", "")), ModelCall, Note("rtl_generation"), raws);
      }
  }

  lemma {:induction false} GenerationFresh(env: Env, s: State, raws: seq<string>)
    requires Fresh(s, raws)
    ensures FreshOutcome(GenerateRtl(env, s), raws)
    decreases PARSE_MAX_ATTEMPTS - s.parseAttempts
  {
    var n := |s.rawInitial|;
    match env.generate(n)
    case CallFailed(exc) => GivesUpFresh(env, s, exc, raws);
    case Response(raw, truncated) =>
      var got := Account(s, truncated).(rawInitial := s.rawInitial + [raw]);
      assert Fresh(got, raws);
      GenerateNext(env, s, n, raw, truncated, got);
      if env.parse(raw, None).Parsed? {
        PlaceFresh(env, got, env.parse(raw, None).code, raws);
      } else {
        var error := env.parse(raw, None).error;
        var failed := FirstParseFailed(env, got, error);
        ParseFailedFresh(env, got, error, raws);
        if ParseBudgetGone(failed) { GivesUpFresh(env, failed, error, raws); } else { GenerationFresh(env, failed, raws); }
      }
  }

  lemma ParseFailedFresh(env: Env, s: State, error: string, raws: seq<string>)
    requires Fresh(s, raws)
    ensures Fresh(FirstParseFailed(env, s, error), raws)
  {
    FreshCheck(env, Bump(s.(parseAttempts := s.parseAttempts + 1)), PARSE_FAILURE, error, raws);
  }

  lemma PlaceFresh(env: Env, s: State, code: string, raws: seq<string>)
    requires Fresh(s, raws)
    ensures FreshOutcome(PlaceFirst(env, s, code), raws)
  {
    match env.firstWrite
    case WriteFailed(exc, left) => GivesUpFresh(env, s.(workspace := LeftBehind(env, s.workspace, left)), exc, raws);
    case Written(record) =>
      FreshEmit(env, s.(workspace := Workspace.WriteFile(s.workspace, RtlFile(env), code)), Execute,
                Wrote(Designer, code, record), raws);
  }

  lemma GivesUpFresh(env: Env, s: State, exc: string, raws: seq<string>)
    requires Fresh(s, raws)
    ensures FreshOutcome(GenerationGivesUp(env, s, exc), raws)
  {
    if env.generationEvidenceValid {
      FreshCheck(env, s.(guidance := Some(env.say(GenerationFailed(exc))), lastFailureWasParse := true), PARSE_FAILURE, exc, raws);
    }
  }

  lemma PreludeFresh(env: Env, at: Origin, raws: seq<string>)
    ensures FreshOutcome(Prelude(env, at.numPredict, at.workspace, Log([], at.genesis, 0)), raws)
  {
    var s := Begin(env, at.numPredict, at.workspace, Log([], at.genesis, 0));
    BeginFresh(env, at, raws);
    ContractFresh(env, s, raws);
    var contract := AgreeContract(env, s);
    if contract.Continue? {
      HarnessFresh(env, contract.s, raws);
      var harness := StageHarness(env, contract.s);
      if harness.Continue? { GenerationFresh(env, harness.s, raws); }
    }
  }

  // ---------------------------------------------------------------- the alignment theorem

  /** What the runner extracts after the run, from the trail and the raw responses the driver kept. */
  ghost function Extracted(env: Env, at: Origin): Replay { Read(Run(env, at).0, Run(env, at).0.rawRepairs) }

  lemma RunInStep(env: Env, at: Origin, raws: seq<string>)
    ensures OutcomeInStep(Done(Run(env, at).0, Run(env, at).1), raws)
  {
    var log := Log([], at.genesis, 0);
    PreludeGood(env, at, log);
    PreludeFresh(env, at, raws);
    match Prelude(env, at.numPredict, at.workspace, log)
    case Done(s, _) => FreshIsInStep(s, raws);
    case Continue(s) =>
      if s.guidance.Some? { FreshIsInStep(s, raws); }
      LoopInStep(env, s, at, raws);
  }

  ghost predicate TurnsRise(attempts: seq<RepairRecord>) {
    forall i, j :: 0 <= i < j < |attempts| ==> attempts[i].turn < attempts[j].turn
  }

  lemma {:induction false} KeptBounded(served: seq<Served>)
    ensures |Kept(served)| <= |served|
  {
    if served != [] { KeptBounded(served[..|served| - 1]); }
  }

  lemma {:induction false} KeptRises(served: seq<Served>, bound: nat)
    requires Rising(served, bound)
    ensures Rising(Kept(served), bound)
  {
    if served != [] {
      var n := |served| - 1;
      assert Rising(served[..n], served[n].turn);
      KeptRises(served[..n], served[n].turn);
    }
  }

  /** The records `attempts` tell the story of the run that ended in `s`: in order, each about the next
      response that was put on the trail, and each with the next raw response. */
  ghost predicate Aligned(attempts: seq<RepairRecord>, s: State) {
    && |attempts| <= |Kept(s.served)| && TellsAll(attempts, Kept(s.served)[..|attempts|])
    && |attempts| <= |s.rawRepairs| && (forall j :: 0 <= j < |attempts| ==> attempts[j].raw == Some(s.rawRepairs[j]))
    && TurnsRise(attempts)
  }

  lemma InStepAligned(s: State)
    requires InStep(s, s.rawRepairs)
    ensures Aligned(Read(s, s.rawRepairs).attempts, s) && |Read(s, s.rawRepairs).attempts| == |Kept(s.served)|
  {
    var kept := Kept(s.served);
    KeptBounded(s.served);
    KeptRises(s.served, s.turn + 1);
    assert kept[..|kept|] == kept;
  }

  lemma HalfStepAligned(s: State)
    requires HalfStep(s, s.rawRepairs)
    ensures Aligned(Read(s, s.rawRepairs).attempts, s) && |Read(s, s.rawRepairs).attempts| == |Kept(s.served)| - 1
  {
    var n := |s.served| - 1;
    var front, last := s.served[..n], s.served[n];
    var before := Kept(front);
    assert s.served == front + [last];
    KeptSnoc(front, last);
    KeptBounded(front);
    assert Rising(front, s.turn + 1);
    KeptRises(front, s.turn + 1);
    HalfAligned(Read(s, s.rawRepairs).attempts, s, before);
  }

  lemma HalfAligned(attempts: seq<RepairRecord>, s: State, before: seq<Served>)
    requires before <= Kept(s.served) && TellsAll(attempts, before) && |before| <= |s.rawRepairs|
    requires RawsInOrder(attempts, s.rawRepairs) && Rising(before, s.turn + 1)
    ensures Aligned(attempts, s)
  {
    assert Kept(s.served)[..|attempts|] == before;
  }

  /** The k-th record of the transcript tells the story of the k-th response that was not lost to a failed
      write: its turn, its own guidance, RTL only if that very response was executed. Raw responses come in
      the order they arrived, one for every record. Only a verifier that crashes can leave a response
      without its record. */
  lemma TranscriptAligned(env: Env, at: Origin)
    ensures var (s, result) := Run(env, at); var attempts := Extracted(env, at).attempts;
      && Aligned(attempts, s) && Booked(s.served, s.rawRepairs)
      && |Kept(s.served)| - (if result == Raised then 1 else 0) <= |attempts|
  {
    var (s, result) := Run(env, at);
    RunInStep(env, at, s.rawRepairs);
    if InStep(s, s.rawRepairs) { InStepAligned(s); } else { HalfStepAligned(s); }
  }

  // ---------------------------------------------------------------- when raw responses belong to their records

  ghost predicate NoneLost(served: seq<Served>) {
    forall j :: 0 <= j < |served| ==> served[j].fate != Lost
  }

  lemma {:induction false} NoneLostKeepsAll(served: seq<Served>)
    requires NoneLost(served)
    ensures Kept(served) == served
  {
    if served != [] {
      var n := |served| - 1;
      NoneLostKeepsAll(served[..n]);
      assert served[n].fate != Lost;
      KeptSnoc(served[..n], served[n]);
      assert served == served[..n] + [served[n]];
    }
  }

  /** What a booked response says about the environment: it is the model's answer to the call of its turn, and
      once the driver tried to write it, it was executed or lost as that turn's file was written or not. */
  ghost predicate Genuine(env: Env, v: Served) {
    && v.turn > 0 && env.repair(v.turn - 1).Response? && env.repair(v.turn - 1).raw == v.raw
    && (v.fate == Lost ==> env.write(v.turn).WriteFailed?)
    && (v.fate.Executed? ==> env.write(v.turn).Written?)
  }

  ghost predicate AllGenuine(env: Env, served: seq<Served>) {
    forall j :: 0 <= j < |served| ==> Genuine(env, served[j])
  }

  /** Whatever happens to the response being handled, only the fate of its own entry changes, and that as the
      file of this turn is written or not. */
  ghost predicate TouchesLast(env: Env, s: State, after: seq<Served>) {
    s.served != [] &&
    var n := |s.served| - 1;
    && |after| == n + 1 && after[..n] == s.served[..n] && after[n] == s.served[n].(fate := after[n].fate)
    && (after[n].fate == Lost ==> s.served[n].fate == Lost || env.write(s.repairCalls).WriteFailed?)
    && (after[n].fate.Executed? ==> s.served[n].fate.Executed? || env.write(s.repairCalls).Written?)
  }

  lemma Untouched(env: Env, s: State, after: seq<Served>)
    requires s.served != [] && after == s.served
    ensures TouchesLast(env, s, after)
  {
  }

  lemma WriteTouches(env: Env, s: State, code: string)
    requires s.served != []
    ensures TouchesLast(env, s, RepairSpec.Write(env, s, code).s.served)
  {
    match env.write(s.repairCalls)
    case WriteFailed(_, _) => assert RepairSpec.Write(env, s, code).s.served == Mark(s, Lost).served;
    case Written(record) => assert RepairSpec.Write(env, s, code).s.served == Mark(s, Executed(code, record)).served;
  }

  lemma SkipTouches(env: Env, s: State, guidance: string)
    ensures Skip(env, s, guidance).s.served == s.served
  {
  }

  lemma JudgeTouches(env: Env, s: State, guidance: string, code: string, same: bool, skip: bool, large: bool)
    requires s.served != []
    ensures TouchesLast(env, s, Judge(env, s, guidance, code, same, skip, large).s.served)
  {
    var paid := Pay(s, same);
    assert paid.served == s.served && paid.repairCalls == s.repairCalls;
    if skip {
      SkipTouches(env, paid, guidance);
      Untouched(env, s, paid.served);
    } else if large {
      Untouched(env, s, paid.served);
    } else {
      WriteTouches(env, paid, code);
    }
  }

  lemma ReactTouches(env: Env, s: State, guidance: string, current: string, raw: string)
    requires s.served != []
    ensures TouchesLast(env, s, React(env, s, guidance, current, raw).s.served)
  {
    match env.parse(raw, Context(env, current))
    case Unparseable(error) => Untouched(env, s, ParseFailed(env, s, error).s.served);
    case Parsed(code) =>
      JudgeTouches(env, s, guidance, code, SameCandidate(current, code), Skips(env, current, code), TooLarge(env, current, code));
  }

  lemma RepairTurnGenuine(env: Env, s: State, guidance: string)
    requires AllGenuine(env, s.served) && s.turn == s.repairCalls
    ensures AllGenuine(env, RepairTurn(env, s, guidance).s.served)
  {
    if !ParseBudgetGone(s) && Spent(s, s.pending) + 1 <= Limit(env, s.pending) {
      CallModelGenuine(env, s, guidance);
    }
  }

  lemma CallModelGenuine(env: Env, s: State, guidance: string)
    requires AllGenuine(env, s.served) && s.turn == s.repairCalls
    ensures AllGenuine(env, CallModel(env, s, guidance).s.served)
  {
    match env.repair(s.repairCalls)
    case CallFailed(_) =>
    case Response(raw, truncated) =>
      var heard := Hear(Ask(env, s, guidance), guidance, raw, truncated);
      HeardGenuine(env, s, heard, guidance, raw);
      ReactTouches(env, heard, guidance, CurrentRtl(env, s), raw);
      TouchedGenuine(env, heard, CallModel(env, s, guidance).s.served);
  }

  lemma HeardGenuine(env: Env, s: State, heard: State, guidance: string, raw: string)
    requires AllGenuine(env, s.served) && heard.served == s.served + [Served(s.turn + 1, guidance, raw, NotWritten)]
    requires env.repair(s.turn).Response? && env.repair(s.turn).raw == raw
    ensures AllGenuine(env, heard.served)
  {
  }

  lemma TouchedGenuine(env: Env, s: State, after: seq<Served>)
    requires TouchesLast(env, s, after) && AllGenuine(env, s.served)
    requires s.served[|s.served| - 1].turn == s.repairCalls
    ensures AllGenuine(env, after)
  {
    var n := |s.served| - 1;
    forall j | 0 <= j < |after| ensures Genuine(env, after[j]) {
      assert Genuine(env, s.served[j]);
      if j < n { assert after[..n][j] == s.served[..n][j]; }
    }
  }

  lemma VerifierServesNothing(env: Env, s: State)
    requires FreshCandidate(env, s)
    ensures RunVerifier(env, s).s.served == s.served
  {
    var v := env.verify(s.verifierCalls);
    if v.Verdict? { ConcludeServesNothing(env, Examined(env, s, v.files, v.passed, v.category, v.reason), v); }
  }

  lemma ConcludeServesNothing(env: Env, s: State, v: VerifyAnswer)
    requires v.Verdict?
    ensures Conclude(env, s, v).s.served == s.served
  {
    if !v.passed {
      DiagnoseServesNothing(env, s, CategoryOf(v.category), NonRepairable(CategoryOf(v.category)),
                            StageFor(CategoryOf(v.category), v.gate), Evidence(v.prompt, RecentlyUnchanged(s.history)),
                            v.evidenceValid);
    }
  }

  lemma DiagnoseServesNothing(env: Env, s: State, category: string, hopeless: bool, stage: Stage, notice: Notice,
                              evidenceValid: bool)
    ensures Diagnose(env, s, category, hopeless, stage, notice, evidenceValid).s.served == s.served
  {
  }

  lemma {:induction false} LoopGenuine(env: Env, s: State, at: Origin)
    requires LoopInv(env, s, at) && AllGenuine(env, s.served)
    ensures AllGenuine(env, RunLoop(env, s, at).0.served)
    decreases Unspent(env, s), if s.guidance == None then 1 else 0, 3 - Min(Streak(s.history), 3)
  {
    IterateGood(env, s, at);
    BudgetBound(env, s);
    IterateGenuine(env, s);
    match Iterate(env, s)
    case Done(_, _) =>
    case Continue(s') => LoopGenuine(env, s', at);
  }

  lemma IterateGenuine(env: Env, s: State)
    requires s.guidance == None ==> FreshCandidate(env, s)
    requires AllGenuine(env, s.served) && s.turn == s.repairCalls
    ensures AllGenuine(env, Iterate(env, s).s.served)
  {
    match s.guidance
    case None => VerifierServesNothing(env, s);
    case Some(guidance) =>
      RepairTurnGenuine(env, s, guidance);
      match RepairTurn(env, s, guidance)
      case ToVerifier(s') => VerifierServesNothing(env, s');
      case Again(_) =>
      case Stop(_, _) =>
  }

  lemma RunGenuine(env: Env, at: Origin)
    ensures AllGenuine(env, Run(env, at).0.served)
  {
    var log := Log([], at.genesis, 0);
    PreludeGood(env, at, log);
    PreludeFresh(env, at, []);
    match Prelude(env, at.numPredict, at.workspace, log)
    case Done(_, _) =>
    case Continue(s) => LoopGenuine(env, s, at);
  }

  /** The record carries the text the model answered to the call of the record's turn. */
  ghost predicate OwnsRaw(env: Env, a: RepairRecord) {
    a.turn > 0 && env.repair(a.turn - 1).Response? && a.raw == Some(env.repair(a.turn - 1).raw)
  }

  ghost predicate OwnsAll(env: Env, attempts: seq<RepairRecord>) {
    forall j :: 0 <= j < |attempts| ==> OwnsRaw(env, attempts[j])
  }

  /** Of the first `n` responses, every one that the driver tried to write was written. */
  ghost predicate WrittenUpTo(env: Env, served: seq<Served>, n: nat) {
    n <= |served| && forall i :: 0 <= i < n && served[i].fate != NotWritten ==> env.write(served[i].turn).Written?
  }

  /** The model never answers two calls with one text. */
  ghost predicate NeverRepeats(env: Env) {
    forall m, n :: env.repair(m).Response? && env.repair(n).Response? && env.repair(m).raw == env.repair(n).raw ==> m == n
  }

  ghost predicate Prefixes(kept: seq<Served>, served: seq<Served>, n: nat) {
    n <= |kept| && n <= |served| && forall j :: 0 <= j < n ==> kept[j] == served[j]
  }

  /** The first `n` kept responses are the first `n` responses exactly when none of these is lost. */
  lemma KeptPrefix(served: seq<Served>, n: nat)
    requires n <= |Kept(served)| && n <= |served|
    ensures Prefixes(Kept(served), served, n) <==> NoneLost(served[..n])
  {
    if NoneLost(served[..n]) { NoneLostPrefix(served, n); }
    if Prefixes(Kept(served), served, n) {
      forall i | 0 <= i < n ensures served[..n][i].fate != Lost { KeptNotLost(served, i); }
    }
  }

  lemma NoneLostPrefix(served: seq<Served>, n: nat)
    requires n <= |Kept(served)| && n <= |served| && NoneLost(served[..n])
    ensures Prefixes(Kept(served), served, n)
  {
    var front := served[..n];
    NoneLostKeepsAll(front);
    KeptFront(served, n);
    assert Kept(served)[..n] == front;
    forall j | 0 <= j < n ensures Kept(served)[j] == served[j] { assert Kept(served)[..n][j] == front[j]; }
  }

  lemma {:induction false} KeptFront(served: seq<Served>, n: nat)
    requires n <= |served|
    ensures |Kept(served[..n])| <= |Kept(served)| && Kept(served)[..|Kept(served[..n])|] == Kept(served[..n])
  {
    if n == |served| {
      assert served[..n] == served;
      assert Kept(served)[..|Kept(served)|] == Kept(served);
    } else {
      var m := |served| - 1;
      assert served[..m][..n] == served[..n];
      KeptFront(served[..m], n);
      assert Kept(served[..m]) <= Kept(served);
    }
  }

  lemma {:induction false} KeptNotLost(served: seq<Served>, j: nat)
    requires j < |Kept(served)|
    ensures Kept(served)[j].fate != Lost
  {
    var n := |served| - 1;
    if j < |Kept(served[..n])| { KeptNotLost(served[..n], j); }
  }

  lemma {:induction false} KeptFrom(served: seq<Served>, j: nat) returns (i: nat)
    requires j < |Kept(served)|
    ensures i < |served| && served[i] == Kept(served)[j]
  {
    var n := |served| - 1;
    if j < |Kept(served[..n])| { i := KeptFrom(served[..n], j); } else { i := n; }
  }

  lemma NoneLostWritten(env: Env, served: seq<Served>, n: nat)
    requires n <= |served| && AllGenuine(env, served)
    ensures NoneLost(served[..n]) <==> WrittenUpTo(env, served, n)
  {
    if NoneLost(served[..n]) {
      forall i | 0 <= i < n && served[i].fate != NotWritten ensures env.write(served[i].turn).Written? {
        assert served[..n][i].fate != Lost && Genuine(env, served[i]);
      }
    } else {
      var i :| 0 <= i < n && served[..n][i].fate == Lost;
      assert Genuine(env, served[i]);
    }
  }

  /** A record's text is that of the response in the same place of the queue. */
  lemma RecordOwns(env: Env, attempts: seq<RepairRecord>, s: State, j: nat)
    requires Aligned(attempts, s) && Booked(s.served, s.rawRepairs) && AllGenuine(env, s.served) && j < |attempts|
    ensures j < |s.served| && j < |Kept(s.served)|
    ensures OwnsRaw(env, attempts[j]) <==> Kept(s.served)[j].raw == s.served[j].raw
  {
    KeptBounded(s.served);
    assert Tells(attempts[j], Kept(s.served)[..|attempts|][j]);
    var i := KeptFrom(s.served, j);
    assert Genuine(env, s.served[i]);
  }

  lemma SameRawSameEntry(env: Env, served: seq<Served>, bound: nat, j: nat)
    requires NeverRepeats(env) && AllGenuine(env, served) && Rising(served, bound)
    requires j < |Kept(served)| && j < |served| && Kept(served)[j].raw == served[j].raw
    ensures Kept(served)[j] == served[j]
  {
    var i := KeptFrom(served, j);
    assert Genuine(env, served[i]) && Genuine(env, served[j]);
    assert served[i].turn - 1 == served[j].turn - 1;
  }

  lemma OwnedExactly(env: Env, attempts: seq<RepairRecord>, s: State, bound: nat)
    requires Aligned(attempts, s) && Booked(s.served, s.rawRepairs) && AllGenuine(env, s.served) && Rising(s.served, bound)
    ensures Prefixes(Kept(s.served), s.served, |attempts|) ==> OwnsAll(env, attempts)
    ensures NeverRepeats(env) && OwnsAll(env, attempts) ==> Prefixes(Kept(s.served), s.served, |attempts|)
  {
    forall j | 0 <= j < |attempts|
      ensures OwnsRaw(env, attempts[j]) <==> Kept(s.served)[j].raw == s.served[j].raw
    {
      RecordOwns(env, attempts, s, j);
    }
    if NeverRepeats(env) && OwnsAll(env, attempts) {
      forall j | 0 <= j < |attempts| ensures Kept(s.served)[j] == s.served[j] {
        assert OwnsRaw(env, attempts[j]);
        SameRawSameEntry(env, s.served, bound, j);
      }
    }
  }

  /** Whether or not the files can be written: when the model never repeats a text, every record carries the
      answer to the call of its own turn exactly when every response the driver tried to write, among as many as
      there are records, was written. A response lost to a failed write leaves its text in the queue, and the
      records after it are all one late. */
  lemma RawsOwnedExactly(env: Env, at: Origin)
    ensures var attempts := Extracted(env, at).attempts; var served := Run(env, at).0.served;
      && (WrittenUpTo(env, served, |attempts|) ==> OwnsAll(env, attempts))
      && (NeverRepeats(env) ==> (OwnsAll(env, attempts) <==> WrittenUpTo(env, served, |attempts|)))
  {
    var s, attempts := Run(env, at).0, Extracted(env, at).attempts;
    TranscriptAligned(env, at);
    RunGenuine(env, at);
    RunRises(env, at);
    OwnedExactly(env, attempts, s, s.turn + 1);
    KeptBounded(s.served);
    KeptPrefix(s.served, |attempts|);
    NoneLostWritten(env, s.served, |attempts|);
  }

  lemma RunRises(env: Env, at: Origin)
    ensures var s := Run(env, at).0; Rising(s.served, s.turn + 1)
  {
    RunInStep(env, at, []);
  }

  /** As long as every repair file could be written, a run that does not raise leaves exactly one record per
      repair response, and the k-th record carries the k-th response: its turn, its guidance, its raw text. */
  lemma OneRecordPerResponse(env: Env, at: Origin)
    requires forall n :: env.write(n).Written?
    ensures OwnRecords(Extracted(env, at).attempts, Run(env, at).0.served)
    ensures Run(env, at).1 != Raised ==> |Extracted(env, at).attempts| == |Run(env, at).0.rawRepairs|
  {
    var s := Run(env, at).0;
    TranscriptAligned(env, at);
    RunGenuine(env, at);
    NoneLostGenuine(env, s.served);
    NoneLostKeepsAll(s.served);
    AlignedOwn(Extracted(env, at).attempts, s);
  }

  lemma NoneLostGenuine(env: Env, served: seq<Served>)
    requires AllGenuine(env, served) && forall n :: env.write(n).Written?
    ensures NoneLost(served)
  {
    forall j | 0 <= j < |served| ensures served[j].fate != Lost { assert Genuine(env, served[j]); }
  }

  /** Record k is about response k and carries its raw text. */
  ghost predicate OwnRecords(attempts: seq<RepairRecord>, served: seq<Served>) {
    |attempts| <= |served| &&
    forall j :: 0 <= j < |attempts| ==> Tells(attempts[j], served[j]) && attempts[j].raw == Some(served[j].raw)
  }

  lemma AlignedOwn(attempts: seq<RepairRecord>, s: State)
    requires Aligned(attempts, s) && Booked(s.served, s.rawRepairs) && Kept(s.served) == s.served
    ensures OwnRecords(attempts, s.served)
  {
    forall j | 0 <= j < |attempts| ensures Tells(attempts[j], s.served[j]) && attempts[j].raw == Some(s.served[j].raw) {
      assert Tells(attempts[j], Kept(s.served)[..|attempts|][j]);
    }
  }
}
