/** Whole runs of the pipeline: the loop invariant, termination, and what every run guarantees. */
module RepairRun {
  import opened Options
  import opened TraceLog
  import opened Workspace
  import opened RepairSpec

  // ---------------------------------------------------------------- budgets

  function Max(a: int, b: int): int { if a < b then b else a }
  function Min(a: int, b: int): int { if a < b then a else b }

  function TotalUsed(spent: map<Stage, nat>): nat {
    Used(spent, Compile) + Used(spent, Simulation) + Used(spent, Formal) + Used(spent, Timing) + Used(spent, Other)
  }

  function TotalSpent(s: State): nat { TotalUsed(s.spent) }

  function TotalLimit(env: Env): nat { 9 + 2 * Max(env.maxRepairs, 0) }

  function MaxRepairCalls(env: Env): nat { 33 + 6 * Max(env.maxRepairs, 0) }

  function MaxVerifierCalls(env: Env): nat { 10 + 2 * Max(env.maxRepairs, 0) }

  /** How many entries at the end of the history are call failures. */
  function Streak(history: seq<string>): nat {
    if history == [] || history[|history| - 1] != CALL_FAILURE then 0 else 1 + Streak(history[..|history| - 1])
  }

  ghost predicate WithinLimits(env: Env, spent: map<Stage, nat>) {
    forall k :: Used(spent, k) <= Max(Limit(env, k), 0)
  }

  ghost predicate WithinBudgets(env: Env, s: State) {
    WithinLimits(env, s.spent) && s.parseAttempts <= PARSE_MAX_ATTEMPTS
  }

  /** Turns that moved a budget, and hence pay for the call failures before them. */
  function Productive(s: State): nat { TotalSpent(s) + s.parseAttempts }

  ghost predicate CallsPaid(s: State) {
    s.repairCalls <= 3 * Productive(s) + Min(Streak(s.history), 2)
  }

  /** Where a run started from: the workspace when the snapshot was taken, the completion budget, and
      the digest the trail was opened with. */
  datatype Origin = Origin(workspace: Tree, numPredict: int, genesis: Digest)

  /** A completion budget that is not negative only grows, and not past the larger of its start and the cap. */
  ghost predicate CompletionBounded(s: State, at: Origin) {
    at.numPredict >= 0 ==> at.numPredict <= s.numPredict <= Max(at.numPredict, PARSE_NUM_PREDICT_CAP)
  }

  /** What the loop head always satisfies. */
  ghost predicate LoopInv(env: Env, s: State, at: Origin) {
    && WithinBudgets(env, s)
    && CallsPaid(s)
    && s.repairCalls <= MaxRepairCalls(env)
    && Audited(env, s, at.genesis)
    && s.turn == s.repairCalls
    && (s.parseAttempts == PARSE_MAX_ATTEMPTS ==> s.repairCalls == 0 && s.lastFailureWasParse && s.guidance.Some?)
    && (s.guidance == None ==> FreshCandidate(env, s) && s.verifierCalls == 0 && s.repairCalls == 0 && TotalSpent(s) == 0)
    && s.verifierCalls <= TotalSpent(s) + 1
    && s.snapshot == Some(Outside(at.workspace))
    && CompletionBounded(s, at)
  }

  lemma {:induction false} StreakEnds(history: seq<string>)
    ensures EndsWithFailures(history) <==> Streak(history) >= 3
  {
    var n := |history|;
    if n == 0 || history[n - 1] != CALL_FAILURE { return; }
    var h1 := history[..n - 1];
    assert Streak(history) == 1 + Streak(h1);
    if n == 1 || h1[n - 2] != CALL_FAILURE { return; }
    var h2 := h1[..n - 2];
    assert Streak(h1) == 1 + Streak(h2);
    if n == 2 || h2[n - 3] != CALL_FAILURE { return; }
    assert history[n - 3..] == [history[n - 3], history[n - 2], history[n - 1]];
  }

  lemma StreakGrows(history: seq<string>, what: string)
    ensures Streak(history + [what]) == if what == CALL_FAILURE then Streak(history) + 1 else 0
  {
    assert (history + [what])[..|history|] == history;
  }

  lemma SpentAfter(s: State, k: Stage, j: Stage)
    ensures Spent(Spend(s, k), j) == Spent(s, j) + if j == k then 1 else 0
  {
  }

  lemma SpendTotals(s: State, k: Stage)
    ensures TotalSpent(Spend(s, k)) == TotalSpent(s) + 1
    ensures forall j :: Spent(Spend(s, k), j) == Spent(s, j) + if j == k then 1 else 0
  {
    forall j ensures Spent(Spend(s, k), j) == Spent(s, j) + if j == k then 1 else 0 { SpentAfter(s, k, j); }
    AddsOne(s, Spend(s, k), k);
  }

  lemma AddsOne(s: State, t: State, k: Stage)
    requires forall j :: Spent(t, j) == Spent(s, j) + if j == k then 1 else 0
    ensures TotalSpent(t) == TotalSpent(s) + 1
  {
    assert Spent(t, Compile) == Spent(s, Compile) + if k == Compile then 1 else 0;
    assert Spent(t, Simulation) == Spent(s, Simulation) + if k == Simulation then 1 else 0;
    assert Spent(t, Formal) == Spent(s, Formal) + if k == Formal then 1 else 0;
    assert Spent(t, Timing) == Spent(s, Timing) + if k == Timing then 1 else 0;
    assert Spent(t, Other) == Spent(s, Other) + if k == Other then 1 else 0;
  }

  lemma BudgetBound(env: Env, s: State)
    requires WithinLimits(env, s.spent)
    ensures TotalSpent(s) <= TotalLimit(env)
  {
    assert Used(s.spent, Compile) <= 3 && Used(s.spent, Simulation) <= 3 && Used(s.spent, Formal) <= 3;
    assert Used(s.spent, Timing) <= Max(env.maxRepairs, 0) && Used(s.spent, Other) <= Max(env.maxRepairs, 0);
  }

  /** A stage with room left keeps the total one short of the limit. */
  lemma RoomLeft(env: Env, s: State, k: Stage)
    requires WithinLimits(env, s.spent) && Spent(s, k) + 1 <= Limit(env, k)
    ensures TotalSpent(s) < TotalLimit(env)
    ensures WithinLimits(env, Spend(s, k).spent)
  {
    SpendTotals(s, k);
    BudgetBound(env, Spend(s, k));
  }

  // ---------------------------------------------------------------- how a run ends

  ghost predicate Ended(env: Env, s: State, result: Result, at: Origin) {
    && WithinBudgets(env, s)
    && s.repairCalls <= MaxRepairCalls(env)
    && s.verifierCalls <= MaxVerifierCalls(env)
    && Audited(env, s, at.genesis) && CompletionBounded(s, at)
    && (result == Failure ==> Outside(s.workspace) == Outside(at.workspace))
    && (result == Success ==> AcceptedOn(env, s))
  }

  /** The trail ends with a written candidate, a pass of the verifier, and the closing entries. */
  ghost predicate PassedLast(records: seq<TraceRecord<Payload>>) {
    var n := |records|;
    && n >= 4
    && records[n - 4].event.phase == Execute && records[n - 4].event.payload.Wrote?
    && records[n - 4].event.payload.role in {Designer, Repairer}
    && records[n - 3].event.phase == Verify && records[n - 3].event.payload.Checked?
    && records[n - 3].event.payload.passed
    && records[n - 2].event.phase == RepairOrFinish && records[n - 1].event.phase == Trace
  }

  /** A verifier run that did not touch the RTL file. */
  predicate LeavesRtl(env: Env, before: Tree, after: Tree) {
    RtlFile(env) in before && RtlFile(env) in after && after[RtlFile(env)] == before[RtlFile(env)]
  }

  /** The last verifier run passed. It was given a workspace that holds `code`, and outside the driver's directory
      the workspace is what it left; so the workspace holds `code` exactly when that run left the RTL file alone. */
  ghost predicate PassedOn(env: Env, s: State, code: string) {
    && s.verifierCalls >= 1
    && var answer := env.verify(s.verifierCalls - 1);
       && answer.Verdict? && answer.passed && Outside(s.workspace) == Outside(answer.files)
       && Holds(env, s.given, code)
       && (Holds(env, s.workspace, code) <==> LeavesRtl(env, s.given, answer.files))
  }

  /** Success: the model's last written candidate is what the verifier was given and passed. */
  ghost predicate AcceptedOn(env: Env, s: State) {
    PassedLast(s.log.records) &&
    var code := s.log.records[|s.log.records| - 4].event.payload.content;
    FromModel(env, s, code) && PassedOn(env, s, code)
  }

  lemma RollbackEnds(env: Env, s: State, status: Status, category: Option<string>, at: Origin)
    requires WithinBudgets(env, s)
    requires s.repairCalls <= MaxRepairCalls(env)
    requires s.verifierCalls <= MaxVerifierCalls(env)
    requires s.snapshot == Some(Outside(at.workspace)) && Audited(env, s, at.genesis) && CompletionBounded(s, at)
    ensures Ended(env, Rollback(env, s, status, category).s, Failure, at)
  {
    RollbackUndoes(at.workspace, s.workspace);
    var r := Rollback(env, s, status, category).s;
  }

  // ---------------------------------------------------------------- one turn keeps the invariant

  /** What holds when a repair turn hands over to the verifier: the loop invariant, except that the turn
      has already paid for the run. */
  ghost predicate ReadyInv(env: Env, s: State, at: Origin) {
    && WithinBudgets(env, s)
    && s.repairCalls <= 3 * Productive(s)
    && s.turn == s.repairCalls
    && s.parseAttempts < PARSE_MAX_ATTEMPTS
    && Audited(env, s, at.genesis)
    && s.verifierCalls <= TotalSpent(s)
    && s.repairCalls <= MaxRepairCalls(env)
    && s.snapshot == Some(Outside(at.workspace))
    && CompletionBounded(s, at)
  }

  /** The termination order of the loop: unspent budgets first, then whether the first verification is
      still to come, then the call failures still tolerated. */
  function Unspent(env: Env, s: State): int { TotalLimit(env) + PARSE_MAX_ATTEMPTS - Productive(s) }

  ghost predicate Smaller(env: Env, after: State, before: State) {
    || Unspent(env, after) < Unspent(env, before)
    || (Unspent(env, after) == Unspent(env, before) && after.guidance.Some? && before.guidance.None?)
    || (Unspent(env, after) == Unspent(env, before) && after.guidance.Some? == before.guidance.Some? &&
        Min(Streak(after.history), 3) > Min(Streak(before.history), 3))
  }

  ghost predicate GoodFlow(env: Env, before: State, f: Flow, at: Origin) {
    match f
    case ToVerifier(s) => ReadyInv(env, s, at) && Unspent(env, s) < Unspent(env, before)
    case Again(s) => LoopInv(env, s, at) && s.guidance.Some? && Smaller(env, s, before)
    case Stop(s, result) => result == Failure && Ended(env, s, result, at)
  }

  /** A turn in progress: the call is made, the response is in, and no budget has moved yet. */
  ghost predicate MidTurn(env: Env, before: State, s: State, at: Origin) {
    && LoopInv(env, before, at) && before.guidance.Some?
    && before.parseAttempts < PARSE_MAX_ATTEMPTS && Spent(before, before.pending) + 1 <= Limit(env, before.pending)
    && s.spent == before.spent && s.parseAttempts == before.parseAttempts && s.history == before.history
    && s.repairCalls == before.repairCalls + 1 && s.turn == s.repairCalls
    && s.verifierCalls == before.verifierCalls && s.pending == before.pending
    && s.snapshot == before.snapshot && s.numPredict == before.numPredict
    && s.guidance.Some? && Audited(env, s, at.genesis)
  }

  lemma MidTurnBounds(env: Env, before: State, s: State, at: Origin)
    requires MidTurn(env, before, s, at)
    ensures s.repairCalls <= MaxRepairCalls(env)
    ensures s.verifierCalls <= MaxVerifierCalls(env)
    ensures s.repairCalls <= 3 * Productive(before) + 3
    ensures WithinBudgets(env, s)
    ensures TotalSpent(s) == TotalSpent(before) < TotalLimit(env)
  {
    RoomLeft(env, before, before.pending);
  }

  lemma ChargeParseKeeps(env: Env, s: State, error: string)
    ensures var f := ChargeParse(env, s, error);
      && f.spent == s.spent && f.parseAttempts == s.parseAttempts + 1 && Streak(f.history) == 0
      && f.repairCalls == s.repairCalls && f.turn == s.turn && f.verifierCalls == s.verifierCalls
      && f.snapshot == s.snapshot && f.numPredict == s.numPredict && f.guidance == s.guidance
      && forall genesis :: Chained(env.recorder.h, s.log, genesis) ==> Chained(env.recorder.h, f.log, genesis)
  {
    StreakGrows(s.history, PARSE_FAILURE);
  }

  lemma ParseFailedGood(env: Env, before: State, s: State, error: string, at: Origin)
    requires MidTurn(env, before, s, at)
    ensures GoodFlow(env, before, ParseFailed(env, s, error), at)
  {
    MidTurnBounds(env, before, s, at);
    var failed := ChargeParse(env, s, error);
    ChargeParseKeeps(env, s, error);
    if ParseBudgetGone(failed) {
      RollbackEnds(env, failed, RolledBack, Some(PARSE_FAILURE), at);
    } else {
      RetryParseGood(env, before, failed, error, at);
    }
  }

  lemma RetryParseGood(env: Env, before: State, failed: State, error: string, at: Origin)
    requires before.guidance.Some? && LoopInv(env, before, at)
    requires WithinBudgets(env, failed) && failed.parseAttempts == before.parseAttempts + 1 < PARSE_MAX_ATTEMPTS
    requires failed.spent == before.spent
    requires failed.repairCalls <= 3 * Productive(failed) && failed.repairCalls <= MaxRepairCalls(env)
    requires failed.turn == failed.repairCalls && failed.verifierCalls == before.verifierCalls
    requires failed.snapshot == before.snapshot && failed.numPredict == before.numPredict && Audited(env, failed, at.genesis)
    ensures GoodFlow(env, before, Again(RetryParse(env, Bump(failed), error)), at)
  {
  }

  /** A state in which the turn has paid its stage budget. */
  ghost predicate Paid(env: Env, before: State, s: State, at: Origin) {
    && LoopInv(env, before, at) && before.guidance.Some?
    && before.parseAttempts < PARSE_MAX_ATTEMPTS && Spent(before, before.pending) + 1 <= Limit(env, before.pending)
    && s.spent == Spend(before, before.pending).spent && s.parseAttempts == before.parseAttempts
    && s.repairCalls == before.repairCalls + 1 && s.turn == s.repairCalls
    && s.verifierCalls == before.verifierCalls && s.pending == before.pending
    && s.snapshot == before.snapshot && s.numPredict == before.numPredict
    && s.guidance.Some? && Audited(env, s, at.genesis)
  }

  lemma PaidBounds(env: Env, before: State, s: State, at: Origin)
    requires Paid(env, before, s, at)
    ensures WithinBudgets(env, s) && s.repairCalls <= 3 * Productive(s)
    ensures TotalSpent(s) == TotalSpent(before) + 1 && Unspent(env, s) < Unspent(env, before)
    ensures s.repairCalls <= MaxRepairCalls(env)
    ensures s.verifierCalls <= TotalSpent(s) && s.verifierCalls <= MaxVerifierCalls(env)
  {
    RoomLeft(env, before, before.pending);
    SpendTotals(before, before.pending);
  }

  lemma PaidContinues(env: Env, before: State, s: State, at: Origin)
    requires Paid(env, before, s, at)
    ensures GoodFlow(env, before, Again(s), at)
  {
    PaidBounds(env, before, s, at);
  }

  lemma SkipGood(env: Env, before: State, s: State, guidance: string, at: Origin)
    requires Paid(env, before, s, at)
    ensures GoodFlow(env, before, Skip(env, s, guidance), at)
  {
    PaidBounds(env, before, s, at);
    var seen := EmitCheck(env, Remember(s, UNCHANGED), "REPAIR_UNCHANGED_CANDIDATE", "unchanged");
    assert Paid(env, before, seen, at);
    PaidBounds(env, before, seen, at);
    if Spent(seen, seen.pending) >= Limit(env, seen.pending) || ParseBudgetGone(seen) {
      RollbackEnds(env, seen, RolledBack, Some("REPAIR_UNCHANGED_CANDIDATE"), at);
    } else {
      PaidContinues(env, before, seen.(guidance := Some(env.say(Unchanged(guidance)))), at);
    }
  }

  lemma WriteGood(env: Env, before: State, s: State, code: string, at: Origin)
    requires Paid(env, before, s, at)
    ensures GoodFlow(env, before, RepairSpec.Write(env, s, code), at)
  {
    match env.write(s.repairCalls)
    case WriteFailed(exc, left) =>
      MissedKeepsPaid(env, before, s, exc, left, at);
      PaidContinues(env, before, Missed(env, s, exc, left), at);
    case Written(record) =>
      PaidBounds(env, before, s, at);
      AppliedKeeps(env, s, code, record);
      AppliedGood(env, before, s, Applied(env, s, code, record), at);
  }

  lemma MissedKeepsPaid(env: Env, before: State, s: State, exc: string, left: Option<string>, at: Origin)
    requires Paid(env, before, s, at)
    ensures Paid(env, before, Missed(env, s, exc, left), at)
  {
    MarkOnlyServed(s, Lost);
    PaidStays(env, before, s, Missed(env, s, exc, left), at);
  }

  lemma MarkOnlyServed(s: State, fate: Fate)
    ensures Mark(s, fate) == s.(served := Mark(s, fate).served)
  {
  }

  lemma PaidStays(env: Env, before: State, s: State, t: State, at: Origin)
    requires Paid(env, before, s, at) && t.guidance.Some?
    requires t == s.(history := t.history, guidance := t.guidance, served := t.served, workspace := t.workspace)
    ensures Paid(env, before, t, at)
  {
  }

  lemma AppliedGood(env: Env, before: State, s: State, w: State, at: Origin)
    requires Paid(env, before, s, at) && WithinBudgets(env, s) && s.repairCalls <= 3 * Productive(s)
    requires Unspent(env, s) < Unspent(env, before) && s.repairCalls <= MaxRepairCalls(env) && s.verifierCalls <= TotalSpent(s)
    requires w.spent == s.spent && w.parseAttempts == s.parseAttempts && w.repairCalls == s.repairCalls
    requires w.turn == s.turn && w.verifierCalls == s.verifierCalls && w.snapshot == s.snapshot && w.numPredict == s.numPredict
    requires Audited(env, w, at.genesis)
    ensures GoodFlow(env, before, ToVerifier(w), at)
  {
  }

  lemma AppliedKeeps(env: Env, s: State, code: string, record: string)
    ensures var w := Applied(env, s, code, record);
      && w.guidance == None
      && w.spent == s.spent && w.parseAttempts == s.parseAttempts && w.history == s.history
      && w.repairCalls == s.repairCalls && w.turn == s.turn && w.verifierCalls == s.verifierCalls
      && w.snapshot == s.snapshot && w.numPredict == s.numPredict
      && forall genesis :: Chained(env.recorder.h, s.log, genesis) ==> Chained(env.recorder.h, w.log, genesis)
  {
  }

  lemma PayKeeps(s: State, same: bool)
    ensures var p := Pay(s, same);
      && p.spent == Spend(s, s.pending).spent && p.parseAttempts == s.parseAttempts
      && p.repairCalls == s.repairCalls && p.turn == s.turn && p.verifierCalls == s.verifierCalls
      && p.pending == s.pending && p.snapshot == s.snapshot && p.numPredict == s.numPredict
      && p.guidance == s.guidance && p.log == s.log
  {
  }

  lemma JudgeGood(env: Env, before: State, s: State, guidance: string, code: string, same: bool, skip: bool, large: bool,
                  at: Origin)
    requires MidTurn(env, before, s, at)
    ensures GoodFlow(env, before, Judge(env, s, guidance, code, same, skip, large), at)
  {
    var paid := Pay(s, same);
    PayKeeps(s, same);
    assert Paid(env, before, paid, at);
    if skip {
      SkipGood(env, before, paid, guidance, at);
    } else if large {
      PaidContinues(env, before, Judge(env, s, guidance, code, same, skip, large).s, at);
    } else {
      WriteGood(env, before, paid, code, at);
    }
  }

  lemma CallModelGood(env: Env, before: State, guidance: string, at: Origin)
    requires LoopInv(env, before, at) && before.guidance == Some(guidance)
    requires before.parseAttempts < PARSE_MAX_ATTEMPTS && Spent(before, before.pending) + 1 <= Limit(env, before.pending)
    ensures GoodFlow(env, before, CallModel(env, before, guidance), at)
  {
    var asked := Ask(env, before, guidance);
    match env.repair(before.repairCalls)
    case CallFailed(exc) => CallLostGood(env, before, asked, exc, at);
    case Response(raw, truncated) =>
      ReactGood(env, before, Hear(asked, guidance, raw, truncated), guidance, CurrentRtl(env, before), raw, at);
  }

  lemma ReactGood(env: Env, before: State, s: State, guidance: string, current: string, raw: string, at: Origin)
    requires MidTurn(env, before, s, at)
    ensures GoodFlow(env, before, React(env, s, guidance, current, raw), at)
  {
    match env.parse(raw, Context(env, current))
    case Unparseable(error) => ParseFailedGood(env, before, s, error, at);
    case Parsed(code) =>
      JudgeGood(env, before, s, guidance, code, SameCandidate(current, code), Skips(env, current, code),
                TooLarge(env, current, code), at);
  }

  lemma CallLostGood(env: Env, before: State, asked: State, exc: string, at: Origin)
    requires MidTurn(env, before, asked, at)
    ensures GoodFlow(env, before, CallLost(env, asked, exc), at)
  {
    MidTurnBounds(env, before, asked, at);
    var failed := Remember(asked, CALL_FAILURE);
    StreakGrows(asked.history, CALL_FAILURE);
    StreakEnds(failed.history);
    if EndsWithFailures(failed.history) {
      RollbackEnds(env, failed, RolledBack, Some("MODEL_CALL_FAILURE"), at);
    }
  }

  lemma RepairTurnGood(env: Env, before: State, guidance: string, at: Origin)
    requires LoopInv(env, before, at) && before.guidance == Some(guidance)
    ensures GoodFlow(env, before, RepairTurn(env, before, guidance), at)
  {
    BudgetBound(env, before);
    if ParseBudgetGone(before) {
      RollbackEnds(env, before, RolledBack, Some(PARSE_FAILURE), at);
    } else if Spent(before, before.pending) + 1 > Limit(env, before.pending) {
      RollbackEnds(env, before, RolledBack, None, at);
    } else {
      CallModelGood(env, before, guidance, at);
    }
  }

  // ---------------------------------------------------------------- one verifier run

  ghost predicate GoodOutcome(env: Env, before: State, o: Outcome, at: Origin) {
    match o
    case Continue(s) => LoopInv(env, s, at) && s.guidance.Some? && Smaller(env, s, before)
    case Done(s, result) => Ended(env, s, result, at)
  }

  lemma DiagnoseGood(env: Env, before: State, s: State, category: string, hopeless: bool, stage: Stage, notice: Notice,
                     evidenceValid: bool, at: Origin)
    requires WithinBudgets(env, s) && s.repairCalls <= 3 * Productive(s) && s.turn == s.repairCalls
    requires s.parseAttempts < PARSE_MAX_ATTEMPTS
    requires s.verifierCalls <= TotalSpent(s) + 1 && s.repairCalls <= MaxRepairCalls(env)
    requires s.snapshot == Some(Outside(at.workspace)) && Audited(env, s, at.genesis)
    requires CompletionBounded(s, at)
    requires Unspent(env, s) < Unspent(env, before) || (Unspent(env, s) == Unspent(env, before) && before.guidance == None)
    ensures GoodOutcome(env, before, Diagnose(env, s, category, hopeless, stage, notice, evidenceValid), at)
  {
    BudgetBound(env, s);
    if hopeless {
      RollbackEnds(env, s, AbortedNonRepairable, Some(category), at);
    } else if Spent(s, stage) >= Limit(env, stage) {
      RollbackEnds(env, s, RolledBack, Some(category), at);
    } else {
      StreakGrows(s.history, category);
    }
  }

  lemma RunVerifierGood(env: Env, before: State, s: State, at: Origin)
    requires ReadyInv(env, s, at) && FreshCandidate(env, s)
    requires Unspent(env, s) < Unspent(env, before) || (s == before && before.guidance == None)
    ensures GoodOutcome(env, before, RunVerifier(env, s), at)
  {
    var v := env.verify(s.verifierCalls);
    if v.Crashed? { BudgetBound(env, s); }
    else if v.passed { PassGood(env, before, s, v, at); }
    else { FailGood(env, before, s, v, at); }
  }

  lemma PassGood(env: Env, before: State, s: State, v: VerifyAnswer, at: Origin)
    requires ReadyInv(env, s, at) && FreshCandidate(env, s) && env.verify(s.verifierCalls) == v && v.Verdict? && v.passed
    ensures GoodOutcome(env, before, Conclude(env, Examined(env, s, v.files, v.passed, v.category, v.reason), v), at)
  {
    var checked := Examined(env, s, v.files, true, v.category, v.reason);
    var end := Accept(env, checked, v.silicon).s;
    AcceptGood(env, s, v.files, v.category, v.reason, v.silicon);
    AcceptKeeps(env, s, v.files, v.category, v.reason, v.silicon);
    PassedEnds(env, s, end, at);
    assert Conclude(env, checked, v) == Done(end, Success);
  }

  lemma PassedEnds(env: Env, s: State, end: State, at: Origin)
    requires ReadyInv(env, s, at) && AcceptedOn(env, end)
    requires end.spent == s.spent && end.repairCalls == s.repairCalls && end.verifierCalls == s.verifierCalls + 1
    requires end.parseAttempts == s.parseAttempts && end.numPredict == s.numPredict
    requires forall genesis :: Chained(env.recorder.h, s.log, genesis) ==> Chained(env.recorder.h, end.log, genesis)
    ensures Ended(env, end, Success, at)
  {
    BudgetBound(env, s);
  }

  lemma FailGood(env: Env, before: State, s: State, v: VerifyAnswer, at: Origin)
    requires ReadyInv(env, s, at) && v.Verdict? && !v.passed
    requires Unspent(env, s) < Unspent(env, before) || (s == before && before.guidance == None)
    ensures GoodOutcome(env, before, Conclude(env, Examined(env, s, v.files, v.passed, v.category, v.reason), v), at)
  {
    var checked := Examined(env, s, v.files, false, v.category, v.reason);
    ExaminedKeeps(env, s, v.files, false, v.category, v.reason);
    DiagnoseGood(env, before, checked, CategoryOf(v.category), NonRepairable(CategoryOf(v.category)),
                 StageFor(CategoryOf(v.category), v.gate), Evidence(v.prompt, RecentlyUnchanged(checked.history)),
                 v.evidenceValid, at);
  }

  lemma ExaminedKeeps(env: Env, s: State, files: Tree, passed: bool, category: Option<string>, reason: Option<string>)
    ensures var c := Examined(env, s, files, passed, category, reason);
      && c.spent == s.spent && c.parseAttempts == s.parseAttempts && c.history == s.history
      && c.repairCalls == s.repairCalls && c.turn == s.turn && c.verifierCalls == s.verifierCalls + 1
      && c.snapshot == s.snapshot && c.numPredict == s.numPredict
      && forall genesis :: Chained(env.recorder.h, s.log, genesis) ==> Chained(env.recorder.h, c.log, genesis)
  {
  }

  lemma AcceptGood(env: Env, s: State, files: Tree, category: Option<string>, reason: Option<string>, silicon: bool)
    requires FreshCandidate(env, s)
    requires env.verify(s.verifierCalls).Verdict? && env.verify(s.verifierCalls).passed
    requires env.verify(s.verifierCalls).files == files
    ensures var o := Accept(env, Examined(env, s, files, true, category, reason), silicon);
      o == Done(o.s, Success) && AcceptedOn(env, o.s)
  {
    var code :| OnDisk(env, s, code) && FromModel(env, s, code);
    var end := Accept(env, Examined(env, s, files, true, category, reason), silicon).s;
    AcceptRecords(env, s, files, category, reason, silicon, code);
    AcceptWorkspace(env, s, files, end, code);
    var raw, current :| Offers(env, s, raw, current, code);
    assert Offers(env, end, raw, current, code);
  }

  lemma AcceptRecords(env: Env, s: State, files: Tree, category: Option<string>, reason: Option<string>, silicon: bool,
                      code: string)
    requires OnDisk(env, s, code)
    ensures var records := Accept(env, Examined(env, s, files, true, category, reason), silicon).s.log.records;
      PassedLast(records) && records[|records| - 4].event.payload.content == code
  {
    var n := |s.log.records|;
    assert Examined(env, s, files, true, category, reason).log.records[n - 1] == s.log.records[n - 1];
  }

  lemma AcceptWorkspace(env: Env, s: State, files: Tree, end: State, code: string)
    requires Holds(env, s.workspace, code)
    requires env.verify(s.verifierCalls).Verdict? && env.verify(s.verifierCalls).passed
    requires env.verify(s.verifierCalls).files == files
    requires end.verifierCalls == s.verifierCalls + 1 && end.given == s.workspace
    requires end.workspace == Restored(s.workspace, Outside(files))
    ensures PassedOn(env, end, code)
  {
    RollbackUndoes(files, s.workspace);
    RtlIsOutside(env);
    assert RtlFile(env) in end.workspace <==> RtlFile(env) in files;
  }

  lemma RtlIsOutside(env: Env)
    ensures RtlFile(env) != MIND
  {
    var file := RtlFile(env);
    assert file[|file| - 1] == 'v' && MIND[4] == 'd';
  }

  lemma AcceptKeeps(env: Env, s: State, files: Tree, category: Option<string>, reason: Option<string>, silicon: bool)
    ensures var e := Accept(env, Examined(env, s, files, true, category, reason), silicon).s;
      && e.spent == s.spent && e.repairCalls == s.repairCalls
      && e.verifierCalls == s.verifierCalls + 1 && e.parseAttempts == s.parseAttempts
      && e.numPredict == s.numPredict
      && forall genesis :: Chained(env.recorder.h, s.log, genesis) ==> Chained(env.recorder.h, e.log, genesis)
  {
  }

  lemma IterateGood(env: Env, s: State, at: Origin)
    requires LoopInv(env, s, at)
    ensures GoodOutcome(env, s, Iterate(env, s), at)
  {
    match s.guidance
    case None => RunVerifierGood(env, s, s, at);
    case Some(guidance) =>
      RepairTurnGood(env, s, guidance, at);
      match RepairTurn(env, s, guidance)
      case ToVerifier(s') => RunVerifierGood(env, s, s', at);
      case Again(_) =>
      case Stop(_, _) =>
  }

  // ---------------------------------------------------------------- before the loop

  /** What every state before the loop satisfies: nothing spent yet, snapshot taken. */
  ghost predicate EarlyInv(env: Env, s: State, at: Origin) {
    && TotalSpent(s) == 0 && WithinLimits(env, s.spent)
    && s.repairCalls == 0 && s.turn == 0 && s.verifierCalls == 0 && s.history == []
    && s.guidance == None && s.snapshot == Some(Outside(at.workspace))
    && s.parseAttempts <= PARSE_MAX_ATTEMPTS
    && Audited(env, s, at.genesis)
    && CompletionBounded(s, at)
  }

  ghost predicate EarlyOutcome(env: Env, o: Outcome, at: Origin) {
    match o
    case Continue(s) => EarlyInv(env, s, at)
    case Done(s, result) => result != Success && Ended(env, s, result, at)
  }

  lemma BeginGood(env: Env, at: Origin, log: Log<Payload>)
    requires Chained(env.recorder.h, log, at.genesis)
    ensures EarlyInv(env, Begin(env, at.numPredict, at.workspace, log), at)
    ensures Begin(env, at.numPredict, at.workspace, log).parseAttempts == 0
  {
  }

  lemma EarlyRollback(env: Env, s: State, status: Status, category: Option<string>, at: Origin)
    requires EarlyInv(env, s, at)
    ensures EarlyOutcome(env, Rollback(env, s, status, category), at)
  {
    RollbackEnds(env, s, status, category, at);
  }

  lemma EarlyCheck(env: Env, s: State, category: string, reason: string, at: Origin)
    requires EarlyInv(env, s, at)
    ensures EarlyInv(env, EmitCheck(env, s, category, reason), at)
  {
  }

  lemma RejectContractGood(env: Env, s: State, violations: string, at: Origin)
    requires EarlyInv(env, s, at)
    ensures EarlyOutcome(env, RejectContract(env, s, violations), at)
    ensures RejectContract(env, s, violations).s.parseAttempts == s.parseAttempts
  {
    EarlyCheck(env, s, "SPECIFICATION_ERROR", violations, at);
    EarlyRollback(env, EmitCheck(env, s, "SPECIFICATION_ERROR", violations), AbortedNonRepairable,
                  Some("SPECIFICATION_ERROR"), at);
  }

  lemma EarlyTrace(env: Env, s: State, phase: Phase, payload: Payload, at: Origin)
    requires EarlyInv(env, s, at)
    ensures EarlyInv(env, EmitTrace(env, s, phase, payload), at)
    ensures EmitTrace(env, s, phase, payload).parseAttempts == s.parseAttempts
  {
  }

  lemma OutOfAttempts(env: Env, s: State, at: Origin)
    requires EarlyInv(env, s, at)
    ensures EarlyOutcome(env, Done(Restore(s), Failure), at) && Restore(s).parseAttempts == s.parseAttempts
  {
    RollbackUndoes(at.workspace, s.workspace);
  }

  lemma AskArchitectGood(env: Env, s: State, attempt: nat, at: Origin)
    requires EarlyInv(env, s, at)
    ensures var a := AskArchitect(env, s, attempt);
      match a
      case Retry(r) => EarlyInv(env, r, at) && r.parseAttempts == s.parseAttempts
      case Settled(o) => EarlyOutcome(env, o, at) && o.s.parseAttempts == s.parseAttempts
  {
    var asked := EmitTrace(env, s, ModelCall, Note("contract_synthesis"));
    EarlyTrace(env, s, ModelCall, Note("contract_synthesis"), at);
    match env.architect(attempt)
    case Rejected(exc) => EarlyTrace(env, asked, Parse, ArchitectResult(Some(exc)), at);
    case Inconsistent(violations) =>
      if attempt == 0 {
        EarlyTrace(env, asked, Parse, ArchitectResult(Some(violations)), at);
      } else {
        EarlyTrace(env, asked, Parse, ArchitectResult(None), at);
        RejectContractGood(env, EmitTrace(env, asked, Parse, ArchitectResult(None)), violations, at);
      }
    case Accepted => EarlyTrace(env, asked, Parse, ArchitectResult(None), at);
  }

  lemma AgreeContractGood(env: Env, s: State, at: Origin)
    requires EarlyInv(env, s, at)
    ensures EarlyOutcome(env, AgreeContract(env, s), at)
    ensures AgreeContract(env, s).s.parseAttempts == s.parseAttempts
  {
    if env.contractGiven {
      EarlyTrace(env, s, Parse, ArchitectResult(None), at);
    } else {
      AskArchitectGood(env, s, 0, at);
      var first := AskArchitect(env, s, 0);
      if first.Retry? {
        AskArchitectGood(env, first.s, 1, at);
        var second := AskArchitect(env, first.s, 1);
        if second.Retry? { OutOfAttempts(env, second.s, at); }
      }
    }
  }

  lemma StageHarnessGood(env: Env, s: State, at: Origin)
    requires EarlyInv(env, s, at)
    ensures EarlyOutcome(env, StageHarness(env, s), at)
    ensures StageHarness(env, s).s.parseAttempts == s.parseAttempts
  {
    match env.harness
    case UnverifiableProperty(exc) => NoHarnessGood(env, s, "UNSUPPORTED_FORMAL_PROPERTY", exc, at);
    case VacuousProperties(exc) => NoHarnessGood(env, s, "NO_GENUINE_PROPERTY", exc, at);
    case HarnessBuilt => if env.staging.AllStaged? { StagedGood(env, s, at); }
  }

  lemma NoHarnessGood(env: Env, s: State, category: string, exc: string, at: Origin)
    requires EarlyInv(env, s, at)
    ensures var o := Rollback(env, EmitCheck(env, s, category, exc), AbortedNonRepairable, Some(category));
      EarlyOutcome(env, o, at) && o.s.parseAttempts == s.parseAttempts
  {
    EarlyCheck(env, s, category, exc, at);
    EarlyRollback(env, EmitCheck(env, s, category, exc), AbortedNonRepairable, Some(category), at);
  }

  lemma StagedGood(env: Env, s: State, at: Origin)
    requires EarlyInv(env, s, at)
    ensures var staged := s.(workspace := s.workspace + StagedFiles(env));
      var told := EmitTrace(env, EmitTrace(env, staged, Execute, Wrote(HarnessLead, "", "")), ModelCall, Note("rtl_generation"));
      EarlyInv(env, told, at) && told.parseAttempts == s.parseAttempts
  {
    var staged := s.(workspace := s.workspace + StagedFiles(env));
    EarlyTrace(env, staged, Execute, Wrote(HarnessLead, "", ""), at);
    EarlyTrace(env, EmitTrace(env, staged, Execute, Wrote(HarnessLead, "", "")), ModelCall, Note("rtl_generation"), at);
  }

  ghost predicate LoopOutcome(env: Env, o: Outcome, at: Origin) {
    match o
    case Continue(s) => LoopInv(env, s, at)
    case Done(s, result) => result != Success && Ended(env, s, result, at)
  }

  lemma GivesUpGood(env: Env, s: State, exc: string, at: Origin)
    requires EarlyInv(env, s, at)
    ensures LoopOutcome(env, GenerationGivesUp(env, s, exc), at)
  {
  }

  lemma PlaceFirstGood(env: Env, s: State, code: string, at: Origin)
    requires EarlyInv(env, s, at) && s.parseAttempts < PARSE_MAX_ATTEMPTS && FromModel(env, s, code)
    ensures LoopOutcome(env, PlaceFirst(env, s, code), at)
  {
    match env.firstWrite
    case WriteFailed(exc, left) => GivesUpGood(env, s.(workspace := LeftBehind(env, s.workspace, left)), exc, at);
    case Written(record) => FirstRtlGood(env, s, code, record, at);
  }

  lemma FirstRtlGood(env: Env, s: State, code: string, record: string, at: Origin)
    requires EarlyInv(env, s, at) && s.parseAttempts < PARSE_MAX_ATTEMPTS && FromModel(env, s, code)
    ensures LoopInv(env, FirstRtl(env, s, code, record), at)
  {
    FirstIsFresh(env, s, code, record);
  }

  lemma FirstIsFresh(env: Env, s: State, code: string, record: string)
    requires FromModel(env, s, code)
    ensures FreshCandidate(env, FirstRtl(env, s, code, record))
  {
    var t := FirstRtl(env, s, code, record);
    var raw, current :| Offers(env, s, raw, current, code);
    assert Offers(env, t, raw, current, code);
    assert OnDisk(env, t, code);
  }

  /** What one answer to the generation request leads to. */
  lemma {:induction false} GenerateNext(env: Env, s: State, n: nat, raw: string, truncated: Option<bool>, got: State)
    requires n == |s.rawInitial| && env.generate(n) == Response(raw, truncated)
    requires got == Account(s, truncated).(rawInitial := s.rawInitial + [raw])
    ensures GenerateRtl(env, s) ==
      match env.parse(raw, None)
      case Parsed(code) => PlaceFirst(env, got, code)
      case Unparseable(error) =>
        var failed := FirstParseFailed(env, got, error);
        if ParseBudgetGone(failed) then GenerationGivesUp(env, failed, error) else GenerateRtl(env, failed)
  {
  }

  lemma {:induction false} GenerateRtlGood(env: Env, s: State, at: Origin)
    requires EarlyInv(env, s, at) && s.parseAttempts < PARSE_MAX_ATTEMPTS
    ensures LoopOutcome(env, GenerateRtl(env, s), at)
    decreases PARSE_MAX_ATTEMPTS - s.parseAttempts
  {
    var n := |s.rawInitial|;
    match env.generate(n)
    case CallFailed(exc) => GivesUpGood(env, s, exc, at);
    case Response(raw, truncated) =>
      var got := Account(s, truncated).(rawInitial := s.rawInitial + [raw]);
      assert EarlyInv(env, got, at);
      GenerateNext(env, s, n, raw, truncated, got);
      if env.parse(raw, None).Parsed? {
        assert Offers(env, got, raw, None, env.parse(raw, None).code);
        PlaceFirstGood(env, got, env.parse(raw, None).code, at);
      } else {
        var error := env.parse(raw, None).error;
        var failed := FirstParseFailed(env, got, error);
        FirstParseFailedGood(env, got, error, at);
        if ParseBudgetGone(failed) { GivesUpGood(env, failed, error, at); } else { GenerateRtlGood(env, failed, at); }
      }
  }

  lemma FirstParseFailedGood(env: Env, s: State, error: string, at: Origin)
    requires EarlyInv(env, s, at) && s.parseAttempts < PARSE_MAX_ATTEMPTS
    ensures EarlyInv(env, FirstParseFailed(env, s, error), at)
    ensures FirstParseFailed(env, s, error).parseAttempts == s.parseAttempts + 1
  {
  }

  lemma PreludeGood(env: Env, at: Origin, log: Log<Payload>)
    requires Chained(env.recorder.h, log, at.genesis)
    ensures LoopOutcome(env, Prelude(env, at.numPredict, at.workspace, log), at)
  {
    var s := Begin(env, at.numPredict, at.workspace, log);
    BeginGood(env, at, log);
    AgreeContractGood(env, s, at);
    var contract := AgreeContract(env, s);
    if contract.Continue? {
      StageHarnessGood(env, contract.s, at);
      var harness := StageHarness(env, contract.s);
      if harness.Continue? { GenerateRtlGood(env, harness.s, at); }
    }
  }

  // ---------------------------------------------------------------- whole runs

  /** The loop run to its end. That this function is well founded is the termination theorem: the order is
      the budgets not yet spent, then the first verification, then the call failures still tolerated. */
  ghost function RunLoop(env: Env, s: State, at: Origin): (end: (State, Result))
    requires LoopInv(env, s, at)
    ensures Ended(env, end.0, end.1, at)
    decreases Unspent(env, s), if s.guidance == None then 1 else 0, 3 - Min(Streak(s.history), 3)
  {
    IterateGood(env, s, at);
    BudgetBound(env, s);
    match Iterate(env, s)
    case Done(s', result) => (s', result)
    case Continue(s') => RunLoop(env, s', at)
  }

  /** A whole call of `run_silicon_pipeline`, for every sequence of answers. */
  ghost function Pipeline(env: Env, at: Origin, log: Log<Payload>): (end: (State, Result))
    requires Chained(env.recorder.h, log, at.genesis)
    ensures Ended(env, end.0, end.1, at)
  {
    PreludeGood(env, at, log);
    match Prelude(env, at.numPredict, at.workspace, log)
    case Done(s, result) => (s, result)
    case Continue(s) => RunLoop(env, s, at)
  }

  // ---------------------------------------------------------------- when a run raises

  /** Every outside answer is well formed: no crash, and evidence fields within their bounds. */
  ghost predicate WellFormedAnswers(env: Env) {
    && env.staging.AllStaged? && env.generationEvidenceValid
    && forall n :: env.verify(n).Verdict? && env.verify(n).evidenceValid
  }

  lemma {:induction false} LoopNeverRaises(env: Env, s: State, at: Origin)
    requires LoopInv(env, s, at) && WellFormedAnswers(env) && env.maxRepairs <= 3
    ensures RunLoop(env, s, at).1 != Raised
    decreases Unspent(env, s), if s.guidance == None then 1 else 0, 3 - Min(Streak(s.history), 3)
  {
    IterateGood(env, s, at);
    BudgetBound(env, s);
    IterateNeverRaises(env, s, at);
    match Iterate(env, s)
    case Done(_, _) =>
    case Continue(s') => LoopNeverRaises(env, s', at);
  }

  lemma IterateNeverRaises(env: Env, s: State, at: Origin)
    requires LoopInv(env, s, at) && WellFormedAnswers(env) && env.maxRepairs <= 3
    ensures Iterate(env, s).Done? ==> Iterate(env, s).result != Raised
  {
    match s.guidance
    case None => VerifierNeverRaises(env, s);
    case Some(guidance) =>
      RepairTurnGood(env, s, guidance, at);
      match RepairTurn(env, s, guidance)
      case ToVerifier(s') => VerifierNeverRaises(env, s');
      case Again(_) =>
      case Stop(_, _) =>
  }

  lemma VerifierNeverRaises(env: Env, s: State)
    requires FreshCandidate(env, s) && WellFormedAnswers(env) && env.maxRepairs <= 3
    ensures RunVerifier(env, s).Done? ==> RunVerifier(env, s).result != Raised
  {
    var v := env.verify(s.verifierCalls);
    assert v.Verdict? && v.evidenceValid;
    if !v.passed {
      DiagnoseNeverRaises(env, Examined(env, s, v.files, v.passed, v.category, v.reason), CategoryOf(v.category),
                          NonRepairable(CategoryOf(v.category)), StageFor(CategoryOf(v.category), v.gate),
                          Evidence(v.prompt,
                                   RecentlyUnchanged(Examined(env, s, v.files, v.passed, v.category, v.reason).history)));
    }
  }

  lemma DiagnoseNeverRaises(env: Env, s: State, category: string, hopeless: bool, stage: Stage, notice: Notice)
    requires env.maxRepairs <= 3
    ensures var o := Diagnose(env, s, category, hopeless, stage, notice, true); o.Done? ==> o.result == Failure
  {
    assert Limit(env, stage) <= 3;
  }

  /** With at most three repairs per stage no run on well-formed answers raises: it ends in success or
      in a rollback. */
  lemma SmallBudgetNeverRaises(env: Env, at: Origin, log: Log<Payload>)
    requires Chained(env.recorder.h, log, at.genesis)
    requires WellFormedAnswers(env) && env.maxRepairs <= 3
    ensures Pipeline(env, at, log).1 != Raised
  {
    PreludeGood(env, at, log);
    PreludeNeverRaises(env, at, log);
    match Prelude(env, at.numPredict, at.workspace, log)
    case Done(_, _) =>
    case Continue(s) => LoopNeverRaises(env, s, at);
  }

  lemma PreludeNeverRaises(env: Env, at: Origin, log: Log<Payload>)
    requires WellFormedAnswers(env)
    ensures var o := Prelude(env, at.numPredict, at.workspace, log); o.Done? ==> o.result != Raised
  {
    var s := Begin(env, at.numPredict, at.workspace, log);
    ContractNeverRaises(env, s);
    var contract := AgreeContract(env, s);
    if contract.Continue? && StageHarness(env, contract.s).Continue? {
      GenerationContinues(env, StageHarness(env, contract.s).s);
    }
  }

  lemma ContractNeverRaises(env: Env, s: State)
    ensures AgreeContract(env, s).Done? ==> AgreeContract(env, s).result == Failure
  {
  }

  lemma {:induction false} GenerationContinues(env: Env, s: State)
    requires env.generationEvidenceValid
    ensures GenerateRtl(env, s).Continue?
    decreases PARSE_MAX_ATTEMPTS - s.parseAttempts
  {
    match env.generate(|s.rawInitial|)
    case CallFailed(_) =>
    case Response(raw, truncated) =>
      var got := Account(s, truncated).(rawInitial := s.rawInitial + [raw]);
      match env.parse(raw, None) {
        case Parsed(_) =>
        case Unparseable(error) =>
          var failed := FirstParseFailed(env, got, error);
          if !ParseBudgetGone(failed) { GenerationContinues(env, failed); }
      }
  }

  // ---------------------------------------------------------------- the completion budget

  /** Doubling on truncation never shrinks the completion budget exactly when it is not negative;
      Ollama's "unlimited" value -1 would be doubled away from zero. */
  lemma BumpNeverShrinks(s: State)
    ensures Bump(s).numPredict >= s.numPredict <==> !(s.truncated && s.numPredict < 0)
    ensures Bump(s).numPredict <= Max(s.numPredict, PARSE_NUM_PREDICT_CAP)
    ensures s.truncated && s.numPredict < PARSE_NUM_PREDICT_CAP ==>
              Bump(s).numPredict == Min(s.numPredict + s.numPredict, PARSE_NUM_PREDICT_CAP)
  {
  }
}
