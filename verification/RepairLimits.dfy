/** Runs that reach the limits: the bound on repair calls is attained, and a larger repair budget can make
    the pipeline raise instead of rolling back. */
module RepairLimits {
  import opened Options
  import opened TraceLog
  import opened Workspace
  import opened RepairSpec
  import opened RepairRun
  import opened Chars
  import RtlIdentity

  // ---------------------------------------------------------------- the skip test against the unchanged test

  /** Two different texts with one digest. */
  predicate ShaCollision(env: Env, a: string, b: string) { a != b && env.sha(a) == env.sha(b) }

  /** A candidate that skips the verifier is counted as unchanged exactly when its carriage returns uncover
      nothing, unless its digest is that of another text. The text on disk was read with universal newlines, so
      only the candidate can hold one. */
  lemma SkipIsUnchanged(env: Env, s: State, code: string)
    requires Skips(env, CurrentRtl(env, s), code)
    ensures var current := CurrentRtl(env, s);
      || ShaCollision(env, RtlIdentity.Narrow(current), RtlIdentity.Narrow(code))
      || (SameCandidate(current, code) <==> RtlIdentity.ReturnsHarmless(code))
  {
    var current := CurrentRtl(env, s);
    CurrentHasNoReturn(env, s);
    RtlIdentity.PairedReturnsHarmless(current);
    if RtlIdentity.Narrow(current) == RtlIdentity.Narrow(code) {
      RtlIdentity.NarrowEqualWideEqual(current, code);
    }
  }

  lemma CurrentHasNoReturn(env: Env, s: State)
    ensures '\r' !in CurrentRtl(env, s)
  {
    var file := RtlFile(env);
    if file in s.workspace && s.workspace[file].File? { RtlIdentity.LineFeedsOnly(s.workspace[file].content); }
  }

  lemma SkippedReaction(env: Env, s: State, guidance: string, current: string, raw: string, code: string)
    requires env.parse(raw, Context(env, current)) == Parsed(code)
    requires env.skipUnchanged && |current| == 6 && RtlIdentity.Narrow(current) == RtlIdentity.Narrow(code)
    requires RtlIdentity.Wide(current) != RtlIdentity.Wide(code)
    ensures Skips(env, current, code) && !SameCandidate(current, code)
    ensures React(env, s, guidance, current, raw) == Skip(env, Pay(s, false), guidance)
  {
  }

  /** A candidate that is skipped, and so never verified, although it is not counted as unchanged. */
  lemma SkippedYetChanged(env: Env, s: State, guidance: string, raw: string, code: string)
    requires env.skipUnchanged && RtlFile(env) in s.workspace && s.workspace[RtlFile(env)] == File("//a\nb\n")
    requires env.parse(raw, Context(env, CurrentRtl(env, s))) == Parsed(code) && code == "//a\rb"
    ensures Skips(env, CurrentRtl(env, s), code) && !SameCandidate(CurrentRtl(env, s), code)
    ensures React(env, s, guidance, CurrentRtl(env, s), raw) == Skip(env, Pay(s, false), guidance)
  {
    var ended := s.workspace[RtlFile(env)].content;
    RtlIdentity.OnlyWideDiffers(ended, code);
    assert CurrentRtl(env, s) == ended && |ended| == 6;
    SkippedReaction(env, s, guidance, ended, raw, code);
  }

  // ---------------------------------------------------------------- a scripted environment

  /** A model that answers every call, files that always get written, a given contract. */
  function Scripted(maxRepairs: int, r: Recorder<Payload>, repair: nat -> ModelAnswer, verify: nat -> VerifyAnswer): Env {
    Env(maxRepairs, false, false, "m", r, s => s, n => "",
        (raw, current) => if raw == "?" then Unparseable("") else Parsed(raw),
        (before, after) => false, true, n => Accepted, HarnessBuilt, map[], AllStaged,
        n => Response("m", None), true, Written(""), repair, n => Written(""), verify)
  }

  function FailsWith(category: string): VerifyAnswer {
    Verdict(false, false, Some(category), None, "", "", true, map[])
  }

  function CategoryFor(stage: Stage): string {
    match stage
    case Compile => "SYNTAX_ERROR"
    case Simulation => "SIMULATION"
    case Formal => "FORMAL"
    case Timing => "TIMING"
    case Other => "X"
  }

  lemma CategoryMeaning(stage: Stage)
    ensures CategoryOf(Some(CategoryFor(stage))) == CategoryFor(stage) != CALL_FAILURE
    ensures !NonRepairable(CategoryFor(stage)) && StageFor(CategoryFor(stage), "") == stage
  {
    CategorySize(stage, CategoryFor(stage));
    CategoryRepairable(stage, CategoryFor(stage));
    CategoryStage(stage, CategoryFor(stage));
  }

  lemma CategorySize(stage: Stage, c: string)
    requires c == CategoryFor(stage)
    ensures |c| == match stage case Compile => 12 case Simulation => 10 case Formal => 6 case Timing => 6 case Other => 1
  {
  }

  lemma CategoryRepairable(stage: Stage, c: string)
    requires c == CategoryFor(stage)
    ensures !NonRepairable(c)
  {
    CategorySize(stage, c);
  }

  lemma CategoryStage(stage: Stage, c: string)
    requires c == CategoryFor(stage)
    ensures StageFor(c, "") == stage
  {
    CategorySize(stage, c);
    match stage
    case Compile =>
    case Simulation =>
    case Formal =>
    case Timing => NoFormal(c);
    case Other => NoFormal(c); NoTiming(c);
  }

  lemma PrefixHead(p: string, c: string)
    requires p != ""
    ensures p <= c ==> c != "" && c[0] == p[0]
  {
  }

  lemma {:induction false} NoFormal(c: string)
    requires 'F' !in c
    ensures !Contains(c, "FORMAL")
  {
    PrefixHead("FORMAL", c);
    if c != "" { NoFormal(c[1..]); }
  }

  lemma {:induction false} NoTiming(c: string)
    requires 'T' !in c
    ensures !Contains(c, "TIMING")
  {
    PrefixHead("TIMING", c);
    if c != "" { NoTiming(c[1..]); }
  }

  /** The contract is given, and the first response is parsed and written. */
  ghost predicate ScriptedStart(env: Env) {
    && env.contractGiven && env.harness.HarnessBuilt? && env.staging.AllStaged?
    && env.generate(0) == Response("m", None) && env.parse("m", None) == Parsed("m") && env.firstWrite.Written?
  }

  lemma ScriptedContract(env: Env, s: State)
    requires ScriptedStart(env)
    ensures AgreeContract(env, s).Continue? && AgreeContract(env, s).s == s.(log := AgreeContract(env, s).s.log)
    ensures StageHarness(env, s).Continue?
    ensures var h := StageHarness(env, s).s; h == s.(log := h.log, workspace := h.workspace)
  {
  }

  lemma ScriptedGeneration(env: Env, s: State)
    requires ScriptedStart(env) && s.rawInitial == []
    ensures GenerateRtl(env, s).Continue?
    ensures var g := GenerateRtl(env, s).s;
      g == s.(log := g.log, workspace := g.workspace, rawInitial := g.rawInitial)
  {
  }

  /** A scripted run reaches its loop with the first RTL written and nothing spent. */
  lemma ScriptedPrelude(env: Env, at: Origin, log: Log<Payload>)
    requires ScriptedStart(env) && Chained(env.recorder.h, log, at.genesis)
    ensures Prelude(env, at.numPredict, at.workspace, log).Continue?
    ensures var s := Prelude(env, at.numPredict, at.workspace, log).s;
      s.guidance == None && s.parseAttempts == 0 && (forall k :: Spent(s, k) == 0) && s.history == []
  {
    var s := Begin(env, at.numPredict, at.workspace, log);
    ScriptedContract(env, s);
    var agreed := AgreeContract(env, s).s;
    ScriptedContract(env, agreed);
    ScriptedGeneration(env, StageHarness(env, agreed).s);
  }

  /** One failing verifier run in a scripted environment. */
  lemma ScriptedFailure(env: Env, s: State, stage: Stage)
    requires FreshCandidate(env, s) && env.verify(s.verifierCalls) == FailsWith(CategoryFor(stage))
    ensures var o := RunVerifier(env, s);
      if Spent(s, stage) >= Limit(env, stage) then o.Done? && o.result == Failure && o.s.repairCalls == s.repairCalls
      else if !AttemptValid(Spent(s, stage) + 1) then o.Done? && o.result == Raised && o.s.repairCalls == s.repairCalls
      else o.Continue? && o.s.pending == stage && o.s.guidance.Some? && o.s.spent == s.spent
           && o.s.parseAttempts == s.parseAttempts && o.s.repairCalls == s.repairCalls
           && o.s.verifierCalls == s.verifierCalls + 1 && Streak(o.s.history) == 0
  {
    CategoryMeaning(stage);
    var v := env.verify(s.verifierCalls);
    var checked := Examined(env, s, v.files, v.passed, v.category, v.reason);
    ExaminedKeeps(env, s, v.files, v.passed, v.category, v.reason);
    StreakGrows(checked.history, CategoryFor(stage));
  }

  /** One parsed and written repair in a scripted environment. */
  lemma ScriptedRepair(env: Env, s: State, guidance: string)
    requires !env.skipUnchanged && s.guidance == Some(guidance) && s.parseAttempts < PARSE_MAX_ATTEMPTS
    requires Spent(s, s.pending) + 1 <= Limit(env, s.pending)
    requires env.repair(s.repairCalls) == Response("m", None) && env.write(s.repairCalls + 1).Written?
    requires forall current :: env.parse("m", current) == Parsed("m")
    requires forall a :: !env.tooLarge(a, "m")
    ensures var f := RepairTurn(env, s, guidance);
      && f.ToVerifier? && f.s.spent == Spend(s, s.pending).spent && f.s.parseAttempts == s.parseAttempts
      && f.s.repairCalls == s.repairCalls + 1 && f.s.verifierCalls == s.verifierCalls
  {
    TurnReacts(env, s, guidance);
    var heard := Hear(Ask(env, s, guidance), guidance, "m", None);
    HeardKeeps(env, s, guidance, "m");
    ScriptedReaction(env, heard, guidance, CurrentRtl(env, s));
    SpendSame(s, heard);
  }

  lemma HeardKeeps(env: Env, s: State, guidance: string, raw: string)
    ensures var h := Hear(Ask(env, s, guidance), guidance, raw, None);
      h.spent == s.spent && h.pending == s.pending && h.parseAttempts == s.parseAttempts
      && h.repairCalls == s.repairCalls + 1 && h.verifierCalls == s.verifierCalls
  {
  }

  lemma SpendSame(s: State, t: State)
    requires s.spent == t.spent && s.pending == t.pending
    ensures Spend(s, s.pending).spent == Spend(t, t.pending).spent
  {
  }

  lemma TurnReacts(env: Env, s: State, guidance: string)
    requires s.parseAttempts < PARSE_MAX_ATTEMPTS && Spent(s, s.pending) + 1 <= Limit(env, s.pending)
    requires env.repair(s.repairCalls) == Response("m", None)
    ensures RepairTurn(env, s, guidance) ==
            React(env, Hear(Ask(env, s, guidance), guidance, "m", None), guidance, CurrentRtl(env, s), "m")
  {
  }

  lemma ScriptedReaction(env: Env, s: State, guidance: string, current: string)
    requires !env.skipUnchanged && env.write(s.repairCalls).Written?
    requires forall c :: env.parse("m", c) == Parsed("m")
    requires forall a :: !env.tooLarge(a, "m")
    ensures var f := React(env, s, guidance, current, "m");
      && f.ToVerifier? && f.s.spent == Spend(s, s.pending).spent && f.s.parseAttempts == s.parseAttempts
      && f.s.repairCalls == s.repairCalls && f.s.verifierCalls == s.verifierCalls
  {
    var same := SameCandidate(current, "m");
    PayKeeps(s, same);
    AppliedKeeps(env, Pay(s, same), "m", env.write(s.repairCalls).record);
  }

  // ---------------------------------------------------------------- more than three repairs per stage

  /** Every verification fails on timing. */
  function TimingEnv(maxRepairs: int, r: Recorder<Payload>): Env {
    Scripted(maxRepairs, r, n => Response("m", None), n => FailsWith(CategoryFor(Timing)))
  }

  lemma {:induction false} TimingTurns(env: Env, s: State, at: Origin, r: Recorder<Payload>)
    requires env == TimingEnv(env.maxRepairs, r) && env.maxRepairs >= 4
    requires LoopInv(env, s, at) && s.guidance.Some? && s.pending == Timing && s.parseAttempts < PARSE_MAX_ATTEMPTS
    requires Spent(s, Timing) <= 2
    ensures RunLoop(env, s, at).1 == Raised
    decreases 3 - Spent(s, Timing)
  {
    TimingTurn(env, s, r);
    if Iterate(env, s).Done? {
      LastIteration(env, s, at);
    } else {
      LoopStep(env, s, at);
      TimingTurns(env, Iterate(env, s).s, at, r);
    }
  }

  lemma TimingTurn(env: Env, s: State, r: Recorder<Payload>)
    requires env == TimingEnv(env.maxRepairs, r) && env.maxRepairs >= 4
    requires s.guidance.Some? && s.pending == Timing && s.parseAttempts < PARSE_MAX_ATTEMPTS && Spent(s, Timing) <= 2
    ensures var o := Iterate(env, s);
      if Spent(s, Timing) == 2 then o.Done? && o.result == Raised
      else o.Continue? && o.s.guidance.Some? && o.s.pending == Timing && o.s.parseAttempts == s.parseAttempts
           && Spent(o.s, Timing) == Spent(s, Timing) + 1
  {
    TimingRepair(env, s, s.guidance.value, r);
    TimingVerdict(env, RepairTurn(env, s, s.guidance.value).s, r);
  }

  lemma TimingRepair(env: Env, s: State, guidance: string, r: Recorder<Payload>)
    requires env == TimingEnv(env.maxRepairs, r) && env.maxRepairs >= 4
    requires s.guidance == Some(guidance) && s.pending == Timing && s.parseAttempts < PARSE_MAX_ATTEMPTS && Spent(s, Timing) <= 2
    ensures var f := RepairTurn(env, s, guidance);
      f.ToVerifier? && f.s.parseAttempts == s.parseAttempts && Spent(f.s, Timing) == Spent(s, Timing) + 1
  {
    ScriptedRepair(env, s, guidance);
    SpendTotals(s, Timing);
  }

  lemma TimingVerdict(env: Env, s: State, r: Recorder<Payload>)
    requires env == TimingEnv(env.maxRepairs, r) && env.maxRepairs >= 4 && FreshCandidate(env, s) && Spent(s, Timing) <= 3
    ensures var o := RunVerifier(env, s);
      if Spent(s, Timing) == 3 then o.Done? && o.result == Raised
      else o.Continue? && o.s.guidance.Some? && o.s.pending == Timing && o.s.parseAttempts == s.parseAttempts
           && Spent(o.s, Timing) == Spent(s, Timing)
  {
    ScriptedFailure(env, s, Timing);
  }

  /** The first verification of a run whose every verification fails on timing. */
  lemma TimingFirst(env: Env, s: State, at: Origin)
    requires env.verify(s.verifierCalls) == FailsWith(CategoryFor(Timing)) && env.maxRepairs >= 4
    requires LoopInv(env, s, at) && s.guidance == None && Spent(s, Timing) == 0
    ensures Iterate(env, s).Continue? && LoopInv(env, Iterate(env, s).s, at)
    ensures RunLoop(env, s, at) == RunLoop(env, Iterate(env, s).s, at)
    ensures var t := Iterate(env, s).s;
      t.guidance.Some? && t.pending == Timing && t.parseAttempts == s.parseAttempts && Spent(t, Timing) == 0
  {
    IterateGood(env, s, at);
    ScriptedFailure(env, s, Timing);
  }

  lemma LoopStep(env: Env, s: State, at: Origin)
    requires LoopInv(env, s, at) && Iterate(env, s).Continue?
    ensures LoopInv(env, Iterate(env, s).s, at) && RunLoop(env, s, at) == RunLoop(env, Iterate(env, s).s, at)
  {
    IterateGood(env, s, at);
  }

  lemma LastIteration(env: Env, s: State, at: Origin)
    requires LoopInv(env, s, at) && Iterate(env, s).Done?
    ensures RunLoop(env, s, at) == (Iterate(env, s).s, Iterate(env, s).result)
  {
    IterateGood(env, s, at);
  }

  lemma PipelineFromLoop(env: Env, at: Origin, log: Log<Payload>)
    requires Chained(env.recorder.h, log, at.genesis)
    requires Prelude(env, at.numPredict, at.workspace, log).Continue?
    ensures var s := Prelude(env, at.numPredict, at.workspace, log).s;
      LoopInv(env, s, at) && Pipeline(env, at, log) == RunLoop(env, s, at)
  {
    PreludeGood(env, at, log);
  }

  /** The evidence record admits attempts 1 to 3, but the timing and other stages may be repaired as often
      as the driver is told to: with a budget of four or more there are runs on well-formed answers that
      raise, and so end without a rollback. Together with `SmallBudgetNeverRaises`: a run can raise on
      well-formed answers exactly when the budget exceeds three. */
  lemma LargeBudgetCanRaise(env: Env, r: Recorder<Payload>, at: Origin, log: Log<Payload>)
    requires env == TimingEnv(env.maxRepairs, r) && env.maxRepairs >= 4 && Chained(r.h, log, at.genesis)
    ensures WellFormedAnswers(env)
    ensures Pipeline(env, at, log).1 == Raised
  {
    ScriptedPrelude(env, at, log);
    PipelineFromLoop(env, at, log);
    var s := Prelude(env, at.numPredict, at.workspace, log).s;
    TimingFirst(env, s, at);
    TimingTurns(env, Iterate(env, s).s, at, r);
  }
}
