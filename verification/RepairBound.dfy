/** The bound on repair calls is exact: for every repair budget there is a run, on well-formed answers, that
    makes exactly that many. Every unit of every budget is paid for with three calls, two of which fail; within a
    stage all candidates but the last are too large, so the next stage is reached with the whole budget spent. */
module RepairBound {
  import opened Options
  import opened TraceLog
  import opened Workspace
  import opened RepairSpec
  import opened RepairRun
  import opened RepairLimits
  import RtlIdentity

  function Clamp(x: int, limit: nat): nat { if x < 0 then 0 else if x > limit then limit else x }

  /** After `u` stage units: what each stage has spent, and which stage is next. */
  function SpentAt(b: nat, u: nat, k: Stage): nat {
    match k
    case Compile => Clamp(u, 3)
    case Simulation => Clamp(u - 3, 3)
    case Formal => Clamp(u - 6, 3)
    case Timing => Clamp(u - 9, b)
    case Other => Clamp(u - 9 - b, b)
  }

  function StageAt(b: nat, u: nat): Stage {
    if u < 3 then Compile else if u < 6 then Simulation else if u < 9 then Formal else if u < 9 + b then Timing else Other
  }

  /** How many verifier runs it takes to reach a stage. */
  function RunsBefore(k: Stage): nat {
    match k case Compile => 1 case Simulation => 2 case Formal => 3 case Timing => 4 case Other => 5
  }

  predicate LastOfStage(b: nat, u: nat) { u == 2 || u == 5 || u == 8 || u == 8 + b || u == 8 + 2 * b }

  /** Rounds of three calls: the first two rounds end in a garbled response, the others in a candidate. */
  function AnswerAt(b: nat, n: nat): ModelAnswer {
    if n % 3 != 2 then CallFailed("")
    else if n / 3 < 2 then Response("?", None)
    else if LastOfStage(b, n / 3 - 2) then Response("m", None)
    else Response("b", None)
  }

  function VerdictAt(v: nat): VerifyAnswer {
    var k := if v == 0 then Compile else if v == 1 then Simulation else if v == 2 then Formal
             else if v == 3 then Timing else Other;
    FailsKeeping(k)
  }

  /** A verification that fails at a stage and leaves the candidate on disk. */
  function FailsKeeping(k: Stage): VerifyAnswer {
    Verdict(false, false, Some(CategoryFor(k)), None, "", "", true, map["m.sv" := File("m\n")])
  }

  function BoundEnv(b: nat, r: Recorder<Payload>): Env {
    Scripted(b, r, (n: nat) => AnswerAt(b, n), (v: nat) => VerdictAt(v)).(tooLarge := (before, after) => after == "b")
  }

  /** What the proof uses of that environment. */
  ghost predicate Follows(env: Env, b: nat) {
    && env.maxRepairs == b && !env.skipUnchanged && !env.regenerate && env.moduleName == "m"
    && (forall n :: env.repair(n) == AnswerAt(b, n))
    && (forall v :: env.verify(v) == VerdictAt(v))
    && (forall n :: env.write(n).Written?)
    && (forall c :: env.parse("m", c) == Parsed("m")) && (forall c :: env.parse("b", c) == Parsed("b"))
    && (forall c :: env.parse("?", c) == Unparseable(""))
    && (forall a :: env.tooLarge(a, "b") && !env.tooLarge(a, "m"))
  }

  lemma BoundEnvFollows(b: nat, r: Recorder<Payload>)
    ensures Follows(BoundEnv(b, r), b) && WellFormedAnswers(BoundEnv(b, r))
  {
  }

  ghost predicate Places(env: Env, s: State) { CurrentRtl(env, s) != "" }

  /** After `u` stage units: the budgets, the stage at hand, the verifier runs. */
  ghost predicate Tally(b: nat, s: State, u: nat) {
    && SpentAll(b, s.spent, u) && s.pending == StageAt(b, u) && s.verifierCalls == RunsBefore(s.pending)
  }

  ghost predicate SpentAll(b: nat, spent: map<Stage, nat>, u: nat) {
    forall j :: Used(spent, j) == SpentAt(b, u, j)
  }

  /** In round `k` with `i` failed calls behind: two parse failures come first, then one stage unit a round. */
  ghost predicate InRound(env: Env, b: nat, s: State, k: nat, i: nat) {
    && s.repairCalls == 3 * k + i && s.guidance.Some? && Streak(s.history) == i && Places(env, s)
    && s.parseAttempts == Clamp(k, 2) && Tally(b, s, Clamp(k - 2, k))
  }

  /** The same state with `n` more failed calls behind it. */
  ghost predicate Lost(s: State, t: State, n: nat) {
    && t.repairCalls == s.repairCalls + n && t.guidance.Some? && Streak(t.history) == Streak(s.history) + n
    && t.workspace == s.workspace && t.parseAttempts == s.parseAttempts && t.spent == s.spent
    && t.pending == s.pending && t.verifierCalls == s.verifierCalls
  }

  ghost predicate TurnOpen(env: Env, s: State) {
    s.guidance.Some? && s.parseAttempts < PARSE_MAX_ATTEMPTS && Spent(s, s.pending) + 1 <= Limit(env, s.pending)
  }

  /** A failed call, the first or second in a row. */
  lemma FailedCall(env: Env, s: State)
    requires TurnOpen(env, s) && env.repair(s.repairCalls).CallFailed? && Streak(s.history) < 2
    ensures Iterate(env, s).Continue? && Lost(s, Iterate(env, s).s, 1)
  {
    var guidance := s.guidance.value;
    var asked := Ask(env, s, guidance);
    StreakGrows(s.history, CALL_FAILURE);
    StreakEnds(Remember(asked, CALL_FAILURE).history);
    assert RepairTurn(env, s, guidance) == CallLost(env, asked, env.repair(s.repairCalls).exc);
  }

  /** A response that does not parse, with parse budget left. */
  lemma GarbledCall(env: Env, s: State)
    requires TurnOpen(env, s) && env.repair(s.repairCalls) == Response("?", None) && s.parseAttempts < 2
    requires forall c :: env.parse("?", c) == Unparseable("")
    ensures var o := Iterate(env, s);
      o.Continue? && o.s.repairCalls == s.repairCalls + 1 && o.s.guidance.Some? && Streak(o.s.history) == 0
      && o.s.workspace == s.workspace && o.s.parseAttempts == s.parseAttempts + 1 && o.s.spent == s.spent
      && o.s.pending == s.pending && o.s.verifierCalls == s.verifierCalls
  {
    var guidance := s.guidance.value;
    var heard := Hear(Ask(env, s, guidance), guidance, "?", None);
    ChargeParseKeeps(env, heard, "");
    assert RepairTurn(env, s, guidance) == ParseFailed(env, heard, "");
  }

  /** A candidate that changes too much: its unit is spent, nothing is written. */
  lemma LargeCall(env: Env, s: State)
    requires TurnOpen(env, s) && env.repair(s.repairCalls) == Response("b", None) && Places(env, s)
    requires !env.skipUnchanged && !env.regenerate
    requires (forall c :: env.parse("b", c) == Parsed("b")) && forall a :: env.tooLarge(a, "b")
    ensures var o := Iterate(env, s);
      o.Continue? && o.s.repairCalls == s.repairCalls + 1 && o.s.guidance.Some? && Streak(o.s.history) == 0
      && o.s.workspace == s.workspace && o.s.parseAttempts == s.parseAttempts && o.s.spent == Spend(s, s.pending).spent
      && o.s.pending == s.pending && o.s.verifierCalls == s.verifierCalls
  {
    var guidance, current := s.guidance.value, CurrentRtl(env, s);
    var heard := Hear(Ask(env, s, guidance), guidance, "b", None);
    HeardKeeps(env, s, guidance, "b");
    SpendSame(s, heard);
    assert RepairTurn(env, s, guidance) ==
           Judge(env, heard, guidance, "b", SameCandidate(current, "b"), false, true);
    TooLargeKeeps(env, heard, guidance, SameCandidate(current, "b"));
  }

  lemma TooLargeKeeps(env: Env, s: State, guidance: string, same: bool)
    ensures var f := Judge(env, s, guidance, "b", same, false, true);
      f.Again? && f.s.repairCalls == s.repairCalls && f.s.guidance.Some? && Streak(f.s.history) == 0
      && f.s.workspace == s.workspace && f.s.parseAttempts == s.parseAttempts && f.s.spent == Spend(s, s.pending).spent
      && f.s.pending == s.pending && f.s.verifierCalls == s.verifierCalls
  {
    PayKeeps(s, same);
    StreakGrows(Pay(s, same).history, TOO_LARGE);
  }

  /** What a failed verification leads to once `spent` units of its stage are gone. */
  ghost predicate FailedAt(env: Env, s: State, o: Outcome, stage: Stage, spent: map<Stage, nat>, calls: nat) {
    if Used(spent, stage) >= Limit(env, stage) then o.Done? && o.result == Failure && o.s.repairCalls == calls
    else Used(spent, stage) < 3 ==>
      o.Continue? && o.s.repairCalls == calls && o.s.guidance.Some? && Streak(o.s.history) == 0
      && Places(env, o.s) && o.s.parseAttempts == s.parseAttempts && o.s.spent == spent
      && o.s.pending == stage && o.s.verifierCalls == s.verifierCalls + 1
  }

  /** A candidate that is written, and a verification that fails at `stage`. */
  lemma GoodCall(env: Env, s: State, stage: Stage)
    requires TurnOpen(env, s) && env.repair(s.repairCalls) == Response("m", None) && env.write(s.repairCalls + 1).Written?
    requires !env.skipUnchanged && env.moduleName == "m"
    requires (forall c :: env.parse("m", c) == Parsed("m")) && forall a :: !env.tooLarge(a, "m")
    requires env.verify(s.verifierCalls) == FailsKeeping(stage)
    ensures FailedAt(env, s, Iterate(env, s), stage, Spend(s, s.pending).spent, s.repairCalls + 1)
  {
    ScriptedRepair(env, s, s.guidance.value);
    FailedRun(env, RepairTurn(env, s, s.guidance.value).s, stage);
  }

  lemma FailedRun(env: Env, s: State, stage: Stage)
    requires FreshCandidate(env, s) && env.moduleName == "m"
    requires env.verify(s.verifierCalls) == FailsKeeping(stage)
    ensures FailedAt(env, s, RunVerifier(env, s), stage, s.spent, s.repairCalls)
  {
    var v := env.verify(s.verifierCalls);
    var checked := Examined(env, s, v.files, v.passed, v.category, v.reason);
    CategoryMeaning(stage);
    ExaminedKeeps(env, s, v.files, v.passed, v.category, v.reason);
    FilesStay(env, s, v);
    FailedDiagnosis(env, s, checked, stage, Evidence(v.prompt, RecentlyUnchanged(checked.history)));
  }

  lemma FailedDiagnosis(env: Env, s: State, checked: State, stage: Stage, notice: Notice)
    requires checked.spent == s.spent && checked.parseAttempts == s.parseAttempts && checked.repairCalls == s.repairCalls
    requires checked.verifierCalls == s.verifierCalls + 1 && Places(env, checked) && CategoryFor(stage) != CALL_FAILURE
    ensures FailedAt(env, s, Diagnose(env, checked, CategoryFor(stage), false, stage, notice, true), stage, s.spent,
                     s.repairCalls)
  {
    StreakGrows(checked.history, CategoryFor(stage));
  }

  lemma FilesStay(env: Env, s: State, v: VerifyAnswer)
    requires v.Verdict? && v.files == map["m.sv" := File("m\n")] && env.moduleName == "m"
    ensures Places(env, Examined(env, s, v.files, v.passed, v.category, v.reason))
  {
    assert RtlFile(env) == "m.sv";
    assert |RtlIdentity.ReplaceCr("m\n")| > 0;
    RtlIdentity.NoReturnsSame("m\n");
    assert "m.sv"[0] == 'm' && MIND[0] == '.';
    assert "m.sv" in Outside(v.files);
  }

  // ---------------------------------------------------------------- rounds

  lemma RoundOpen(env: Env, b: nat, s: State, k: nat, i: nat)
    requires env.maxRepairs == b && k < 11 + 2 * b && InRound(env, b, s, k, i)
    ensures TurnOpen(env, s)
  {
    var u := Clamp(k - 2, k);
    assert Used(s.spent, s.pending) == SpentAt(b, u, s.pending);
    match StageAt(b, u) case Compile => case Simulation => case Formal => case Timing => case Other =>
  }

  lemma ThirdOf(k: nat)
    ensures (3 * k + 2) / 3 == k && (3 * k + 2) % 3 == 2 && (3 * k) % 3 == 0 && (3 * k + 1) % 3 == 1
  {
  }

  lemma AnswerFails(env: Env, b: nat, k: nat, i: nat)
    requires Follows(env, b) && i < 2
    ensures env.repair(3 * k + i).CallFailed?
  {
    ThirdOf(k);
    assert env.repair(3 * k + i) == AnswerAt(b, 3 * k + i);
  }

  lemma LostStays(env: Env, b: nat, s: State, t: State, k: nat, i: nat)
    requires InRound(env, b, s, k, i) && Lost(s, t, 1)
    ensures InRound(env, b, t, k, i + 1)
  {
  }

  /** The first two calls of a round. */
  lemma FailedStep(env: Env, b: nat, s: State, k: nat, i: nat, at: Origin)
    requires Follows(env, b) && LoopInv(env, s, at) && InRound(env, b, s, k, i) && k < 11 + 2 * b && i < 2
    ensures Iterate(env, s).Continue? && LoopInv(env, Iterate(env, s).s, at)
    ensures RunLoop(env, s, at) == RunLoop(env, Iterate(env, s).s, at) && InRound(env, b, Iterate(env, s).s, k, i + 1)
  {
    RoundOpen(env, b, s, k, i);
    AnswerFails(env, b, k, i);
    FailedCall(env, s);
    LoopStep(env, s, at);
    LostStays(env, b, s, Iterate(env, s).s, k, i);
  }

  /** The third call of a round that leads into the next one. */
  ghost predicate NextRound(env: Env, b: nat, s: State, k: nat)
    requires s.guidance.Some?
  {
    Iterate(env, s).Continue? && InRound(env, b, Iterate(env, s).s, k + 1, 0)
  }

  lemma GarbledRound(env: Env, b: nat, s: State, k: nat)
    requires Follows(env, b) && InRound(env, b, s, k, 2) && k < 2
    ensures NextRound(env, b, s, k)
  {
    ThirdOf(k);
    RoundOpen(env, b, s, k, 2);
    assert env.repair(3 * k + 2) == AnswerAt(b, 3 * k + 2);
    GarbledCall(env, s);
  }

  /** One more unit of the stage at hand. */
  lemma UnitSpent(b: nat, u: nat, s: State)
    requires u < 9 + 2 * b && Tally(b, s, u)
    ensures SpentAll(b, Spend(s, s.pending).spent, u + 1)
  {
    SpendTotals(s, s.pending);
    forall j ensures Used(Spend(s, s.pending).spent, j) == SpentAt(b, u + 1, j) {
      assert Spent(Spend(s, s.pending), j) == Spent(s, j) + if j == s.pending then 1 else 0;
      UnitStep(b, u, j);
    }
  }

  lemma UnitStep(b: nat, u: nat, j: Stage)
    requires u < 9 + 2 * b
    ensures SpentAt(b, u + 1, j) == SpentAt(b, u, j) + if j == StageAt(b, u) then 1 else 0
  {
    match j case Compile => case Simulation => case Formal => case Timing => case Other =>
  }

  lemma SameStage(b: nat, u: nat)
    requires u < 9 + 2 * b && !LastOfStage(b, u)
    ensures StageAt(b, u + 1) == StageAt(b, u)
  {
  }

  /** A round inside a stage. */
  lemma LargeRound(env: Env, b: nat, s: State, k: nat)
    requires Follows(env, b) && InRound(env, b, s, k, 2) && 2 <= k < 11 + 2 * b && !LastOfStage(b, k - 2)
    ensures NextRound(env, b, s, k)
  {
    ThirdOf(k);
    RoundOpen(env, b, s, k, 2);
    assert env.repair(3 * k + 2) == AnswerAt(b, 3 * k + 2);
    LargeCall(env, s);
    UnitSpent(b, k - 2, s);
    SameStage(b, k - 2);
  }

  /** The stage the verifier names when a stage has been spent. */
  function Next(k: Stage): Stage {
    match k case Compile => Simulation case Simulation => Formal case Formal => Timing case Timing => Other case Other => Other
  }

  lemma NextStage(b: nat, u: nat)
    requires LastOfStage(b, u) && u < 8 + 2 * b
    ensures Next(StageAt(b, u)) == StageAt(b, u + 1) && SpentAt(b, u + 1, StageAt(b, u + 1)) == 0
    ensures StageAt(b, u + 1) == Timing || StageAt(b, u + 1) == Other ==> b > 0
  {
  }

  lemma LastStage(b: nat, k: nat, stage: Stage)
    requires k == 10 + 2 * b && stage == Next(StageAt(b, k - 2))
    ensures SpentAt(b, k - 1, stage) == b && (stage == Timing || stage == Other)
  {
  }

  /** The candidate of the last round of a stage is verified and fails at the next stage. */
  lemma LastCall(env: Env, b: nat, s: State, k: nat)
    requires Follows(env, b) && InRound(env, b, s, k, 2) && 2 <= k < 11 + 2 * b && LastOfStage(b, k - 2)
    ensures FailedAt(env, s, Iterate(env, s), Next(s.pending), Spend(s, s.pending).spent, 3 * k + 3)
  {
    LastAnswers(env, b, s, k);
    FollowsGood(env, b);
    GoodCall(env, s, Next(s.pending));
  }

  lemma FollowsGood(env: Env, b: nat)
    requires Follows(env, b)
    ensures !env.skipUnchanged && env.moduleName == "m" && forall n :: env.write(n).Written?
    ensures (forall c :: env.parse("m", c) == Parsed("m")) && forall a :: !env.tooLarge(a, "m")
  {
  }

  lemma LastUnit(env: Env, b: nat, s: State, k: nat)
    requires InRound(env, b, s, k, 2) && 2 <= k < 11 + 2 * b
    ensures SpentAll(b, Spend(s, s.pending).spent, k - 1)
    ensures s.pending == StageAt(b, k - 2)
  {
    UnitSpent(b, k - 2, s);
  }

  lemma LastAnswers(env: Env, b: nat, s: State, k: nat)
    requires Follows(env, b) && InRound(env, b, s, k, 2) && 2 <= k < 11 + 2 * b && LastOfStage(b, k - 2)
    ensures TurnOpen(env, s) && env.repair(s.repairCalls) == Response("m", None)
    ensures env.verify(s.verifierCalls) == FailsKeeping(Next(s.pending))
  {
    ThirdOf(k);
    RoundOpen(env, b, s, k, 2);
    assert env.repair(3 * k + 2) == AnswerAt(b, 3 * k + 2);
    assert env.verify(s.verifierCalls) == VerdictAt(s.verifierCalls);
  }

  lemma LastRound(env: Env, b: nat, s: State, k: nat)
    requires Follows(env, b) && InRound(env, b, s, k, 2) && 2 <= k < 10 + 2 * b && LastOfStage(b, k - 2)
    ensures NextRound(env, b, s, k)
  {
    NextStage(b, k - 2);
    LastCall(env, b, s, k);
    LastUnit(env, b, s, k);
    var stage := Next(s.pending);
    assert Used(Spend(s, s.pending).spent, stage) == SpentAt(b, k - 1, stage) == 0;
    assert Limit(env, stage) > 0;
  }

  lemma FinalRound(env: Env, b: nat, s: State, k: nat)
    requires k == 10 + 2 * b && Follows(env, b) && InRound(env, b, s, k, 2)
    ensures var o := Iterate(env, s); o.Done? && o.result == Failure && o.s.repairCalls == 3 * k + 3
  {
    var stage := Next(s.pending);
    LastUnit(env, b, s, k);
    LastStage(b, k, stage);
    LastCall(env, b, s, k);
    assert Used(Spend(s, s.pending).spent, stage) == SpentAt(b, k - 1, stage);
  }

  lemma ThirdStep(env: Env, b: nat, s: State, k: nat, at: Origin)
    requires Follows(env, b) && LoopInv(env, s, at) && InRound(env, b, s, k, 2) && k < 10 + 2 * b
    ensures NextRound(env, b, s, k) && LoopInv(env, Iterate(env, s).s, at)
    ensures RunLoop(env, s, at) == RunLoop(env, Iterate(env, s).s, at)
  {
    if k < 2 {
      GarbledRound(env, b, s, k);
    } else if LastOfStage(b, k - 2) {
      LastRound(env, b, s, k);
    } else {
      LargeRound(env, b, s, k);
    }
    LoopStep(env, s, at);
  }

  lemma {:induction false} RoundsToEnd(env: Env, b: nat, s: State, k: nat, i: nat, at: Origin)
    requires Follows(env, b) && LoopInv(env, s, at) && InRound(env, b, s, k, i) && k < 11 + 2 * b && i <= 2
    ensures RunLoop(env, s, at).0.repairCalls == 33 + 6 * b && RunLoop(env, s, at).1 == Failure
    decreases 11 + 2 * b - k, 2 - i
  {
    if i < 2 {
      FailedStep(env, b, s, k, i, at);
      RoundsToEnd(env, b, Iterate(env, s).s, k, i + 1, at);
    } else if k < 10 + 2 * b {
      ThirdStep(env, b, s, k, at);
      RoundsToEnd(env, b, Iterate(env, s).s, k + 1, 0, at);
    } else {
      FinalRound(env, b, s, k);
      LastIteration(env, s, at);
    }
  }

  // ---------------------------------------------------------------- the whole run

  /** The first verification, of the RTL the generation wrote. */
  lemma FirstRun(env: Env, b: nat, s: State)
    requires Follows(env, b) && FreshCandidate(env, s) && s.guidance == None && s.history == []
    requires s.repairCalls == 0 && s.verifierCalls == 0 && s.parseAttempts == 0 && forall j :: Spent(s, j) == 0
    ensures Iterate(env, s).Continue? && InRound(env, b, Iterate(env, s).s, 0, 0)
  {
    assert env.verify(0) == VerdictAt(0) == FailsKeeping(Compile);
    FailedRun(env, s, Compile);
    NothingSpent(b, s);
  }

  lemma NothingSpent(b: nat, s: State)
    requires forall j :: Spent(s, j) == 0
    ensures SpentAll(b, s.spent, 0)
  {
    forall j ensures Used(s.spent, j) == SpentAt(b, 0, j) { assert Spent(s, j) == 0; }
  }

  /** For every repair budget there is an environment with well-formed answers in which the run makes exactly
      as many repair calls as the bound allows. */
  lemma BoundAttained(b: nat, r: Recorder<Payload>, at: Origin, log: Log<Payload>)
    requires Chained(r.h, log, at.genesis)
    ensures WellFormedAnswers(BoundEnv(b, r))
    ensures var end := Pipeline(BoundEnv(b, r), at, log);
      end.0.repairCalls == MaxRepairCalls(BoundEnv(b, r)) == 33 + 6 * b && end.1 == Failure
  {
    var env := BoundEnv(b, r);
    BoundEnvFollows(b, r);
    BoundRun(env, b, r, at, log);
  }

  lemma BoundRun(env: Env, b: nat, r: Recorder<Payload>, at: Origin, log: Log<Payload>)
    requires env == BoundEnv(b, r) && Follows(env, b) && Chained(r.h, log, at.genesis)
    ensures Pipeline(env, at, log).0.repairCalls == 33 + 6 * b && Pipeline(env, at, log).1 == Failure
  {
    ScriptedPrelude(env, at, log);
    PipelineFromLoop(env, at, log);
    var s := Prelude(env, at.numPredict, at.workspace, log).s;
    FirstRun(env, b, s);
    LoopStep(env, s, at);
    RoundsToEnd(env, b, Iterate(env, s).s, 0, 0, at);
  }
}
