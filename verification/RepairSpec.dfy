/** The silicon pipeline as a state machine (`run_silicon_pipeline` in src/mind3/core/driver.py): one
    function per stage, driven by arbitrary answers of the model, the verifier and the file system. */
module RepairSpec {
  import opened Options
  import opened TraceLog
  import opened Workspace
  import opened Chars
  import RtlIdentity

  const PARSE_MAX_ATTEMPTS := 3
  const PARSE_NUM_PREDICT_CAP := 16384

  const CALL_FAILURE := "REPAIR_CALL_FAILURE"
  const UNCHANGED := "UNCHANGED_CANDIDATE"
  const PARSE_FAILURE := "RESPONSE_PARSE_FAILURE"
  const TOO_LARGE := "REPAIR_PATCH_TOO_LARGE"

  datatype Stage = Compile | Simulation | Formal | Timing | Other

  // ---------------------------------------------------------------- what the trail tells

  /** The roles the trail names: Lead Silicon Architect, Verification Lead, Principal RTL Design Engineer,
      Independent RTL Verification Repair Engineer, and the older Targeted RTL Repair Loop. */
  datatype Role = Architect | HarnessLead | Designer | Repairer | LegacyRepairer

  datatype Status = RolledBack | AbortedNonRepairable | SiliconVerified | VerifiedSuccess

  /** What the events of the pipeline tell, reduced to the entries some reader of the trail looks at. */
  datatype Payload =
    | Note(text: string)
    | ArchitectResult(error: Option<string>)
    | Request(role: Role, guidance: string)
    | Wrote(role: Role, content: string, fileRecord: string)
    | Checked(passed: bool, category: Option<string>, reason: Option<string>)
    | Finished(status: Status, failureCategory: Option<string>)

  // ---------------------------------------------------------------- answers from outside

  /** A model call: it raises, or returns text and possibly fresh truncation accounting. */
  datatype ModelAnswer = CallFailed(exc: string) | Response(raw: string, truncated: Option<bool>)

  datatype ParseResult = Parsed(code: string) | Unparseable(error: string)

  /** A verifier run: it raises, or returns a verdict and leaves the workspace as `files` says.
      `prompt` is the repair prompt built from the evidence; `evidenceValid` says whether the evidence
      fields other than the attempt number pass validation. */
  datatype VerifyAnswer =
    | Crashed
    | Verdict(passed: bool, silicon: bool, category: Option<string>, reason: Option<string>,
              gate: string, prompt: string, evidenceValid: bool, files: Tree)

  /** A file write: done, or failed. A write truncates the file first, so one that fails may leave the file as it
      was, or holding some other text. */
  datatype WriteAnswer = Written(record: string) | WriteFailed(exc: string, left: Option<string>)

  /** The batch of harness files: all written, or failed with some of them changed. */
  datatype StagingAnswer = AllStaged | StagingFailed(left: Tree)

  datatype ArchitectAnswer = Rejected(exc: string) | Inconsistent(violations: string) | Accepted

  datatype HarnessAnswer = HarnessBuilt | UnverifiableProperty(exc: string) | VacuousProperties(exc: string)

  /** Prompt texts the loop hands back to the model. */
  datatype Notice =
    | GenerationFailed(exc: string)
    | InvocationFailed(exc: string)
    | ParseRetry(error: string, truncated: bool)
    | Unchanged(previous: string)
    | PatchTooLarge
    | FileWriteFailed(exc: string)
    | Evidence(prompt: string, resubmitted: bool)

  datatype Env = Env(
    maxRepairs: int,
    skipUnchanged: bool,
    regenerate: bool,
    moduleName: string,
    recorder: Recorder<Payload>,
    sha: string -> Digest,
    say: Notice -> string,
    parse: (string, Option<string>) -> ParseResult,
    tooLarge: (string, string) -> bool,
    contractGiven: bool,
    architect: nat -> ArchitectAnswer,
    harness: HarnessAnswer,
    harnessFiles: map<string, string>,
    staging: StagingAnswer,
    generate: nat -> ModelAnswer,
    generationEvidenceValid: bool,
    firstWrite: WriteAnswer,
    repair: nat -> ModelAnswer,
    write: nat -> WriteAnswer,
    verify: nat -> VerifyAnswer)

  // ---------------------------------------------------------------- state

  /** What became of a repair response: never written, written as `code`, or lost to a failed write. */
  datatype Fate = NotWritten | Executed(code: string, record: string) | Lost

  /** Bookkeeping for the statements below, one entry per repair response the model returned: what was
      asked, what came back, and what became of it. The driver itself keeps only the raw texts. The other
      bookkeeping field, `given`, is the workspace that was handed to the latest verifier run. */
  datatype Served = Served(turn: nat, guidance: string, raw: string, fate: Fate)

  datatype State = State(
    turn: nat,
    repairCalls: nat,
    verifierCalls: nat,
    parseAttempts: nat,
    lastFailureWasParse: bool,
    spent: map<Stage, nat>,
    rawInitial: seq<string>,
    rawRepairs: seq<string>,
    truncated: bool,
    numPredict: int,
    unchangedCount: nat,
    history: seq<string>,
    guidance: Option<string>,
    pending: Stage,
    workspace: Tree,
    snapshot: Option<Tree>,
    log: Log<Payload>,
    given: Tree,
    served: seq<Served>)

  datatype Result = Success | Failure | Raised

  datatype Outcome = Continue(s: State) | Done(s: State, result: Result)

  function Used(spent: map<Stage, nat>, k: Stage): nat { if k in spent then spent[k] else 0 }

  function Spent(s: State, k: Stage): nat { Used(s.spent, k) }

  function Limit(env: Env, k: Stage): int {
    match k
    case Compile => 3
    case Simulation => 3
    case Formal => 3
    case _ => env.maxRepairs
  }

  function Spend(s: State, k: Stage): State { s.(spent := s.spent[k := Spent(s, k) + 1]) }

  function RtlFile(env: Env): string { env.moduleName + ".sv" }

  function CurrentRtl(env: Env, s: State): string { ReadText(s.workspace, RtlFile(env)) }

  /** The audit trail is a valid hash chain. */
  ghost predicate Audited(env: Env, s: State, genesis: Digest) {
    Chained(env.recorder.h, s.log, genesis)
  }

  function EmitTrace(env: Env, s: State, phase: Phase, payload: Payload): (r: State)
    ensures forall genesis :: Chained(env.recorder.h, s.log, genesis) ==> Chained(env.recorder.h, r.log, genesis)
  {
    assert forall genesis :: Chained(env.recorder.h, s.log, genesis) ==>
             Chained(env.recorder.h, Emit(env.recorder, s.log, phase, s.turn, payload), genesis) by {
      forall genesis | Chained(env.recorder.h, s.log, genesis)
        ensures Chained(env.recorder.h, Emit(env.recorder, s.log, phase, s.turn, payload), genesis)
      {
        EmitKeepsChain(env.recorder, s.log, phase, s.turn, payload, genesis);
      }
    }
    s.(log := Emit(env.recorder, s.log, phase, s.turn, payload))
  }

  function Remember(s: State, what: string): State { s.(history := s.history + [what]) }

  /** Truncation accounting of a returned call (`_record_decode_event`). */
  function Account(s: State, truncated: Option<bool>): State {
    if truncated.Some? then s.(truncated := truncated.value) else s
  }

  /** `_maybe_bump_for_truncation`. */
  function Bump(s: State): State {
    if s.truncated && s.numPredict < PARSE_NUM_PREDICT_CAP
    then s.(numPredict := if s.numPredict * 2 < PARSE_NUM_PREDICT_CAP then s.numPredict * 2 else PARSE_NUM_PREDICT_CAP)
    else s
  }

  function CreateSnapshot(s: State): State { s.(snapshot := Some(Outside(s.workspace))) }

  function Restore(s: State): State {
    if s.snapshot.Some? then s.(workspace := Restored(s.workspace, s.snapshot.value)) else s
  }

  /** Restore the snapshot, report, give up. */
  function Rollback(env: Env, s: State, status: Status, category: Option<string>): Outcome {
    Done(EmitTrace(env, Restore(s), RepairOrFinish, Finished(status, category)), Failure)
  }

  function EmitCheck(env: Env, s: State, category: string, reason: string): State {
    EmitTrace(env, s, Verify, Checked(false, Some(category), Some(reason)))
  }

  // ---------------------------------------------------------------- failure categories

  predicate NonRepairable(category: string) {
    category in {"EDA_BINARY_MISSING", "TIMING_REPORT_UNPARSEABLE", "MISSING_SOURCE_FILES", "MISSING_NETLIST_FOR_PNR",
                 "MISSING_LIBERTY_FOR_PNR", "CDC_ANALYSIS_FAILED", "CDC_TOOLING_UNAVAILABLE", "CDC_INCONCLUSIVE",
                 "CDC_CHECKER_ERROR", "NO_GENUINE_PROPERTY", "SPECIFICATION_ERROR", "ENVIRONMENT_FAILURE"}
  }

  function StageFor(category: string, gate: string): Stage {
    if category in {"SYNTAX_ERROR", "INTERFACE_ERROR", "TYPE_WIDTH_ERROR", "CLOCK_RESET_ERROR", "LATCH_INFERRED",
                    "COMBINATIONAL_LOOP", "RTL_SYNTAX_ERROR", "RTL_SEMANTIC_ERROR", "RESPONSE_PARSE_FAILURE",
                    "EDA_BINARY_MISSING"} then Compile
    else if "SIMULATION" <= category || "COVERAGE" <= category ||
            (category == "MISSING_VERIFICATION_ARTIFACT" && Contains(gate, "Gate 3")) then Simulation
    else if Contains(category, "FORMAL") || category in {"UNSUPPORTED_FORMAL_PROPERTY", "EMPTY_FORMAL_PROPERTY_SET"} then Formal
    else if Contains(category, "TIMING") then Timing
    else Other
  }

  function CategoryOf(category: Option<string>): string {
    if category.Some? && category.value != "" then category.value else "UNKNOWN_ERROR"
  }

  predicate EndsWithFailures(history: seq<string>) {
    |history| >= 3 && history[|history| - 3..] == [CALL_FAILURE, CALL_FAILURE, CALL_FAILURE]
  }

  predicate RecentlyUnchanged(history: seq<string>) {
    exists i :: (if |history| > 2 then |history| - 2 else 0) <= i < |history| && history[i] == UNCHANGED
  }

  // ---------------------------------------------------------------- one repair turn

  /** A file of a workspace holds exactly this RTL. */
  predicate Holds(env: Env, ws: Tree, code: string) {
    RtlFile(env) in ws && ws[RtlFile(env)] == File(Terminated(code))
  }

  /** The RTL was parsed from a text the model returned in this run. */
  ghost predicate FromModel(env: Env, s: State, code: string) {
    exists raw, current :: Offers(env, s, raw, current, code)
  }

  ghost predicate Offers(env: Env, s: State, raw: string, current: Option<string>, code: string) {
    env.parse(raw, current) == Parsed(code) && (raw in s.rawInitial || raw in s.rawRepairs)
  }

  /** The last thing on record is that `code` was written, and it is what the workspace holds. */
  ghost predicate OnDisk(env: Env, s: State, code: string) {
    s.log.records != [] &&
    var last := s.log.records[|s.log.records| - 1].event;
    && last.phase == Execute && last.payload.Wrote? && last.payload.role in {Designer, Repairer}
    && last.payload.content == code && Holds(env, s.workspace, code)
  }

  /** The last thing on record is a candidate of the model's that was written, and the workspace holds it. */
  ghost predicate FreshCandidate(env: Env, s: State) {
    exists code :: OnDisk(env, s, code) && FromModel(env, s, code)
  }

  /** Handling a response stashes no other. */
  ghost predicate SameRaws(s: State, t: State) { s.rawInitial == t.rawInitial && s.rawRepairs == t.rawRepairs }

  /** What a repair turn leads to: the verifier, the next iteration, or the end. */
  datatype Flow = ToVerifier(s: State) | Again(s: State) | Stop(s: State, result: Result)

  function Halt(o: Outcome): Flow
    requires o.Done?
  {
    Stop(o.s, o.result)
  }

  predicate ParseBudgetGone(s: State) { s.parseAttempts >= PARSE_MAX_ATTEMPTS }

  function RepairTurn(env: Env, s: State, guidance: string): (f: Flow)
    ensures f.ToVerifier? ==> FreshCandidate(env, f.s) && f.s.guidance == None
  {
    if ParseBudgetGone(s) || (s.lastFailureWasParse && ParseBudgetGone(s)) then
      Halt(Rollback(env, s, RolledBack, Some(PARSE_FAILURE)))
    else if Spent(s, s.pending) + 1 > Limit(env, s.pending) then
      Halt(Rollback(env, s, RolledBack, None))
    else CallModel(env, s, guidance)
  }

  /** The request is counted and put on record before the model is called. */
  function Ask(env: Env, s: State, guidance: string): State {
    EmitTrace(env, s.(turn := s.turn + 1, repairCalls := s.repairCalls + 1), ModelCall, Request(Repairer, guidance))
  }

  lemma AnswerOnDisk(env: Env, s: State, t: State, raw: string, current: Option<string>)
    requires raw in s.rawRepairs && env.parse(raw, current).Parsed?
    requires OnDisk(env, t, env.parse(raw, current).code) && SameRaws(s, t)
    ensures FreshCandidate(env, t)
  {
    assert Offers(env, t, raw, current, env.parse(raw, current).code);
  }

  function CallModel(env: Env, s: State, guidance: string): (f: Flow)
    ensures f.ToVerifier? ==> FreshCandidate(env, f.s) && f.s.guidance == None
  {
    match env.repair(s.repairCalls)
    case CallFailed(exc) => CallLost(env, Ask(env, s, guidance), exc)
    case Response(raw, truncated) =>
      var heard := Hear(Ask(env, s, guidance), guidance, raw, truncated);
      var f := React(env, heard, guidance, CurrentRtl(env, s), raw);
      assert f.ToVerifier? ==> FreshCandidate(env, f.s) by {
        if f.ToVerifier? { AnswerOnDisk(env, heard, f.s, raw, Context(env, CurrentRtl(env, s))); }
      }
      f
  }

  function CallLost(env: Env, s: State, exc: string): (f: Flow)
    ensures !f.ToVerifier?
  {
    var failed := Remember(s, CALL_FAILURE);
    if EndsWithFailures(failed.history) then Halt(Rollback(env, failed, RolledBack, Some("MODEL_CALL_FAILURE")))
    else Again(failed.(guidance := Some(env.say(InvocationFailed(exc)))))
  }

  /** A response may be an edit of the current text, unless the whole module is asked for. */
  function Context(env: Env, current: string): Option<string> { if env.regenerate then None else Some(current) }

  /** The response is stashed before it is looked at. */
  function Hear(s: State, guidance: string, raw: string, truncated: Option<bool>): State {
    Account(s, truncated).(rawRepairs := s.rawRepairs + [raw],
                           served := s.served + [Served(s.turn, guidance, raw, NotWritten)])
  }

  function React(env: Env, s: State, guidance: string, current: string, raw: string): (f: Flow)
    ensures f.ToVerifier? ==>
              match env.parse(raw, Context(env, current))
              case Parsed(code) => OnDisk(env, f.s, code) && SameRaws(s, f.s) && f.s.guidance == None
              case Unparseable(_) => false
  {
    match env.parse(raw, Context(env, current))
    case Unparseable(error) => ParseFailed(env, s, error)
    case Parsed(code) =>
      Judge(env, s, guidance, code, SameCandidate(current, code), Skips(env, current, code), TooLarge(env, current, code))
  }

  /** An unparseable response is charged to the parse budget and put on record. */
  function ChargeParse(env: Env, s: State, error: string): State {
    EmitCheck(env, Remember(s.(parseAttempts := s.parseAttempts + 1), PARSE_FAILURE), PARSE_FAILURE, error)
  }

  function ParseFailed(env: Env, s: State, error: string): (f: Flow)
    ensures !f.ToVerifier?
  {
    var failed := ChargeParse(env, s, error);
    if ParseBudgetGone(failed) then Halt(Rollback(env, failed, RolledBack, Some(PARSE_FAILURE)))
    else Again(RetryParse(env, Bump(failed), error))
  }

  function RetryParse(env: Env, s: State, error: string): State {
    s.(guidance := Some(env.say(ParseRetry(error, s.truncated))), lastFailureWasParse := true)
  }

  /** `_candidate_identity`: byte equality or equal wide normal forms. */
  predicate SameCandidate(current: string, code: string) {
    current != "" && (current == code || RtlIdentity.Wide(current) == RtlIdentity.Wide(code))
  }

  /** `_rtl_identity_hash` equality, guarded by the flag. */
  predicate Skips(env: Env, current: string, code: string) {
    current != "" && env.skipUnchanged &&
    env.sha(RtlIdentity.Narrow(current)) == env.sha(RtlIdentity.Narrow(code))
  }

  /** The change-size rejection, off in regeneration mode and for an absent current text. */
  predicate TooLarge(env: Env, current: string, code: string) {
    !env.regenerate && current != "" && env.tooLarge(current, code)
  }

  /** A parsed candidate, compared with the current text, pays one unit of its stage's budget. */
  function Pay(s: State, same: bool): State {
    var clean := s.(lastFailureWasParse := false);
    Spend(if same then Remember(clean.(unchangedCount := clean.unchangedCount + 1), UNCHANGED) else clean, s.pending)
  }

  /** `same`, `skip` and `large` are the three comparisons of the candidate with the current text. */
  function Judge(env: Env, s: State, guidance: string, code: string, same: bool, skip: bool, large: bool): (f: Flow)
    ensures f.ToVerifier? ==> OnDisk(env, f.s, code) && SameRaws(s, f.s) && f.s.guidance == None
  {
    var paid := Pay(s, same);
    if skip then Skip(env, paid, guidance)
    else if large then
      var big := Remember(paid, TOO_LARGE);
      Again(EmitCheck(env, big.(guidance := Some(env.say(PatchTooLarge))), TOO_LARGE, "change budget"))
    else Write(env, paid, code)
  }

  function Skip(env: Env, s: State, guidance: string): (f: Flow)
    ensures !f.ToVerifier?
  {
    var seen := EmitCheck(env, Remember(s, UNCHANGED), "REPAIR_UNCHANGED_CANDIDATE", "unchanged");
    if Spent(seen, seen.pending) >= Limit(env, seen.pending) || ParseBudgetGone(seen) then
      Halt(Rollback(env, seen, RolledBack, Some("REPAIR_UNCHANGED_CANDIDATE")))
    else Again(seen.(guidance := Some(env.say(Unchanged(guidance)))))
  }

  function Write(env: Env, s: State, code: string): (f: Flow)
    ensures f.ToVerifier? ==> OnDisk(env, f.s, code) && SameRaws(s, f.s) && f.s.guidance == None
  {
    match env.write(s.repairCalls)
    case WriteFailed(exc, left) => Again(Missed(env, s, exc, left))
    case Written(record) => ToVerifier(Applied(env, s, code, record))
  }

  /** What a failed write makes of the workspace. */
  function LeftBehind(env: Env, ws: Tree, left: Option<string>): Tree {
    if left.Some? then ws[RtlFile(env) := File(left.value)] else ws
  }

  /** The candidate is not on disk, and the model is told. */
  function Missed(env: Env, s: State, exc: string, left: Option<string>): State {
    Remember(Mark(s, Lost), CALL_FAILURE)
      .(guidance := Some(env.say(FileWriteFailed(exc))), workspace := LeftBehind(env, s.workspace, left))
  }

  /** The candidate is on disk and on record. */
  function Applied(env: Env, s: State, code: string, record: string): State {
    EmitTrace(env, Stored(env, s, code, record), Execute, Wrote(Repairer, code, record)).(guidance := None)
  }

  function Stored(env: Env, s: State, code: string, record: string): State {
    Mark(s, Executed(code, record)).(workspace := WriteFile(s.workspace, RtlFile(env), code))
  }

  /** Record the fate of the response being handled. */
  function Mark(s: State, fate: Fate): State {
    if s.served == [] then s else
    var n := |s.served| - 1;
    s.(served := s.served[n := s.served[n].(fate := fate)])
  }

  // ---------------------------------------------------------------- one verifier run

  /** One call of the verifier: only ever made on a freshly written candidate. */
  function RunVerifier(env: Env, s: State): Outcome
    requires FreshCandidate(env, s)
  {
    var v := env.verify(s.verifierCalls);
    if v.Crashed? then Done(s.(verifierCalls := s.verifierCalls + 1, given := s.workspace), Raised)
    else Conclude(env, Examined(env, s, v.files, v.passed, v.category, v.reason), v)
  }

  function Conclude(env: Env, s: State, v: VerifyAnswer): Outcome
    requires v.Verdict?
  {
    if v.passed then Accept(env, s, v.silicon)
    else Diagnose(env, s, CategoryOf(v.category), NonRepairable(CategoryOf(v.category)),
                  StageFor(CategoryOf(v.category), v.gate), Evidence(v.prompt, RecentlyUnchanged(s.history)), v.evidenceValid)
  }

  /** The verifier has run: it may have changed anything outside the driver's directory. */
  function Ran(s: State, files: Tree): State {
    s.(verifierCalls := s.verifierCalls + 1, given := s.workspace, workspace := Restored(s.workspace, Outside(files)))
  }

  function Examined(env: Env, s: State, files: Tree, passed: bool, category: Option<string>, reason: Option<string>): State {
    EmitTrace(env, Ran(s, files), Verify, Checked(passed, category, reason))
  }

  function Accept(env: Env, s: State, silicon: bool): Outcome {
    var status := if silicon then SiliconVerified else VerifiedSuccess;
    var purged := EmitTrace(env, s.(snapshot := None), RepairOrFinish, Finished(status, None));
    Done(EmitTrace(env, purged, Trace, Note("final_status")), Success)
  }

  function Diagnose(env: Env, s: State, category: string, hopeless: bool, stage: Stage, notice: Notice,
                    evidenceValid: bool): Outcome
  {
    if hopeless then Rollback(env, s, AbortedNonRepairable, Some(category))
    else if Spent(s, stage) >= Limit(env, stage) then Rollback(env, s, RolledBack, Some(category))
    else if !evidenceValid || !AttemptValid(Spent(s, stage) + 1) then Done(s, Raised)
    else Continue(Remember(s.(guidance := Some(env.say(notice)), pending := stage, lastFailureWasParse := false), category))
  }

  /** The bound of `VerificationFailureEvidence.attempt`. */
  predicate AttemptValid(attempt: int) { 1 <= attempt <= 3 }

  // ---------------------------------------------------------------- one loop iteration

  function Iterate(env: Env, s: State): Outcome
    requires s.guidance == None ==> FreshCandidate(env, s)
  {
    match s.guidance
    case None => RunVerifier(env, s)
    case Some(guidance) =>
      match RepairTurn(env, s, guidance)
      case ToVerifier(s') => RunVerifier(env, s')
      case Again(s') => Continue(s')
      case Stop(s', result) => Done(s', result)
  }

  // ---------------------------------------------------------------- before the loop

  function UnspentBudgets(): map<Stage, nat> {
    map[Compile := 0, Simulation := 0, Formal := 0, Timing := 0, Other := 0]
  }

  /** The driver after its reset: the completion budget, the workspace and the trail carry over. */
  function Blank(numPredict: int, workspace: Tree, log: Log<Payload>): State {
    State(0, 0, 0, 0, false, UnspentBudgets(), [], [], false, numPredict, 0, [], None, Compile, workspace, None, log, map[], [])
  }

  /** Reset, announce, take the snapshot. */
  function Begin(env: Env, numPredict: int, workspace: Tree, log: Log<Payload>): State {
    var s := Blank(numPredict, workspace, log);
    var announced := EmitTrace(env, EmitTrace(env, s, Intake, Note("task")), Route, Note("contract_first_compile_first"));
    EmitTrace(env, CreateSnapshot(announced), Phase.Snapshot, Note("items"))
  }

  /** One architect call: ask again, or settle the contract stage. */
  datatype Attempt = Retry(s: State) | Settled(o: Outcome)

  function AskArchitect(env: Env, s: State, attempt: nat): Attempt {
    var asked := EmitTrace(env, s, ModelCall, Note("contract_synthesis"));
    match env.architect(attempt)
    case Rejected(exc) => Retry(EmitTrace(env, asked, Parse, ArchitectResult(Some(exc))))
    case Inconsistent(violations) =>
      if attempt == 0 then Retry(EmitTrace(env, asked, Parse, ArchitectResult(Some(violations))))
      else Settled(RejectContract(env, EmitTrace(env, asked, Parse, ArchitectResult(None)), violations))
    case Accepted => Settled(Continue(EmitTrace(env, asked, Parse, ArchitectResult(None))))
  }

  /** The contract stage: at most two architect calls, none when the contract is given. */
  function AgreeContract(env: Env, s: State): Outcome {
    if env.contractGiven then Continue(EmitTrace(env, s, Parse, ArchitectResult(None))) else
    var first := AskArchitect(env, s, 0);
    if first.Settled? then first.o else
    var second := AskArchitect(env, first.s, 1);
    if second.Settled? then second.o else Done(Restore(second.s), Failure)
  }

  /** A contract that stays inconsistent is accepted on record and then refused. */
  function RejectContract(env: Env, s: State, violations: string): Outcome {
    Rollback(env, EmitCheck(env, s, "SPECIFICATION_ERROR", violations), AbortedNonRepairable, Some("SPECIFICATION_ERROR"))
  }

  /** The verification artifacts derived from the contract. */
  function StageHarness(env: Env, s: State): Outcome {
    match env.harness
    case UnverifiableProperty(exc) =>
      Rollback(env, EmitCheck(env, s, "UNSUPPORTED_FORMAL_PROPERTY", exc), AbortedNonRepairable,
               Some("UNSUPPORTED_FORMAL_PROPERTY"))
    case VacuousProperties(exc) =>
      Rollback(env, EmitCheck(env, s, "NO_GENUINE_PROPERTY", exc), AbortedNonRepairable, Some("NO_GENUINE_PROPERTY"))
    case HarnessBuilt =>
      if env.staging.StagingFailed? then Done(s.(workspace := s.workspace + Outside(env.staging.left)), Raised) else
      var staged := s.(workspace := s.workspace + StagedFiles(env));
      Continue(EmitTrace(env, EmitTrace(env, staged, Execute, Wrote(HarnessLead, "", "")), ModelCall, Note("rtl_generation")))
  }

  /** The harness files; the policy check keeps them out of the driver's own directory. */
  function StagedFiles(env: Env): Tree {
    map name | name in env.harnessFiles && name != MIND :: File(Terminated(env.harnessFiles[name]))
  }

  /** First RTL: retried while responses do not parse and the parse budget lasts. */
  function GenerateRtl(env: Env, s: State): Outcome
    decreases PARSE_MAX_ATTEMPTS - s.parseAttempts
  {
    match env.generate(|s.rawInitial|)
    case CallFailed(exc) => GenerationGivesUp(env, s, exc)
    case Response(raw, truncated) =>
      var got := Account(s, truncated).(rawInitial := s.rawInitial + [raw]);
      match env.parse(raw, None)
      case Parsed(code) => PlaceFirst(env, got, code)
      case Unparseable(error) =>
        var failed := FirstParseFailed(env, got, error);
        if ParseBudgetGone(failed) then GenerationGivesUp(env, failed, error) else GenerateRtl(env, failed)
  }

  function PlaceFirst(env: Env, s: State, code: string): Outcome {
    match env.firstWrite
    case WriteFailed(exc, left) => GenerationGivesUp(env, s.(workspace := LeftBehind(env, s.workspace, left)), exc)
    case Written(record) => Continue(FirstRtl(env, s, code, record))
  }

  function FirstRtl(env: Env, s: State, code: string, record: string): State {
    EmitTrace(env, s.(workspace := WriteFile(s.workspace, RtlFile(env), code)), Execute, Wrote(Designer, code, record))
  }

  function FirstParseFailed(env: Env, s: State, error: string): State {
    EmitCheck(env, Bump(s.(parseAttempts := s.parseAttempts + 1)), PARSE_FAILURE, error)
  }

  function GenerationGivesUp(env: Env, s: State, exc: string): Outcome {
    if !env.generationEvidenceValid then Done(s, Raised)
    else
      Continue(EmitCheck(env, s.(guidance := Some(env.say(GenerationFailed(exc))), lastFailureWasParse := true), PARSE_FAILURE, exc))
  }

  /** Everything up to the repair loop. */
  function Prelude(env: Env, numPredict: int, workspace: Tree, log: Log<Payload>): Outcome {
    var contract := AgreeContract(env, Begin(env, numPredict, workspace, log));
    if contract.Done? then contract else
    var harness := StageHarness(env, contract.s);
    if harness.Done? then harness else
    GenerateRtl(env, harness.s)
  }
}
