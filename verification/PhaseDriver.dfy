/** The driver object itself: fields updated in place, the snapshot copied file by file, and the repair loop
    as a loop, each method refining its stage of `RepairSpec` and the whole call refining `RepairRun.Pipeline`. */
module PhaseDriver {
  import opened Options
  import opened TraceLog
  import opened Workspace
  import opened RepairSpec
  import opened RepairRun

  /** How a turn goes on: verify the candidate, take another turn, or leave the loop. */
  datatype Next = Check | Turn | Leave(result: Result)

  ghost predicate Flows(f: Flow, now: State, next: Next) {
    match f
    case ToVerifier(s) => now == s && next == Check
    case Again(s) => now == s && next == Turn
    case Stop(s, result) => now == s && next == Leave(result)
  }

  ghost predicate Results(o: Outcome, now: State, next: Next) {
    match o
    case Continue(s) => now == s && next == Turn
    case Done(s, result) => now == s && next == Leave(result)
  }

  class PhaseDriver {
    const env: Env
    var turn: nat
    var totalRepairCalls: nat
    var verifierRuns: nat
    var parseAttempts: nat
    var lastFailureWasParse: bool
    var stageRepairAttempts: map<Stage, nat>
    var rawInitialResponses: seq<string>
    var rawRepairResponses: seq<string>
    var outputTruncated: bool
    var decodeNumPredict: int
    var unchangedRepairCount: nat
    var repairHistory: seq<string>
    var repairGuidance: Option<string>
    var pendingStage: Stage
    var workspace: Tree
    var snapshotDir: Option<Tree>
    var transcript: seq<TraceRecord<Payload>>
    var prevHash: Digest
    var stepIndex: nat
    ghost var given: Tree
    ghost var served: seq<Served>

    ghost function Now(): State
      reads this
    {
      State(turn, totalRepairCalls, verifierRuns, parseAttempts, lastFailureWasParse, stageRepairAttempts,
            rawInitialResponses, rawRepairResponses, outputTruncated, decodeNumPredict, unchangedRepairCount,
            repairHistory, repairGuidance, pendingStage, workspace, snapshotDir, Log(transcript, prevHash, stepIndex),
            given, served)
    }

    constructor (env: Env, numPredict: int, workspace: Tree, genesis: Digest)
      ensures this.env == env && this.workspace == workspace && decodeNumPredict == numPredict
      ensures Log(transcript, prevHash, stepIndex) == Log([], genesis, 0)
    {
      this.env := env;
      turn, totalRepairCalls, verifierRuns, parseAttempts := 0, 0, 0, 0;
      lastFailureWasParse, outputTruncated, unchangedRepairCount := false, false, 0;
      stageRepairAttempts := map[];
      rawInitialResponses, rawRepairResponses, repairHistory := [], [], [];
      repairGuidance, pendingStage, snapshotDir := None, Compile, None;
      decodeNumPredict, this.workspace := numPredict, workspace;
      transcript, prevHash, stepIndex := [], genesis, 0;
      given, served := map[], [];
    }

    // -------------------------------------------------------------- trace and snapshot

    method EmitTrace(phase: Phase, payload: Payload)
      modifies this
      ensures Now() == RepairSpec.EmitTrace(env, old(Now()), phase, payload)
    {
      var r := env.recorder;
      var attestation := if r.attest.Some? then Some(r.attest.value(r.session, turn, stepIndex, prevHash)) else None;
      var event := Event(r.session, phase, turn, payload, attestation, r.clock(stepIndex));
      var currentHash := r.h(prevHash, Body(stepIndex, phase, prevHash, event));
      transcript := transcript + [TraceRecord(stepIndex, phase, prevHash, currentHash, event)];
      prevHash := currentHash;
      stepIndex := stepIndex + 1;
    }

    /** Mirror every top-level entry but the driver's own directory, in whatever order they are listed. */
    method CreateSnapshot()
      modifies this`snapshotDir
      ensures Now() == RepairSpec.CreateSnapshot(old(Now()))
    {
      var copy: Tree := map[];
      var names := workspace.Keys;
      while names != {}
        invariant names <= workspace.Keys
        invariant copy == map name | name in workspace && name !in names && name != MIND :: workspace[name]
      {
        var name :| name in names;
        if name != MIND {
          CopyNodeSame(workspace[name]);
          copy := copy[name := CopyNode(workspace[name])];
        }
        names := names - {name};
      }
      assert copy == Outside(workspace);
      snapshotDir := Some(copy);
    }

    method ClearWorkspace()
      modifies this`workspace
      ensures workspace == map name | name in old(workspace) && name == MIND :: old(workspace)[name]
    {
      var before := workspace;
      var names := workspace.Keys;
      while names != {}
        invariant names <= before.Keys
        invariant workspace == map name | name in before && (name in names || name == MIND) :: before[name]
      {
        var name :| name in names;
        if name != MIND { workspace := workspace - {name}; }
        names := names - {name};
      }
    }

    method CopyBack(snapshot: Tree)
      modifies this`workspace
      ensures workspace == old(workspace) + snapshot
    {
      var before := workspace;
      var names := snapshot.Keys;
      while names != {}
        invariant names <= snapshot.Keys
        invariant workspace.Keys == before.Keys + (snapshot.Keys - names)
        invariant forall name :: name in workspace.Keys ==>
          workspace[name] == if name in snapshot && name !in names then snapshot[name] else before[name]
      {
        var name :| name in names;
        CopyNodeSame(snapshot[name]);
        workspace := workspace[name := CopyNode(snapshot[name])];
        names := names - {name};
      }
      assert workspace.Keys == (before + snapshot).Keys;
    }

    /** Delete every top-level entry but the driver's own directory, then copy the snapshot back. Without a
        snapshot directory the source raises: `ok` is false and nothing has changed. */
    method RestoreSnapshot() returns (ok: bool)
      modifies this`workspace
      ensures ok == snapshotDir.Some?
      ensures Now() == Restore(old(Now()))
    {
      if snapshotDir.None? { return false; }
      ClearWorkspace();
      CopyBack(snapshotDir.value);
      return true;
    }

    method MaybeBumpForTruncation()
      modifies this`decodeNumPredict
      ensures Now() == Bump(old(Now()))
    {
      if outputTruncated && decodeNumPredict < PARSE_NUM_PREDICT_CAP {
        decodeNumPredict := Min(PARSE_NUM_PREDICT_CAP, decodeNumPredict * 2);
      }
    }

    method RollBack(status: Status, category: Option<string>)
      modifies this
      ensures Now() == Rollback(env, old(Now()), status, category).s
    {
      var _ := RestoreSnapshot();
      EmitTrace(RepairOrFinish, Finished(status, category));
    }

    method EmitFailedCheck(category: string, reason: string)
      modifies this
      ensures Now() == EmitCheck(env, old(Now()), category, reason)
    {
      EmitTrace(Verify, Checked(false, Some(category), Some(reason)));
    }

    // -------------------------------------------------------------- one repair turn

    method CallLost(exc: string) returns (next: Next)
      modifies this
      ensures Flows(RepairSpec.CallLost(env, old(Now()), exc), Now(), next)
    {
      repairHistory := repairHistory + [CALL_FAILURE];
      if EndsWithFailures(repairHistory) {
        RollBack(RolledBack, Some("MODEL_CALL_FAILURE"));
        return Leave(Failure);
      }
      repairGuidance := Some(env.say(InvocationFailed(exc)));
      return Turn;
    }

    method ChargeFailedParse(error: string)
      modifies this
      ensures Now() == ChargeParse(env, old(Now()), error)
    {
      parseAttempts := parseAttempts + 1;
      repairHistory := repairHistory + [PARSE_FAILURE];
      EmitFailedCheck(PARSE_FAILURE, error);
    }

    method ParseFailed(error: string) returns (next: Next)
      modifies this
      ensures Flows(RepairSpec.ParseFailed(env, old(Now()), error), Now(), next)
    {
      ChargeFailedParse(error);
      if parseAttempts >= PARSE_MAX_ATTEMPTS {
        RollBack(RolledBack, Some(PARSE_FAILURE));
        return Leave(Failure);
      }
      MaybeBumpForTruncation();
      repairGuidance := Some(env.say(ParseRetry(error, outputTruncated)));
      lastFailureWasParse := true;
      return Turn;
    }

    method SkipUnchanged(guidance: string) returns (next: Next)
      modifies this
      ensures Flows(Skip(env, old(Now()), guidance), Now(), next)
    {
      repairHistory := repairHistory + [UNCHANGED];
      EmitFailedCheck("REPAIR_UNCHANGED_CANDIDATE", "unchanged");
      if Used(stageRepairAttempts, pendingStage) >= Limit(env, pendingStage) || parseAttempts >= PARSE_MAX_ATTEMPTS {
        RollBack(RolledBack, Some("REPAIR_UNCHANGED_CANDIDATE"));
        return Leave(Failure);
      }
      repairGuidance := Some(env.say(Unchanged(guidance)));
      return Turn;
    }

    method LeaveBehind(left: Option<string>)
      modifies this`workspace
      ensures workspace == LeftBehind(env, old(workspace), left)
    {
      if left.Some? { workspace := workspace[RtlFile(env) := File(left.value)]; }
    }

    method LoseCandidate(exc: string, left: Option<string>)
      modifies this
      ensures Now() == Missed(env, old(Now()), exc, left)
    {
      NoteLoss();
      LeaveBehind(left);
      repairGuidance := Some(env.say(FileWriteFailed(exc)));
    }

    method NoteLoss()
      modifies this
      ensures Now() == Remember(Mark(old(Now()), Lost), CALL_FAILURE)
    {
      served := Mark(Now(), Lost).served;
      repairHistory := repairHistory + [CALL_FAILURE];
    }

    method StoreCandidate(code: string, record: string)
      modifies this
      ensures Now() == Stored(env, old(Now()), code, record)
    {
      served := Mark(Now(), Executed(code, record)).served;
      workspace := WriteFile(workspace, RtlFile(env), code);
    }

    method PlaceCandidate(code: string, record: string)
      modifies this
      ensures Now() == Applied(env, old(Now()), code, record)
    {
      StoreCandidate(code, record);
      EmitTrace(Execute, Wrote(Repairer, code, record));
      repairGuidance := None;
    }

    method WriteCandidate(code: string) returns (next: Next)
      modifies this
      ensures Flows(RepairSpec.Write(env, old(Now()), code), Now(), next)
    {
      match env.write(totalRepairCalls)
      case WriteFailed(exc, left) =>
        LoseCandidate(exc, left);
        return Turn;
      case Written(record) =>
        PlaceCandidate(code, record);
        return Check;
    }

    method CountUnchanged()
      modifies this
      ensures Now() == Remember(old(Now()).(unchangedCount := old(Now()).unchangedCount + 1), UNCHANGED)
    {
      unchangedRepairCount := unchangedRepairCount + 1;
      repairHistory := repairHistory + [UNCHANGED];
    }

    method PayForCandidate(same: bool)
      modifies this
      ensures Now() == Pay(old(Now()), same)
    {
      lastFailureWasParse := false;
      if same { CountUnchanged(); }
      stageRepairAttempts := stageRepairAttempts[pendingStage := Used(stageRepairAttempts, pendingStage) + 1];
    }

    method RejectTooLarge()
      modifies this
      ensures Now() == EmitCheck(env, Remember(old(Now()), TOO_LARGE).(guidance := Some(env.say(PatchTooLarge))),
                                 TOO_LARGE, "change budget")
    {
      repairHistory := repairHistory + [TOO_LARGE];
      repairGuidance := Some(env.say(PatchTooLarge));
      EmitFailedCheck(TOO_LARGE, "change budget");
    }

    method JudgeCandidate(guidance: string, code: string, same: bool, skip: bool, large: bool) returns (next: Next)
      modifies this
      ensures Flows(Judge(env, old(Now()), guidance, code, same, skip, large), Now(), next)
    {
      PayForCandidate(same);
      if skip {
        next := SkipUnchanged(guidance);
      } else if large {
        RejectTooLarge();
        next := Turn;
      } else {
        next := WriteCandidate(code);
      }
    }

    method SendRequest(guidance: string)
      modifies this
      ensures Now() == Ask(env, old(Now()), guidance)
    {
      turn := turn + 1;
      totalRepairCalls := totalRepairCalls + 1;
      EmitTrace(ModelCall, Request(Repairer, guidance));
    }

    method StashResponse(guidance: string, raw: string, truncated: Option<bool>)
      modifies this
      ensures Now() == Hear(old(Now()), guidance, raw, truncated)
    {
      if truncated.Some? { outputTruncated := truncated.value; }
      rawRepairResponses := rawRepairResponses + [raw];
      served := served + [Served(turn, guidance, raw, NotWritten)];
    }

    method HandleResponse(guidance: string, current: string, raw: string) returns (next: Next)
      modifies this
      ensures Flows(React(env, old(Now()), guidance, current, raw), Now(), next)
    {
      match env.parse(raw, Context(env, current))
      case Unparseable(error) => next := ParseFailed(error);
      case Parsed(code) =>
        next := JudgeCandidate(guidance, code, SameCandidate(current, code), Skips(env, current, code),
                               TooLarge(env, current, code));
    }

    method CallModel(guidance: string, current: string) returns (next: Next)
      requires current == CurrentRtl(env, Now())
      modifies this
      ensures Flows(RepairSpec.CallModel(env, old(Now()), guidance), Now(), next)
    {
      var answer := env.repair(totalRepairCalls);
      SendRequest(guidance);
      match answer
      case CallFailed(exc) => next := CallLost(exc);
      case Response(raw, truncated) =>
        StashResponse(guidance, raw, truncated);
        next := HandleResponse(guidance, current, raw);
    }

    /** The body of the loop when a repair is due. */
    method RepairTurn(guidance: string) returns (next: Next)
      modifies this
      ensures Flows(RepairSpec.RepairTurn(env, old(Now()), guidance), Now(), next)
    {
      var current := ReadText(workspace, RtlFile(env));
      if parseAttempts >= PARSE_MAX_ATTEMPTS || (lastFailureWasParse && parseAttempts >= PARSE_MAX_ATTEMPTS) {
        RollBack(RolledBack, Some(PARSE_FAILURE));
        return Leave(Failure);
      }
      if Used(stageRepairAttempts, pendingStage) + 1 > Limit(env, pendingStage) {
        RollBack(RolledBack, None);
        return Leave(Failure);
      }
      next := CallModel(guidance, current);
    }

    // -------------------------------------------------------------- one verifier run

    method Guide(stage: Stage, notice: Notice)
      modifies this
      ensures Now() == old(Now()).(guidance := Some(env.say(notice)), pending := stage)
    {
      repairGuidance := Some(env.say(notice));
      pendingStage := stage;
    }

    method RequestRepair(category: string, stage: Stage, notice: Notice)
      modifies this
      ensures Now() == Remember(old(Now()).(guidance := Some(env.say(notice)), pending := stage, lastFailureWasParse := false),
                                category)
    {
      Guide(stage, notice);
      lastFailureWasParse := false;
      repairHistory := repairHistory + [category];
    }

    method DiagnoseFailure(category: string, hopeless: bool, stage: Stage, notice: Notice, evidenceValid: bool)
      returns (next: Next)
      modifies this
      ensures Results(Diagnose(env, old(Now()), category, hopeless, stage, notice, evidenceValid), Now(), next)
    {
      if hopeless {
        RollBack(AbortedNonRepairable, Some(category));
        return Leave(Failure);
      }
      if Used(stageRepairAttempts, stage) >= Limit(env, stage) {
        RollBack(RolledBack, Some(category));
        return Leave(Failure);
      }
      if !evidenceValid || !AttemptValid(Used(stageRepairAttempts, stage) + 1) { return Leave(Raised); }
      RequestRepair(category, stage, notice);
      return Turn;
    }

    method AcceptCandidate(silicon: bool)
      modifies this
      ensures Now() == Accept(env, old(Now()), silicon).s
    {
      snapshotDir := None;
      EmitTrace(RepairOrFinish, Finished(if silicon then SiliconVerified else VerifiedSuccess, None));
      EmitTrace(Phase.Trace, Note("final_status"));
    }

    /** A verifier run that comes back: whatever it did outside the driver's directory is done. */
    method TakeVerdict(files: Tree, passed: bool, category: Option<string>, reason: Option<string>)
      modifies this
      ensures Now() == Examined(env, old(Now()), files, passed, category, reason)
    {
      verifierRuns := verifierRuns + 1;
      given := workspace;
      workspace := Restored(workspace, Outside(files));
      assert Now() == Ran(old(Now()), files);
      EmitTrace(Verify, Checked(passed, category, reason));
    }

    method Conclude(v: VerifyAnswer) returns (next: Next)
      requires v.Verdict?
      modifies this
      ensures Results(RepairSpec.Conclude(env, old(Now()), v), Now(), next)
    {
      if v.passed {
        AcceptCandidate(v.silicon);
        return Leave(Success);
      }
      var category := CategoryOf(v.category);
      next := DiagnoseFailure(category, NonRepairable(category), StageFor(category, v.gate),
                              Evidence(v.prompt, RecentlyUnchanged(repairHistory)), v.evidenceValid);
    }

    method RunVerifier() returns (next: Next)
      requires FreshCandidate(env, Now())
      modifies this
      ensures Results(RepairSpec.RunVerifier(env, old(Now())), Now(), next)
    {
      var v := env.verify(verifierRuns);
      if v.Crashed? {
        verifierRuns := verifierRuns + 1;
        given := workspace;
        return Leave(Raised);
      }
      TakeVerdict(v.files, v.passed, v.category, v.reason);
      next := Conclude(v);
    }

    // -------------------------------------------------------------- the loop

    /** One iteration: a repair turn if one is due, then the verifier if there is a candidate. */
    method TakeIteration() returns (next: Next)
      requires repairGuidance == None ==> FreshCandidate(env, Now())
      modifies this
      ensures Results(Iterate(env, old(Now())), Now(), next)
    {
      next := Check;
      if repairGuidance.Some? { next := RepairTurn(repairGuidance.value); }
      if next == Check { next := RunVerifier(); }
    }

    method RepairLoop(ghost at: Origin) returns (result: Result)
      requires LoopInv(env, Now(), at)
      modifies this
      ensures (Now(), result) == RunLoop(env, old(Now()), at)
    {
      while true
        invariant LoopInv(env, Now(), at) && RunLoop(env, Now(), at) == RunLoop(env, old(Now()), at)
        decreases Unspent(env, Now()), if Now().guidance == None then 1 else 0, 3 - Min(Streak(Now().history), 3)
      {
        IterateGood(env, Now(), at);
        BudgetBound(env, Now());
        var next := TakeIteration();
        if next.Leave? { return next.result; }
      }
    }

    // -------------------------------------------------------------- before the loop

    method ResetCounters()
      modifies this
      ensures Now() == old(Now()).(turn := 0, repairCalls := 0, verifierCalls := 0, parseAttempts := 0,
                                   lastFailureWasParse := false, truncated := false, unchangedCount := 0,
                                   spent := UnspentBudgets())
    {
      turn, totalRepairCalls, verifierRuns, parseAttempts := 0, 0, 0, 0;
      lastFailureWasParse, outputTruncated, unchangedRepairCount := false, false, 0;
      stageRepairAttempts := UnspentBudgets();
    }

    method ForgetResponses()
      modifies this
      ensures Now() == old(Now()).(rawInitial := [], rawRepairs := [], history := [])
    {
      rawInitialResponses, rawRepairResponses, repairHistory := [], [], [];
    }

    ghost method ForgetBookkeeping()
      modifies this`given, this`served
      ensures Now() == old(Now()).(given := map[], served := [])
    {
      given, served := map[], [];
    }

    method ForgetRequest()
      modifies this
      ensures Now() == old(Now()).(guidance := None, pending := Compile, snapshot := None)
    {
      repairGuidance, pendingStage, snapshotDir := None, Compile, None;
    }

    /** Reset the run's own fields, announce the run, take the snapshot. The completion budget and the trail
        carry over from whatever the driver did before. */
    method Begin()
      modifies this
      ensures Now() == RepairSpec.Begin(env, old(decodeNumPredict), old(workspace), old(Now().log))
    {
      ResetCounters();
      ForgetResponses();
      ForgetBookkeeping();
      ForgetRequest();
      assert Now() == Blank(old(decodeNumPredict), old(workspace), old(Now().log));
      EmitTrace(Intake, Note("task"));
      EmitTrace(Route, Note("contract_first_compile_first"));
      CreateSnapshot();
      EmitTrace(Phase.Snapshot, Note("items"));
    }

    method AskArchitect(attempt: nat) returns (settled: bool, next: Next)
      modifies this
      ensures match RepairSpec.AskArchitect(env, old(Now()), attempt)
        case Retry(s) => !settled && Now() == s
        case Settled(o) => settled && Results(o, Now(), next)
    {
      EmitTrace(ModelCall, Note("contract_synthesis"));
      next := Turn;
      match env.architect(attempt)
      case Rejected(exc) =>
        EmitTrace(Parse, ArchitectResult(Some(exc)));
        settled := false;
      case Inconsistent(violations) =>
        if attempt == 0 {
          EmitTrace(Parse, ArchitectResult(Some(violations)));
          settled := false;
        } else {
          EmitTrace(Parse, ArchitectResult(None));
          EmitFailedCheck("SPECIFICATION_ERROR", violations);
          RollBack(AbortedNonRepairable, Some("SPECIFICATION_ERROR"));
          settled, next := true, Leave(Failure);
        }
      case Accepted =>
        EmitTrace(Parse, ArchitectResult(None));
        settled := true;
    }

    /** The contract stage: the given contract, or at most two architect calls. */
    method AgreeContract() returns (next: Next)
      modifies this
      ensures Results(RepairSpec.AgreeContract(env, old(Now())), Now(), next)
    {
      if env.contractGiven {
        EmitTrace(Parse, ArchitectResult(None));
        return Turn;
      }
      var settled: bool;
      settled, next := AskArchitect(0);
      if settled { return; }
      settled, next := AskArchitect(1);
      if settled { return; }
      var _ := RestoreSnapshot();
      next := Leave(Failure);
    }

    method StageHarness() returns (next: Next)
      modifies this
      ensures Results(RepairSpec.StageHarness(env, old(Now())), Now(), next)
    {
      match env.harness
      case UnverifiableProperty(exc) =>
        EmitFailedCheck("UNSUPPORTED_FORMAL_PROPERTY", exc);
        RollBack(AbortedNonRepairable, Some("UNSUPPORTED_FORMAL_PROPERTY"));
        next := Leave(Failure);
      case VacuousProperties(exc) =>
        EmitFailedCheck("NO_GENUINE_PROPERTY", exc);
        RollBack(AbortedNonRepairable, Some("NO_GENUINE_PROPERTY"));
        next := Leave(Failure);
      case HarnessBuilt =>
        if env.staging.StagingFailed? {
          workspace := workspace + Outside(env.staging.left);
          return Leave(Raised);
        }
        workspace := workspace + StagedFiles(env);
        EmitTrace(Execute, Wrote(HarnessLead, "", ""));
        EmitTrace(ModelCall, Note("rtl_generation"));
        next := Turn;
    }

    method GiveUpGeneration(exc: string) returns (next: Next)
      modifies this
      ensures Results(GenerationGivesUp(env, old(Now()), exc), Now(), next)
    {
      if !env.generationEvidenceValid { return Leave(Raised); }
      repairGuidance := Some(env.say(GenerationFailed(exc)));
      lastFailureWasParse := true;
      EmitFailedCheck(PARSE_FAILURE, exc);
      next := Turn;
    }

    method WriteFirst(code: string) returns (next: Next)
      modifies this
      ensures Results(PlaceFirst(env, old(Now()), code), Now(), next)
    {
      match env.firstWrite
      case WriteFailed(exc, left) =>
        LeaveBehind(left);
        next := GiveUpGeneration(exc);
      case Written(record) =>
        workspace := WriteFile(workspace, RtlFile(env), code);
        EmitTrace(Execute, Wrote(Designer, code, record));
        next := Turn;
    }

    method RetryFirstParse(error: string)
      modifies this
      ensures Now() == FirstParseFailed(env, old(Now()), error)
    {
      parseAttempts := parseAttempts + 1;
      MaybeBumpForTruncation();
      EmitFailedCheck(PARSE_FAILURE, error);
    }

    method StashInitial(raw: string, truncated: Option<bool>)
      modifies this
      ensures Now() == Account(old(Now()), truncated).(rawInitial := old(Now()).rawInitial + [raw])
    {
      if truncated.Some? { outputTruncated := truncated.value; }
      rawInitialResponses := rawInitialResponses + [raw];
    }

    /** The first RTL, asked for again while responses do not parse and the parse budget lasts. */
    method GenerateRtl() returns (next: Next)
      modifies this
      ensures Results(RepairSpec.GenerateRtl(env, old(Now())), Now(), next)
    {
      while true
        invariant RepairSpec.GenerateRtl(env, Now()) == RepairSpec.GenerateRtl(env, old(Now()))
        decreases PARSE_MAX_ATTEMPTS - parseAttempts
      {
        match env.generate(|rawInitialResponses|)
        case CallFailed(exc) =>
          next := GiveUpGeneration(exc);
          return;
        case Response(raw, truncated) =>
          StashInitial(raw, truncated);
          match env.parse(raw, None) {
            case Parsed(code) =>
              next := WriteFirst(code);
              return;
            case Unparseable(error) =>
              RetryFirstParse(error);
              if parseAttempts >= PARSE_MAX_ATTEMPTS {
                next := GiveUpGeneration(error);
                return;
              }
          }
      }
    }

    /** Everything up to the loop. */
    method Prepare() returns (next: Next)
      modifies this
      ensures Results(Prelude(env, old(decodeNumPredict), old(workspace), old(Now().log)), Now(), next)
    {
      Begin();
      next := AgreeContract();
      if next.Leave? { return; }
      next := StageHarness();
      if next.Leave? { return; }
      next := GenerateRtl();
    }

    /** `run_silicon_pipeline`: the object ends in exactly the state of the specification's run, so everything
        proved of `Pipeline` holds of the call. */
    method RunSiliconPipeline(ghost genesis: Digest) returns (result: Result)
      requires Chained(env.recorder.h, Log(transcript, prevHash, stepIndex), genesis)
      modifies this
      ensures (Now(), result) == Pipeline(env, Origin(old(workspace), old(decodeNumPredict), genesis), old(Now().log))
      ensures Ended(env, Now(), result, Origin(old(workspace), old(decodeNumPredict), genesis))
    {
      ghost var at := Origin(workspace, decodeNumPredict, genesis);
      PreludeGood(env, at, Now().log);
      var next := Prepare();
      if next.Leave? { return next.result; }
      result := RepairLoop(at);
    }
  }
}
