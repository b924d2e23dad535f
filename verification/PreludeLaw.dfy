/** What the stages before the repair loop decide, in terms of the answers from outside, and the flag a repair prompt
    carries about candidates handed in again. */
module PreludeLaw {
  import opened Options
  import opened TraceLog
  import opened Workspace
  import opened RepairSpec
  import opened RepairRun

  // ---------------------------------------------------------------- before the loop

  /** The contract is given, or one of two architect calls agrees. */
  predicate Agreed(env: Env) { env.contractGiven || env.architect(0).Accepted? || env.architect(1).Accepted? }

  /** The first of at most three responses that parses; every response before it was one, and did not parse. */
  ghost predicate FirstParsed(env: Env, n: nat, code: string) {
    && n < PARSE_MAX_ATTEMPTS && ParsedAs(env, n, code) && forall m: nat :: m < n ==> Garbled(env, m)
  }

  predicate ParsedAs(env: Env, n: nat, code: string) {
    env.generate(n).Response? && env.parse(env.generate(n).raw, None) == Parsed(code)
  }

  predicate Garbled(env: Env, n: nat) { env.generate(n).Response? && env.parse(env.generate(n).raw, None).Unparseable? }

  /** The run stops here, rolled back, with this category on record. */
  ghost predicate AbortsWith(o: Outcome, category: string) {
    && o.Done? && o.result == Failure && o.s.log.records != []
    && var last := o.s.log.records[|o.s.log.records| - 1].event;
       last.phase == RepairOrFinish && last.payload == Finished(AbortedNonRepairable, Some(category))
  }

  /** The model is asked for a repair although there is no first RTL. */
  predicate AsksWithout(env: Env, s: State) {
    s.guidance.Some? && s.lastFailureWasParse
  }

  ghost predicate StagedIn(env: Env, ws: Tree) {
    forall name :: name in env.harnessFiles && name != MIND && name != RtlFile(env) ==>
      name in ws && ws[name] == File(Terminated(env.harnessFiles[name]))
  }

  /** What happens before the loop, whatever the answers. */
  ghost predicate PreludeOutcome(env: Env, o: Outcome) {
    if !Agreed(env) then
      o.Done? && o.result == Failure && (env.architect(1).Inconsistent? ==> AbortsWith(o, "SPECIFICATION_ERROR"))
    else if env.harness.UnverifiableProperty? then AbortsWith(o, "UNSUPPORTED_FORMAL_PROPERTY")
    else if env.harness.VacuousProperties? then AbortsWith(o, "NO_GENUINE_PROPERTY")
    else if env.staging.StagingFailed? then o.Done? && o.result == Raised
    else GenerationOutcome(env, o)
  }

  /** The first RTL is on disk exactly when a response parsed in time and its file was written. */
  ghost predicate GenerationOutcome(env: Env, o: Outcome) {
    && (forall n: nat, code :: FirstParsed(env, n, code) && env.firstWrite.Written? ==>
          o.Continue? && o.s.guidance == None && OnDisk(env, o.s, code))
    && (env.firstWrite.WriteFailed? || (forall n: nat, code :: !FirstParsed(env, n, code)) ==>
          if env.generationEvidenceValid then o.Continue? && AsksWithout(env, o.s) else o.Done? && o.result == Raised)
    && (o.Continue? ==> StagedIn(env, o.s.workspace))
  }

  ghost predicate Untouched(s: State, t: State) {
    t.rawInitial == s.rawInitial && t.parseAttempts == s.parseAttempts && t.guidance == s.guidance
  }

  lemma ArchitectDecides(env: Env, s: State, attempt: nat)
    ensures var a := AskArchitect(env, s, attempt);
      match env.architect(attempt)
      case Accepted => a.Settled? && a.o.Continue? && Untouched(s, a.o.s)
      case Rejected(_) => a.Retry? && Untouched(s, a.s)
      case Inconsistent(_) =>
        if attempt == 0 then a.Retry? && Untouched(s, a.s) else a.Settled? && AbortsWith(a.o, "SPECIFICATION_ERROR")
  {
    if env.architect(attempt).Inconsistent? && attempt > 0 {
      var told := EmitTrace(env, EmitTrace(env, s, ModelCall, Note("contract_synthesis")), Parse, ArchitectResult(None));
      RejectAborts(env, told, env.architect(attempt).violations);
      assert AskArchitect(env, s, attempt) == Settled(RejectContract(env, told, env.architect(attempt).violations));
    }
  }

  lemma RejectAborts(env: Env, s: State, violations: string)
    ensures AbortsWith(RejectContract(env, s, violations), "SPECIFICATION_ERROR")
  {
  }

  lemma ContractDecides(env: Env, s: State)
    ensures var o := AgreeContract(env, s);
      if Agreed(env) then o.Continue? && Untouched(s, o.s)
      else o.Done? && o.result == Failure && (env.architect(1).Inconsistent? ==> AbortsWith(o, "SPECIFICATION_ERROR"))
  {
    if !env.contractGiven {
      ArchitectDecides(env, s, 0);
      if !env.architect(0).Accepted? { ArchitectDecides(env, AskArchitect(env, s, 0).s, 1); }
    }
  }

  lemma HarnessDecides(env: Env, s: State)
    ensures var o := StageHarness(env, s);
      if env.harness.UnverifiableProperty? then AbortsWith(o, "UNSUPPORTED_FORMAL_PROPERTY")
      else if env.harness.VacuousProperties? then AbortsWith(o, "NO_GENUINE_PROPERTY")
      else if env.staging.StagingFailed? then o.Done? && o.result == Raised
      else o.Continue? && Untouched(s, o.s) && StagedIn(env, o.s.workspace)
  {
  }

  lemma OneFirst(env: Env, n: nat, code: string, m: nat, other: string)
    requires FirstParsed(env, n, code) && FirstParsed(env, m, other)
    ensures n == m && code == other
  {
    assert n < m ==> Garbled(env, n);
    assert m < n ==> Garbled(env, m);
  }

  lemma WriteStaged(env: Env, ws: Tree, code: string, left: Option<string>)
    requires StagedIn(env, ws)
    ensures StagedIn(env, WriteFile(ws, RtlFile(env), code)) && StagedIn(env, LeftBehind(env, ws, left))
  {
  }

  lemma GivesUpDecides(env: Env, s: State, exc: string)
    requires StagedIn(env, s.workspace)
    ensures var o := GenerationGivesUp(env, s, exc);
      if env.generationEvidenceValid then o.Continue? && AsksWithout(env, o.s) && StagedIn(env, o.s.workspace)
      else o.Done? && o.result == Raised
  {
  }

  lemma NoneFirst(env: Env, n: nat)
    requires n <= PARSE_MAX_ATTEMPTS && (forall m: nat :: m < n ==> Garbled(env, m))
    requires n == PARSE_MAX_ATTEMPTS || env.generate(n).CallFailed?
    ensures forall k: nat, code :: !FirstParsed(env, k, code)
  {
    forall k: nat, code ensures !FirstParsed(env, k, code) {
      if k < n { assert Garbled(env, k); }
      if k > n && FirstParsed(env, k, code) { NotBefore(env, n, k, code); }
    }
  }

  lemma NotBefore(env: Env, n: nat, k: nat, code: string)
    requires FirstParsed(env, k, code) && n < k
    ensures Garbled(env, n) && n < PARSE_MAX_ATTEMPTS
  {
  }

  lemma {:induction false} GenerationDecides(env: Env, s: State)
    requires s.parseAttempts == |s.rawInitial| < PARSE_MAX_ATTEMPTS && StagedIn(env, s.workspace)
    requires forall m: nat :: m < |s.rawInitial| ==> Garbled(env, m)
    requires s.guidance == None
    ensures GenerationOutcome(env, GenerateRtl(env, s))
    decreases PARSE_MAX_ATTEMPTS - s.parseAttempts
  {
    var n := |s.rawInitial|;
    match env.generate(n)
    case CallFailed(exc) =>
      NoneFirst(env, n);
      GivesUpDecides(env, s, exc);
    case Response(raw, truncated) =>
      var got := Account(s, truncated).(rawInitial := s.rawInitial + [raw]);
      GenerateNext(env, s, n, raw, truncated, got);
      if env.parse(raw, None).Parsed? {
        var code := env.parse(raw, None).code;
        assert FirstParsed(env, n, code);
        PlaceDecides(env, got, n, code);
      } else {
        var error := env.parse(raw, None).error;
        var failed := FirstParseFailed(env, got, error);
        assert Garbled(env, n);
        FailedFirst(env, got, error);
        if ParseBudgetGone(failed) {
          NoneFirst(env, n + 1);
          GivesUpDecides(env, failed, error);
        } else {
          GenerationDecides(env, failed);
        }
      }
  }

  lemma FailedFirst(env: Env, s: State, error: string)
    ensures var f := FirstParseFailed(env, s, error);
      && f.parseAttempts == s.parseAttempts + 1 && f.rawInitial == s.rawInitial && f.workspace == s.workspace
      && f.guidance == s.guidance
  {
  }

  lemma PlaceDecides(env: Env, s: State, n: nat, code: string)
    requires FirstParsed(env, n, code) && StagedIn(env, s.workspace) && s.guidance == None
    ensures GenerationOutcome(env, PlaceFirst(env, s, code))
  {
    forall m: nat, other | FirstParsed(env, m, other) ensures other == code { OneFirst(env, n, code, m, other); }
    match env.firstWrite
    case WriteFailed(exc, left) =>
      WriteStaged(env, s.workspace, code, left);
      GivesUpDecides(env, s.(workspace := LeftBehind(env, s.workspace, left)), exc);
    case Written(record) =>
      WriteStaged(env, s.workspace, code, None);
      assert OnDisk(env, FirstRtl(env, s, code, record), code);
  }

  /** Which way a run takes before the loop, for every run: refused without an agreed contract or with properties that
      cannot be verified, and else with the first response that parses, if that comes in time and can be written. */
  lemma PreludeDecides(env: Env, numPredict: int, workspace: Tree, log: Log<Payload>)
    ensures PreludeOutcome(env, Prelude(env, numPredict, workspace, log))
  {
    var s := Begin(env, numPredict, workspace, log);
    ContractDecides(env, s);
    if Agreed(env) {
      var agreed := AgreeContract(env, s).s;
      HarnessDecides(env, agreed);
      if env.harness.HarnessBuilt? && env.staging.AllStaged? {
        GenerationDecides(env, StageHarness(env, agreed).s);
      }
    }
  }

  // ---------------------------------------------------------------- candidates handed in again

  /** The flag looks at the last two outcomes. */
  lemma LastTwo(history: seq<string>, a: string, b: string)
    ensures RecentlyUnchanged(history + [a, b]) <==> a == UNCHANGED || b == UNCHANGED
  {
    var h := history + [a, b];
    assert h[|h| - 2] == a && h[|h| - 1] == b;
  }

  lemma FlagAfter(history: seq<string>)
    ensures RecentlyUnchanged(history + [UNCHANGED])
  {
    var h := history + [UNCHANGED];
    assert h[|h| - 1] == UNCHANGED;
  }

  /** The repair prompt after a failed verdict says that the candidate was handed in again exactly when it is the RTL that
      was there, or one of the last two outcomes was that. */
  lemma ResubmittedExactly(env: Env, s: State, guidance: string, code: string, v: VerifyAnswer)
    requires s.guidance == Some(guidance) && RepairTurn(env, s, guidance).ToVerifier?
    requires OnDisk(env, RepairTurn(env, s, guidance).s, code)
    requires v == env.verify(RepairTurn(env, s, guidance).s.verifierCalls) && v.Verdict? && !v.passed
    requires Iterate(env, s).Continue?
    ensures Iterate(env, s).s.guidance ==
            Some(env.say(Evidence(v.prompt, SameCandidate(CurrentRtl(env, s), code) || RecentlyUnchanged(s.history))))
  {
    var f := RepairTurn(env, s, guidance).s;
    TurnHistory(env, s, guidance, code);
    VerdictGuides(env, f, v);
    assert Iterate(env, s) == RunVerifier(env, f);
  }

  lemma VerdictGuides(env: Env, s: State, v: VerifyAnswer)
    requires FreshCandidate(env, s) && v == env.verify(s.verifierCalls) && v.Verdict? && !v.passed
    requires RunVerifier(env, s).Continue?
    ensures RunVerifier(env, s).s.guidance == Some(env.say(Evidence(v.prompt, RecentlyUnchanged(s.history))))
  {
    var checked := Examined(env, s, v.files, v.passed, v.category, v.reason);
    assert checked.history == s.history;
    assert RunVerifier(env, s) == Conclude(env, checked, v);
  }

  lemma TurnHistory(env: Env, s: State, guidance: string, code: string)
    requires RepairTurn(env, s, guidance).ToVerifier? && OnDisk(env, RepairTurn(env, s, guidance).s, code)
    ensures RecentlyUnchanged(RepairTurn(env, s, guidance).s.history) <==>
            SameCandidate(CurrentRtl(env, s), code) || RecentlyUnchanged(s.history)
  {
    var raw, truncated := env.repair(s.repairCalls).raw, env.repair(s.repairCalls).truncated;
    var heard := Hear(Ask(env, s, guidance), guidance, raw, truncated);
    assert heard.history == s.history;
    ReactHistory(env, heard, guidance, CurrentRtl(env, s), raw, code);
  }

  lemma ReactHistory(env: Env, s: State, guidance: string, current: string, raw: string, code: string)
    requires React(env, s, guidance, current, raw).ToVerifier? && OnDisk(env, React(env, s, guidance, current, raw).s, code)
    ensures RecentlyUnchanged(React(env, s, guidance, current, raw).s.history) <==>
            SameCandidate(current, code) || RecentlyUnchanged(s.history)
  {
    var parsed := env.parse(raw, Context(env, current)).code;
    var paid := Pay(s, SameCandidate(current, parsed));
    ReactWrites(env, s, guidance, current, raw, parsed);
    WrittenHistory(env, paid, parsed, code);
    FlagAfter(s.history);
  }

  lemma ReactWrites(env: Env, s: State, guidance: string, current: string, raw: string, parsed: string)
    requires React(env, s, guidance, current, raw).ToVerifier? && env.parse(raw, Context(env, current)) == Parsed(parsed)
    ensures React(env, s, guidance, current, raw) == RepairSpec.Write(env, Pay(s, SameCandidate(current, parsed)), parsed)
  {
  }

  lemma WrittenHistory(env: Env, s: State, parsed: string, code: string)
    requires RepairSpec.Write(env, s, parsed).ToVerifier? && OnDisk(env, RepairSpec.Write(env, s, parsed).s, code)
    ensures code == parsed && RepairSpec.Write(env, s, parsed).s.history == s.history
  {
    var record := env.write(s.repairCalls).record;
    AppliedKeeps(env, s, parsed, record);
    assert OnDisk(env, Applied(env, s, parsed, record), parsed);
  }
}
