/** What the trail of a run says: which event may follow which, given the answers from outside. The law speaks of the
    trail alone, with a ledger that is read off it, and holds of every run. */
module TrailLaw {
  import opened Options
  import opened TraceLog
  import opened Workspace
  import opened RepairSpec
  import opened RepairRun
  import opened Chars
  import RtlIdentity

  const UNCHANGED_CANDIDATE := "REPAIR_UNCHANGED_CANDIDATE"

  // ---------------------------------------------------------------- the ledger

  /** Where the story stands after an event: still before the first candidate and the first request (with the category
      of a check just made), a request without its answer, a candidate without its verdict, a verdict, a response
      turned down, or the end. */
  datatype Last =
    | Early(check: Option<string>)
    | Asked
    | Placed
    | Judged(v: VerifyAnswer)
    | Refused(category: string, reason: string)
    | Passing
    | Over(passed: bool)

  /** Requests and candidates so far, the stage that turns are charged to and what each stage has been charged, the
      guidance of the last request, and the text of the RTL file where the trail tells it. */
  datatype Ledger = Ledger(
    last: Last, calls: nat, candidates: nat, stage: Stage, charged: map<Stage, nat>, guidance: string, text: Option<string>)

  const OPENING := Ledger(Early(None), 0, 0, Compile, UnspentBudgets(), "", None)

  predicate IsRequest(e: Entry<Payload>) { e.phase == ModelCall && e.payload.Request? }

  predicate IsCandidate(e: Entry<Payload>) {
    e.phase == Execute && e.payload.Wrote? && e.payload.role in {Designer, Repairer}
  }

  predicate IsCheck(e: Entry<Payload>) { e.phase == Verify && e.payload.Checked? }

  predicate IsEnd(e: Entry<Payload>) { e.phase == RepairOrFinish && e.payload.Finished? }

  /** The model's answer to the last request. */
  function Answer(env: Env, l: Ledger): ModelAnswer { if l.calls == 0 then CallFailed("") else env.repair(l.calls - 1) }

  /** The verifier's answer to the last candidate. */
  function Ruling(env: Env, l: Ledger): VerifyAnswer { if l.candidates == 0 then Crashed else env.verify(l.candidates - 1) }

  function Charge(l: Ledger): Ledger { l.(charged := l.charged[l.stage := Used(l.charged, l.stage) + 1]) }

  /** A response that leaves no event of its own was lost to a failed write: it is charged, and the file may differ. */
  function Settled(env: Env, l: Ledger): Ledger {
    if !l.last.Asked? || Answer(env, l).CallFailed? then l else
    Charge(l).(text := match env.write(l.calls)
                       case WriteFailed(_, Some(left)) => Some(RtlIdentity.LineFeeds(left))
                       case _ => l.text)
  }

  function Blamed(l: Ledger, v: VerifyAnswer): Stage {
    if v.Verdict? && !v.passed then StageFor(CategoryOf(v.category), v.gate) else l.stage
  }

  function TextLeft(env: Env, v: VerifyAnswer): Option<string> {
    if v.Verdict? then Some(ReadText(v.files, RtlFile(env))) else None
  }

  function OfCheck(env: Env, l: Ledger, category: Option<string>, reason: Option<string>): Ledger {
    match l.last
    case Placed => var v := Ruling(env, l); l.(last := Judged(v), stage := Blamed(l, v), text := TextLeft(env, v))
    case Asked =>
      (if category == Some(PARSE_FAILURE) then l else Charge(l))
        .(last := Refused(if category.Some? then category.value else "", if reason.Some? then reason.value else ""))
    case _ => l.(last := Early(category))
  }

  function Next(env: Env, l: Ledger, e: Entry<Payload>): Ledger {
    if IsRequest(e) then Settled(env, l).(last := Asked, calls := l.calls + 1, guidance := e.payload.guidance)
    else if IsCandidate(e) then
      (if e.payload.role == Repairer then Charge(l) else l).(last := Placed, candidates := l.candidates + 1, text := None)
    else if IsCheck(e) then OfCheck(env, l, e.payload.category, e.payload.reason)
    else if IsEnd(e) then
      Settled(env, l).(last := if e.payload.status in {SiliconVerified, VerifiedSuccess} then Passing else Over(false))
    else l.(last := if l.last.Passing? then Over(true) else if l.last.Early? then Early(None) else l.last)
  }

  function Said(r: TraceRecord<Payload>): Entry<Payload> { Entry(r.event.phase, r.event.turn, r.event.payload) }

  function LedgerOf(env: Env, records: seq<TraceRecord<Payload>>): Ledger {
    if records == [] then OPENING else
    Next(env, LedgerOf(env, records[..|records| - 1]), Said(records[|records| - 1]))
  }

  // ---------------------------------------------------------------- the law

  /** The stage that turns are charged to has not used up its budget. */
  predicate Room(env: Env, l: Ledger) { Used(l.charged, l.stage) < Limit(env, l.stage) }

  /** What the driver may have read the RTL file as. */
  predicate Fits(l: Ledger, current: string) { l.text.Some? ==> l.text.value == current }

  /** A parsed response that is neither skipped nor too large a change. */
  predicate Worth(env: Env, current: string, code: string) { !Skips(env, current, code) && !TooLarge(env, current, code) }

  ghost predicate Unwritten(env: Env, l: Ledger, raw: string) {
    exists current, code :: UnwrittenAs(env, l, raw, current, code)
  }

  predicate UnwrittenAs(env: Env, l: Ledger, raw: string, current: string, code: string) {
    && Fits(l, current) && env.parse(raw, Context(env, current)) == Parsed(code) && Worth(env, current, code)
    && env.write(l.calls).WriteFailed?
  }

  /** A failed verdict that can be repaired. */
  predicate Repairable(env: Env, l: Ledger, v: VerifyAnswer) {
    && v.Verdict? && !v.passed && !NonRepairable(CategoryOf(v.category)) && Room(env, l)
    && v.evidenceValid && AttemptValid(Used(l.charged, l.stage) + 1)
  }

  ghost predicate SaysEvidence(env: Env, v: VerifyAnswer, guidance: string) {
    v.Verdict? && exists resubmitted :: guidance == env.say(Evidence(v.prompt, resubmitted))
  }

  /** The retry prompt says whether the response was cut off, where the model tells. */
  ghost predicate SaysRetry(env: Env, l: Ledger, error: string, guidance: string) {
    exists truncated :: AsToldBy(Answer(env, l), truncated) && guidance == env.say(ParseRetry(error, truncated))
  }

  predicate AsToldBy(answer: ModelAnswer, truncated: bool) {
    answer.Response? && answer.truncated.Some? ==> answer.truncated.value == truncated
  }

  ghost predicate SaysGeneration(env: Env, guidance: string) { exists exc :: guidance == env.say(GenerationFailed(exc)) }

  /** What the next request has to say. */
  ghost predicate Due(env: Env, l: Ledger, guidance: string) {
    match l.last
    case Early(_) => SaysGeneration(env, guidance)
    case Asked =>
      (match Answer(env, l)
       case CallFailed(exc) => guidance == env.say(InvocationFailed(exc))
       case Response(raw, _) => Unwritten(env, l, raw) && guidance == env.say(FileWriteFailed(env.write(l.calls).exc)))
    case Judged(v) => Repairable(env, l, v) && SaysEvidence(env, v, guidance)
    case Refused(category, reason) =>
      if category == PARSE_FAILURE then SaysRetry(env, l, reason, guidance)
      else if category == UNCHANGED_CANDIDATE then guidance == env.say(Unchanged(l.guidance))
      else guidance == env.say(PatchTooLarge)
    case _ => false
  }

  ghost predicate Requests(env: Env, l: Ledger, e: Entry<Payload>) {
    IsRequest(e) && e.payload.role == Repairer && Due(env, l, e.payload.guidance) && Room(env, Settled(env, l))
  }

  predicate Ends(e: Entry<Payload>, status: Status, category: Option<string>) {
    e.phase == RepairOrFinish && e.payload == Finished(status, category)
  }

  predicate Checks(e: Entry<Payload>, category: string, reason: string) {
    e.phase == Verify && e.payload == Checked(false, Some(category), Some(reason))
  }

  /** The first RTL: parsed from an answer to the generation request. */
  ghost predicate Generated(env: Env, content: string, record: string) {
    env.firstWrite == Written(record) && exists n, raw :: GeneratedFrom(env, content, n, raw)
  }

  predicate GeneratedFrom(env: Env, content: string, n: nat, raw: string) {
    env.generate(n).Response? && env.generate(n).raw == raw && env.parse(raw, None) == Parsed(content)
  }

  ghost predicate EarlyEvent(env: Env, l: Ledger, check: Option<string>, e: Entry<Payload>) {
    if IsRequest(e) then Requests(env, l, e)
    else if IsCandidate(e) then e.payload.role == Designer && Generated(env, e.payload.content, e.payload.fileRecord)
    else if IsCheck(e) then !e.payload.passed && e.payload.category.Some?
    else if IsEnd(e) then
      || Ends(e, RolledBack, Some(PARSE_FAILURE))
      || (e.payload.status == AbortedNonRepairable && check.Some? && e.payload.failureCategory == check)
    else (e.payload.Wrote? ==> e.payload.role == HarnessLead)
  }

  /** What the driver makes of a response, given the RTL text it compares it with. */
  ghost predicate Reply(env: Env, l: Ledger, raw: string, current: string, e: Entry<Payload>) {
    match env.parse(raw, Context(env, current))
    case Unparseable(error) => Checks(e, PARSE_FAILURE, error)
    case Parsed(code) =>
      if Skips(env, current, code) then Checks(e, UNCHANGED_CANDIDATE, "unchanged")
      else if TooLarge(env, current, code) then Checks(e, TOO_LARGE, "change budget")
      else match env.write(l.calls)
        case Written(record) => e.phase == Execute && e.payload == Wrote(Repairer, code, record)
        case WriteFailed(_, _) => if Room(env, Settled(env, l)) then Requests(env, l, e) else Ends(e, RolledBack, None)
  }

  ghost predicate Replies(env: Env, l: Ledger, raw: string, e: Entry<Payload>) {
    exists current :: Fits(l, current) && Reply(env, l, raw, current, e)
  }

  ghost predicate AfterVerdict(env: Env, l: Ledger, v: VerifyAnswer, e: Entry<Payload>) {
    && v.Verdict?
    && if v.passed then Ends(e, if v.silicon then SiliconVerified else VerifiedSuccess, None)
       else if NonRepairable(CategoryOf(v.category)) then Ends(e, AbortedNonRepairable, Some(CategoryOf(v.category)))
       else if !Room(env, l) then Ends(e, RolledBack, Some(CategoryOf(v.category)))
       else Requests(env, l, e)
  }

  ghost predicate AfterRefusal(env: Env, l: Ledger, category: string, e: Entry<Payload>) {
    if category == PARSE_FAILURE then Requests(env, l, e) || Ends(e, RolledBack, Some(PARSE_FAILURE))
    else if Room(env, l) then Requests(env, l, e)
    else Ends(e, RolledBack, if category == UNCHANGED_CANDIDATE then Some(UNCHANGED_CANDIDATE) else None)
  }

  /** The events that may come next. */
  ghost predicate Allowed(env: Env, l: Ledger, e: Entry<Payload>) {
    && e.turn == (if IsRequest(e) then l.calls + 1 else l.calls)
    && match l.last
       case Early(check) => EarlyEvent(env, l, check, e)
       case Asked =>
         (match Answer(env, l)
          case CallFailed(_) => Requests(env, l, e) || Ends(e, RolledBack, Some("MODEL_CALL_FAILURE"))
          case Response(raw, _) => Replies(env, l, raw, e))
       case Placed =>
         var v := Ruling(env, l); v.Verdict? && e.phase == Verify && e.payload == Checked(v.passed, v.category, v.reason)
       case Judged(v) => AfterVerdict(env, l, v, e)
       case Refused(category, _) => AfterRefusal(env, l, category, e)
       case Passing => e.phase == Trace && e.payload == Note("final_status")
       case Over(_) => false
  }

  ghost predicate Lawful(env: Env, records: seq<TraceRecord<Payload>>) {
    forall p :: 0 <= p < |records| ==> Allowed(env, LedgerOf(env, records[..p]), Said(records[p]))
  }

  // ---------------------------------------------------------------- emissions

  function Here(env: Env, s: State): Ledger { LedgerOf(env, s.log.records) }

  lemma EmitAllowed(env: Env, s: State, phase: Phase, payload: Payload)
    requires Lawful(env, s.log.records) && Allowed(env, Here(env, s), Entry(phase, s.turn, payload))
    ensures var t := EmitTrace(env, s, phase, payload);
      Lawful(env, t.log.records) && Here(env, t) == Next(env, Here(env, s), Entry(phase, s.turn, payload))
  {
    var before, after := s.log.records, EmitTrace(env, s, phase, payload).log.records;
    var n := |before|;
    assert after[..n] == before;
    assert Said(after[n]) == Entry(phase, s.turn, payload);
    forall p | 0 <= p < |after| ensures Allowed(env, LedgerOf(env, after[..p]), Said(after[p])) {
      if p < n { assert after[..p] == before[..p] && after[p] == before[p]; }
    }
  }

  // ---------------------------------------------------------------- what the driver's state has to do with the ledger

  ghost predicate SameSpent(s: State, l: Ledger) { forall k :: Spent(s, k) == Used(l.charged, k) }

  ghost predicate Books(env: Env, s: State, l: Ledger) {
    && s.turn == s.repairCalls == l.calls && s.pending == l.stage && SameSpent(s, l) && Fits(l, CurrentRtl(env, s))
  }

  /** A request or a refused response that has been charged: the next turn may find no room. */
  predicate Stalls(env: Env, l: Ledger) {
    (l.last.Asked? && Answer(env, l).Response?) || (l.last.Refused? && l.last.category == TOO_LARGE)
  }

  /** A repair is due, and the ledger knows what it will be asked for. */
  ghost predicate Waiting(env: Env, s: State, l: Ledger, guidance: string) {
    && Books(env, s, Settled(env, l)) && l.candidates == s.verifierCalls && Due(env, l, guidance)
    && (!Room(env, Settled(env, l)) ==> Stalls(env, l))
    && (l.last.Asked? || l.last.Refused? ==> l.calls > 0)
    && (l.last.Judged? ==> !s.lastFailureWasParse)
  }

  /** A candidate is on disk and waits for the verifier. */
  ghost predicate Poised(env: Env, s: State, l: Ledger) {
    l.last.Placed? && Books(env, s, l) && l.candidates == s.verifierCalls + 1
  }

  ghost predicate Head(env: Env, s: State) {
    && Lawful(env, s.log.records)
    && match s.guidance
       case None => Poised(env, s, Here(env, s))
       case Some(guidance) => Waiting(env, s, Here(env, s), guidance)
  }

  /** How a run ends, as the ledger sees it. */
  ghost predicate Closing(env: Env, l: Ledger, result: Result) {
    match result
    case Success => l.last == Over(true)
    case Failure => l.last == Over(false) || (l.last.Early? && l.calls == l.candidates == 0)
    case Raised =>
      || (l.last.Early? && l.calls == l.candidates == 0)
      || (l.last.Placed? && Ruling(env, l).Crashed?)
      || (l.last.Judged? && l.last.v.Verdict? && !l.last.v.passed && !NonRepairable(CategoryOf(l.last.v.category))
          && Room(env, l) && !Repairable(env, l, l.last.v))
  }

  ghost predicate Closed(env: Env, s: State, result: Result) {
    var l := Here(env, s);
    && Lawful(env, s.log.records) && Closing(env, l, result)
    && s.repairCalls == l.calls && s.verifierCalls == l.candidates && SameSpent(s, l)
  }

  ghost predicate FlowLawful(env: Env, f: Flow) {
    match f
    case ToVerifier(s) => s.guidance == None && Head(env, s)
    case Again(s) => s.guidance.Some? && Head(env, s)
    case Stop(s, result) => Closed(env, s, result)
  }

  ghost predicate OutcomeLawful(env: Env, o: Outcome) {
    match o
    case Continue(s) => Head(env, s)
    case Done(s, result) => Closed(env, s, result)
  }

  // ---------------------------------------------------------------- one repair turn

  lemma EndLedger(env: Env, l: Ledger, turn: nat, status: Status, category: Option<string>)
    requires status in {RolledBack, AbortedNonRepairable}
    ensures Next(env, l, Entry(RepairOrFinish, turn, Finished(status, category))) == Settled(env, l).(last := Over(false))
  {
  }

  lemma RollbackLawful(env: Env, s: State, status: Status, category: Option<string>)
    requires Lawful(env, s.log.records) && s.repairCalls == Here(env, s).calls
    requires Allowed(env, Here(env, s), Entry(RepairOrFinish, s.turn, Finished(status, category)))
    requires status in {RolledBack, AbortedNonRepairable}
    requires SameSpent(s, Settled(env, Here(env, s))) && Here(env, s).candidates == s.verifierCalls
    ensures Closed(env, Rollback(env, s, status, category).s, Failure)
  {
    var restored := Restore(s);
    assert restored.log == s.log && restored.turn == s.turn;
    EmitAllowed(env, restored, RepairOrFinish, Finished(status, category));
    EndLedger(env, Here(env, s), s.turn, status, category);
    RolledBackClosed(env, s, EmitTrace(env, restored, RepairOrFinish, Finished(status, category)), Settled(env, Here(env, s)));
  }

  lemma RolledBackClosed(env: Env, s: State, t: State, l: Ledger)
    requires Lawful(env, t.log.records) && Here(env, t) == l.(last := Over(false)) && SameSpent(s, l)
    requires t.spent == s.spent && t.repairCalls == s.repairCalls == l.calls && t.verifierCalls == s.verifierCalls == l.candidates
    ensures Closed(env, t, Failure)
  {
  }

  /** After the request and before anything is made of the response. */
  ghost predicate Answering(env: Env, s: State, guidance: string, l: Ledger) {
    && Lawful(env, s.log.records) && l == Here(env, s)
    && l.last.Asked? && Books(env, s, l) && l.calls > 0 && l.guidance == guidance && Room(env, l)
    && l.candidates == s.verifierCalls
  }

  lemma AskLawful(env: Env, s: State, guidance: string)
    requires s.guidance == Some(guidance) && Head(env, s) && Room(env, Settled(env, Here(env, s)))
    ensures var t := Ask(env, s, guidance); Answering(env, t, guidance, Here(env, t)) && Here(env, t).calls == s.repairCalls + 1
  {
    var counted, l := s.(turn := s.turn + 1, repairCalls := s.repairCalls + 1), Here(env, s);
    assert Here(env, counted) == l;
    RequestAllowed(env, l, counted.turn, guidance);
    EmitAllowed(env, counted, ModelCall, Request(Repairer, guidance));
    RequestNext(env, l, counted.turn, guidance);
    AnsweringIs(env, s, Ask(env, s, guidance), guidance, Settled(env, l));
  }

  lemma RequestAllowed(env: Env, l: Ledger, turn: nat, guidance: string)
    requires Due(env, l, guidance) && Room(env, Settled(env, l)) && turn == l.calls + 1
    ensures Allowed(env, l, Entry(ModelCall, turn, Request(Repairer, guidance)))
  {
    var e := Entry(ModelCall, turn, Request(Repairer, guidance));
    assert Requests(env, l, e);
    if l.last.Asked? && Answer(env, l).Response? { LossAllowed(env, l, e, Answer(env, l).raw); }
  }

  lemma LossAllowed(env: Env, l: Ledger, e: Entry<Payload>, raw: string)
    requires l.last.Asked? && AnswerIs(env, l, raw) && Requests(env, l, e)
    ensures Replies(env, l, raw, e)
  {
    var current, code :| UnwrittenAs(env, l, raw, current, code);
    assert Reply(env, l, raw, current, e);
  }

  lemma RequestNext(env: Env, l: Ledger, turn: nat, guidance: string)
    ensures Next(env, l, Entry(ModelCall, turn, Request(Repairer, guidance))) ==
            Settled(env, l).(last := Asked, calls := l.calls + 1, guidance := guidance)
  {
  }

  lemma AnsweringIs(env: Env, s: State, t: State, guidance: string, m: Ledger)
    requires Lawful(env, t.log.records) && Here(env, t) == m.(last := Asked, calls := m.calls + 1, guidance := guidance)
    requires Books(env, s, m) && Room(env, m) && m.candidates == s.verifierCalls
    requires t.turn == s.turn + 1 && t.repairCalls == s.repairCalls + 1 && t.verifierCalls == s.verifierCalls
    requires t.pending == s.pending && t.workspace == s.workspace && t.spent == s.spent
    ensures Answering(env, t, guidance, Here(env, t)) && Here(env, t).calls == s.repairCalls + 1
  {
  }

  lemma CallLostLawful(env: Env, s: State, guidance: string, exc: string)
    requires Answering(env, s, guidance, Here(env, s)) && Answer(env, Here(env, s)) == CallFailed(exc)
    ensures FlowLawful(env, CallLost(env, s, exc))
  {
    var failed := Remember(s, CALL_FAILURE);
    if EndsWithFailures(failed.history) { RollbackLawful(env, failed, RolledBack, Some("MODEL_CALL_FAILURE")); }
  }

  /** A check that turns the response down. */
  lemma RefusedLawful(env: Env, s: State, guidance: string, raw: string, current: string, category: string, reason: string)
    requires Answering(env, s, guidance, Here(env, s)) && AnswerIs(env, Here(env, s), raw) && Fits(Here(env, s), current)
    requires Reply(env, Here(env, s), raw, current, Entry(Verify, s.turn, Checked(false, Some(category), Some(reason))))
    ensures var t := EmitCheck(env, s, category, reason); var l := Here(env, s);
      && Lawful(env, t.log.records)
      && Here(env, t) == (if category == PARSE_FAILURE then l else Charge(l)).(last := Refused(category, reason))
  {
    EmitAllowed(env, s, Verify, Checked(false, Some(category), Some(reason)));
  }

  predicate AnswerIs(env: Env, l: Ledger, raw: string) { Answer(env, l).Response? && Answer(env, l).raw == raw }

  /** The guidance and the flags are not on the trail. */
  ghost predicate SameStory(s: State, t: State) {
    && t.log == s.log && t.turn == s.turn && t.repairCalls == s.repairCalls && t.verifierCalls == s.verifierCalls
    && t.pending == s.pending && t.workspace == s.workspace
  }

  lemma ParseFailedLawful(env: Env, s: State, guidance: string, raw: string, current: string, error: string)
    requires Answering(env, s, guidance, Here(env, s)) && AnswerIs(env, Here(env, s), raw) && Fits(Here(env, s), current)
    requires env.parse(raw, Context(env, current)) == Unparseable(error) && AsToldBy(Answer(env, Here(env, s)), s.truncated)
    ensures FlowLawful(env, ParseFailed(env, s, error))
  {
    var failed := ChargeParse(env, s, error);
    Unparsed(env, s, guidance, raw, current, error);
    if ParseBudgetGone(failed) {
      ParseBudgetEnds(env, failed, error);
    } else {
      RetrySame(env, failed, error);
      RetryWaits(env, failed, RetryParse(env, Bump(failed), error), error);
    }
  }

  lemma RetrySame(env: Env, s: State, error: string)
    requires AsToldBy(Answer(env, Here(env, s)), s.truncated)
    ensures var t := RetryParse(env, Bump(s), error);
      && SameStory(s, t) && t.spent == s.spent && t.guidance.Some?
      && SaysRetry(env, Here(env, s), error, t.guidance.value)
  {
    BumpOnly(s);
    assert RetryParse(env, Bump(s), error).guidance == Some(env.say(ParseRetry(error, s.truncated)));
  }

  /** The check that records an unparseable response. */
  ghost predicate Unread(env: Env, s: State, error: string, l: Ledger) {
    && Lawful(env, s.log.records) && l == Here(env, s) && l.last == Refused(PARSE_FAILURE, error) && l.calls > 0
    && Books(env, s, l) && l.candidates == s.verifierCalls && Room(env, l) && AsToldBy(Answer(env, l), s.truncated)
  }

  lemma Unparsed(env: Env, s: State, guidance: string, raw: string, current: string, error: string)
    requires Answering(env, s, guidance, Here(env, s)) && AnswerIs(env, Here(env, s), raw) && Fits(Here(env, s), current)
    requires env.parse(raw, Context(env, current)) == Unparseable(error) && AsToldBy(Answer(env, Here(env, s)), s.truncated)
    ensures var failed := ChargeParse(env, s, error); Unread(env, failed, error, Here(env, failed))
  {
    var counted := Remember(s.(parseAttempts := s.parseAttempts + 1), PARSE_FAILURE);
    RefusedLawful(env, counted, guidance, raw, current, PARSE_FAILURE, error);
    UnreadIs(env, s, ChargeParse(env, s, error), error, Here(env, s));
  }

  lemma UnreadIs(env: Env, s: State, t: State, error: string, l: Ledger)
    requires Lawful(env, t.log.records) && Here(env, t) == l.(last := Refused(PARSE_FAILURE, error))
    requires l.last.Asked? && l.calls > 0 && Books(env, s, l) && l.candidates == s.verifierCalls && Room(env, l)
    requires AsToldBy(Answer(env, l), s.truncated) && t.truncated == s.truncated
    requires t.turn == s.turn && t.repairCalls == s.repairCalls && t.verifierCalls == s.verifierCalls
    requires t.pending == s.pending && t.workspace == s.workspace && t.spent == s.spent
    ensures Unread(env, t, error, Here(env, t))
  {
    var m := Here(env, t);
    SameAnswer(env, l, m);
    SameBooks(env, s, t, l, m);
  }

  lemma SameAnswer(env: Env, l: Ledger, m: Ledger)
    requires m.calls == l.calls
    ensures Answer(env, m) == Answer(env, l)
  {
  }

  lemma SameBooks(env: Env, s: State, t: State, l: Ledger, m: Ledger)
    requires Books(env, s, l) && m == l.(last := m.last) && t.turn == s.turn && t.repairCalls == s.repairCalls
    requires t.pending == s.pending && t.workspace == s.workspace && t.spent == s.spent
    ensures Books(env, t, m)
  {
  }

  lemma ParseBudgetEnds(env: Env, s: State, error: string)
    requires Unread(env, s, error, Here(env, s))
    ensures Closed(env, Rollback(env, s, RolledBack, Some(PARSE_FAILURE)).s, Failure)
  {
    RollbackLawful(env, s, RolledBack, Some(PARSE_FAILURE));
  }

  lemma RetryWaits(env: Env, s: State, t: State, error: string)
    requires Unread(env, s, error, Here(env, s))
    requires SameStory(s, t) && t.spent == s.spent && t.guidance.Some? && SaysRetry(env, Here(env, s), error, t.guidance.value)
    ensures Head(env, t) && t.guidance.Some?
  {
  }

  /** A refusal that has been charged. */
  ghost predicate Charged(env: Env, s: State, category: string, l: Ledger) {
    && Lawful(env, s.log.records) && l == Here(env, s) && l.last.Refused? && l.last.category == category
    && l.calls > 0 && Books(env, s, l) && l.candidates == s.verifierCalls
  }

  lemma ChargedSpent(s: State, t: State, k: Stage, l: Ledger)
    requires SameSpent(s, l) && t.spent == Spend(s, k).spent && k == l.stage
    ensures SameSpent(t, Charge(l))
  {
    forall j ensures Spent(t, j) == Used(Charge(l).charged, j) { SpentAfter(s, k, j); }
  }

  lemma TurnedDown(env: Env, s: State, paid: State, guidance: string, raw: string, current: string, category: string,
                   reason: string)
    requires Answering(env, s, guidance, Here(env, s)) && AnswerIs(env, Here(env, s), raw) && Fits(Here(env, s), current)
    requires SameStory(s, paid) && paid.spent == Spend(s, s.pending).spent && category != PARSE_FAILURE
    requires Reply(env, Here(env, s), raw, current, Entry(Verify, s.turn, Checked(false, Some(category), Some(reason))))
    ensures var t := EmitCheck(env, paid, category, reason);
      && Charged(env, t, category, Here(env, t)) && Here(env, t).guidance == guidance && t.spent == paid.spent
      && t.guidance == paid.guidance && t.parseAttempts == paid.parseAttempts
  {
    EmitAllowed(env, paid, Verify, Checked(false, Some(category), Some(reason)));
    ChargedSpent(s, paid, s.pending, Here(env, s));
  }

  lemma SkipLawful(env: Env, s: State, paid: State, guidance: string, raw: string, current: string, code: string)
    requires Answering(env, s, guidance, Here(env, s)) && AnswerIs(env, Here(env, s), raw) && Fits(Here(env, s), current)
    requires SameStory(s, paid) && paid.spent == Spend(s, s.pending).spent && paid.parseAttempts < PARSE_MAX_ATTEMPTS
    requires env.parse(raw, Context(env, current)) == Parsed(code) && Skips(env, current, code)
    ensures FlowLawful(env, Skip(env, paid, guidance))
  {
    var noted := Remember(paid, UNCHANGED);
    TurnedDown(env, s, noted, guidance, raw, current, UNCHANGED_CANDIDATE, "unchanged");
    var seen := EmitCheck(env, noted, UNCHANGED_CANDIDATE, "unchanged");
    if Spent(seen, seen.pending) >= Limit(env, seen.pending) {
      SkipEnds(env, seen);
    } else {
      SkipWaits(env, seen, guidance);
    }
  }

  lemma SkipEnds(env: Env, s: State)
    requires Charged(env, s, UNCHANGED_CANDIDATE, Here(env, s)) && Spent(s, s.pending) >= Limit(env, s.pending)
    ensures Closed(env, Rollback(env, s, RolledBack, Some(UNCHANGED_CANDIDATE)).s, Failure)
  {
    RollbackLawful(env, s, RolledBack, Some(UNCHANGED_CANDIDATE));
  }

  lemma SkipWaits(env: Env, s: State, guidance: string)
    requires Charged(env, s, UNCHANGED_CANDIDATE, Here(env, s)) && Spent(s, s.pending) < Limit(env, s.pending)
    requires Here(env, s).guidance == guidance
    ensures Head(env, s.(guidance := Some(env.say(Unchanged(guidance)))))
  {
  }

  lemma LargeLawful(env: Env, s: State, paid: State, guidance: string, raw: string, current: string, code: string)
    requires Answering(env, s, guidance, Here(env, s)) && AnswerIs(env, Here(env, s), raw) && Fits(Here(env, s), current)
    requires SameStory(s, paid) && paid.spent == Spend(s, s.pending).spent && paid.guidance == Some(env.say(PatchTooLarge))
    requires env.parse(raw, Context(env, current)) == Parsed(code) && !Skips(env, current, code) && TooLarge(env, current, code)
    ensures FlowLawful(env, Again(EmitCheck(env, paid, TOO_LARGE, "change budget")))
  {
    TurnedDown(env, s, paid, guidance, raw, current, TOO_LARGE, "change budget");
  }

  /** The state after the payment for a candidate that is worth writing. */
  ghost predicate Paying(env: Env, s: State, paid: State, guidance: string, raw: string, current: string, code: string) {
    && Answering(env, s, guidance, Here(env, s)) && AnswerIs(env, Here(env, s), raw) && Fits(Here(env, s), current)
    && SameStory(s, paid) && paid.spent == Spend(s, s.pending).spent
    && env.parse(raw, Context(env, current)) == Parsed(code) && Worth(env, current, code)
  }

  lemma WriteLawful(env: Env, s: State, paid: State, guidance: string, raw: string, current: string, code: string)
    requires Paying(env, s, paid, guidance, raw, current, code)
    ensures FlowLawful(env, RepairSpec.Write(env, paid, code))
  {
    match env.write(paid.repairCalls)
    case WriteFailed(exc, left) => MissedLawful(env, s, paid, guidance, raw, current, code, exc, left);
    case Written(record) => AppliedLawful(env, s, paid, guidance, raw, current, code, record);
  }

  lemma MissedLawful(env: Env, s: State, paid: State, guidance: string, raw: string, current: string, code: string, exc: string,
                     left: Option<string>)
    requires Paying(env, s, paid, guidance, raw, current, code) && env.write(paid.repairCalls) == WriteFailed(exc, left)
    ensures FlowLawful(env, Again(Missed(env, paid, exc, left)))
  {
    var l, t := Here(env, s), Missed(env, paid, exc, left);
    MarkOnlyServed(paid, Fate.Lost);
    assert UnwrittenAs(env, l, raw, current, code);
    ChargedSpent(s, paid, s.pending, l);
    LeftText(env, s.workspace, left);
    MissedWaits(env, s, t, l, exc, left);
  }

  lemma LeftText(env: Env, ws: Tree, left: Option<string>)
    ensures var t := ReadText(LeftBehind(env, ws, left), RtlFile(env));
      t == if left.Some? then RtlIdentity.LineFeeds(left.value) else ReadText(ws, RtlFile(env))
  {
  }

  lemma MissedWaits(env: Env, s: State, t: State, l: Ledger, exc: string, left: Option<string>)
    requires l == Here(env, s) && Lawful(env, s.log.records) && l.last.Asked? && l.calls > 0 && Answer(env, l).Response?
    requires env.write(l.calls) == WriteFailed(exc, left) && Unwritten(env, l, Answer(env, l).raw)
    requires Books(env, s, l) && l.candidates == s.verifierCalls
    requires t.log == s.log && t.turn == s.turn && t.repairCalls == s.repairCalls && t.verifierCalls == s.verifierCalls
    requires t.pending == s.pending && SameSpent(t, Charge(l)) && t.guidance == Some(env.say(FileWriteFailed(exc)))
    requires CurrentRtl(env, t) == if left.Some? then RtlIdentity.LineFeeds(left.value) else CurrentRtl(env, s)
    ensures Head(env, t)
  {
  }

  lemma AppliedLawful(env: Env, s: State, paid: State, guidance: string, raw: string, current: string, code: string,
                      record: string)
    requires Paying(env, s, paid, guidance, raw, current, code) && env.write(paid.repairCalls) == Written(record)
    ensures FlowLawful(env, ToVerifier(Applied(env, paid, code, record)))
  {
    var l := Here(env, s);
    var stored := Stored(env, paid, code, record);
    MarkOnlyServed(paid, Executed(code, record));
    var e := Entry(Execute, s.turn, Wrote(Repairer, code, record));
    assert Reply(env, l, raw, current, e);
    assert Here(env, stored) == l;
    EmitAllowed(env, stored, Execute, Wrote(Repairer, code, record));
    ChargedSpent(s, paid, s.pending, l);
    PlacedReady(env, s, Applied(env, paid, code, record), l);
  }

  lemma PlacedReady(env: Env, s: State, t: State, l: Ledger)
    requires Books(env, s, l) && l.candidates == s.verifierCalls && Lawful(env, t.log.records)
    requires Here(env, t) == Charge(l).(last := Placed, candidates := l.candidates + 1, text := None)
    requires t.turn == s.turn && t.repairCalls == s.repairCalls && t.verifierCalls == s.verifierCalls && t.pending == s.pending
    requires SameSpent(t, Charge(l)) && t.guidance == None
    ensures Head(env, t)
  {
  }

  lemma PaySameStory(s: State, same: bool)
    ensures SameStory(s, Pay(s, same)) && Pay(s, same).spent == Spend(s, s.pending).spent
    ensures Pay(s, same).parseAttempts == s.parseAttempts
  {
  }

  lemma JudgeLawful(env: Env, s: State, guidance: string, raw: string, current: string, code: string, same: bool)
    requires Answering(env, s, guidance, Here(env, s)) && AnswerIs(env, Here(env, s), raw) && Fits(Here(env, s), current)
    requires env.parse(raw, Context(env, current)) == Parsed(code) && s.parseAttempts < PARSE_MAX_ATTEMPTS
    ensures FlowLawful(env, Judge(env, s, guidance, code, same, Skips(env, current, code), TooLarge(env, current, code)))
  {
    var paid := Pay(s, same);
    PaySameStory(s, same);
    if Skips(env, current, code) {
      SkipLawful(env, s, paid, guidance, raw, current, code);
    } else if TooLarge(env, current, code) {
      LargeLawful(env, s, Remember(paid, TOO_LARGE).(guidance := Some(env.say(PatchTooLarge))), guidance, raw, current, code);
    } else {
      WriteLawful(env, s, paid, guidance, raw, current, code);
    }
  }

  lemma CallModelLawful(env: Env, s: State, guidance: string)
    requires s.guidance == Some(guidance) && Head(env, s) && Room(env, Settled(env, Here(env, s)))
    requires s.parseAttempts < PARSE_MAX_ATTEMPTS
    ensures FlowLawful(env, CallModel(env, s, guidance))
  {
    var asked := Ask(env, s, guidance);
    AskLawful(env, s, guidance);
    match env.repair(s.repairCalls)
    case CallFailed(exc) => CallLostLawful(env, asked, guidance, exc);
    case Response(raw, truncated) => ResponseLawful(env, s, asked, guidance, raw, truncated);
  }

  lemma ResponseLawful(env: Env, s: State, asked: State, guidance: string, raw: string, truncated: Option<bool>)
    requires asked == Ask(env, s, guidance) && Answering(env, asked, guidance, Here(env, asked))
    requires Answer(env, Here(env, asked)) == Response(raw, truncated) && asked.parseAttempts < PARSE_MAX_ATTEMPTS
    ensures FlowLawful(env, React(env, Hear(asked, guidance, raw, truncated), guidance, CurrentRtl(env, s), raw))
  {
    HeardKeeps(env, asked, guidance, raw, truncated);
    HeardLawful(env, Hear(asked, guidance, raw, truncated), guidance, raw, CurrentRtl(env, s));
  }

  lemma HeardKeeps(env: Env, s: State, guidance: string, raw: string, truncated: Option<bool>)
    requires Answering(env, s, guidance, Here(env, s)) && AnswerIs(env, Here(env, s), raw)
    ensures var t := Hear(s, guidance, raw, truncated);
      && Answering(env, t, guidance, Here(env, t)) && AnswerIs(env, Here(env, t), raw)
      && CurrentRtl(env, t) == CurrentRtl(env, s) && t.parseAttempts == s.parseAttempts
      && (Answer(env, Here(env, s)).truncated == truncated ==> AsToldBy(Answer(env, Here(env, t)), t.truncated))
  {
    var t := Hear(s, guidance, raw, truncated);
    assert t.log == s.log && SameStory(s, t) && t.spent == s.spent;
  }

  lemma HeardLawful(env: Env, s: State, guidance: string, raw: string, current: string)
    requires Answering(env, s, guidance, Here(env, s)) && AnswerIs(env, Here(env, s), raw) && current == CurrentRtl(env, s)
    requires s.parseAttempts < PARSE_MAX_ATTEMPTS && AsToldBy(Answer(env, Here(env, s)), s.truncated)
    ensures FlowLawful(env, React(env, s, guidance, current, raw))
  {
    match env.parse(raw, Context(env, current))
    case Unparseable(error) => ParseFailedLawful(env, s, guidance, raw, current, error);
    case Parsed(code) => JudgeLawful(env, s, guidance, raw, current, code, SameCandidate(current, code));
  }

  /** No parse attempts left at the loop head means that the first RTL was never parsed. */
  lemma RepairTurnLawful(env: Env, s: State, guidance: string, at: Origin)
    requires LoopInv(env, s, at) && s.guidance == Some(guidance) && Head(env, s)
    ensures FlowLawful(env, RepairTurn(env, s, guidance))
  {
    if ParseBudgetGone(s) {
      GoneEarly(env, s, guidance, at);
      EarlyBudgetEnds(env, s, guidance);
    } else if Spent(s, s.pending) + 1 > Limit(env, s.pending) {
      NoRoomLawful(env, s, guidance);
    } else {
      RoomThere(env, s, guidance);
      CallModelLawful(env, s, guidance);
    }
  }

  lemma RoomThere(env: Env, s: State, guidance: string)
    requires s.guidance == Some(guidance) && Head(env, s) && Spent(s, s.pending) < Limit(env, s.pending)
    ensures Room(env, Settled(env, Here(env, s)))
  {
  }

  lemma GoneEarly(env: Env, s: State, guidance: string, at: Origin)
    requires LoopInv(env, s, at) && s.guidance == Some(guidance) && Head(env, s) && ParseBudgetGone(s)
    ensures Here(env, s).last.Early?
  {
    var l := Here(env, s);
    assert s.repairCalls == 0 && s.lastFailureWasParse;
    assert Settled(env, l).calls == l.calls;
  }

  lemma EarlyBudgetEnds(env: Env, s: State, guidance: string)
    requires s.guidance == Some(guidance) && Head(env, s) && Here(env, s).last.Early?
    ensures Closed(env, Rollback(env, s, RolledBack, Some(PARSE_FAILURE)).s, Failure)
  {
    RollbackLawful(env, s, RolledBack, Some(PARSE_FAILURE));
  }

  lemma NoRoomLawful(env: Env, s: State, guidance: string)
    requires s.guidance == Some(guidance) && Head(env, s) && Spent(s, s.pending) >= Limit(env, s.pending)
    ensures Closed(env, Rollback(env, s, RolledBack, None).s, Failure)
  {
    var l := Here(env, s);
    assert !Room(env, Settled(env, l)) && Stalls(env, l);
    if l.last.Asked? {
      var raw := Answer(env, l).raw;
      var current, code :| UnwrittenAs(env, l, raw, current, code);
      assert Reply(env, l, raw, current, Entry(RepairOrFinish, s.turn, Finished(RolledBack, None)));
    }
    RollbackLawful(env, s, RolledBack, None);
  }

  // ---------------------------------------------------------------- one verifier run

  lemma ExaminedLawful(env: Env, s: State, v: VerifyAnswer)
    requires s.guidance == None && Head(env, s) && v == env.verify(s.verifierCalls) && v.Verdict?
    ensures var t := Examined(env, s, v.files, v.passed, v.category, v.reason); Ruled(env, t, v, Here(env, t))
  {
    var l, run := Here(env, s), Ran(s, v.files);
    assert Ruling(env, l) == v;
    EmitAllowed(env, run, Verify, Checked(v.passed, v.category, v.reason));
    RulingText(env, s.workspace, v.files);
    var t := Examined(env, s, v.files, v.passed, v.category, v.reason);
    assert Here(env, t) == l.(last := Judged(v), stage := Blamed(l, v), text := TextLeft(env, v));
  }

  lemma RulingText(env: Env, ws: Tree, files: Tree)
    ensures ReadText(Restored(ws, Outside(files)), RtlFile(env)) == ReadText(files, RtlFile(env))
  {
    RtlIsOutside(env);
  }

  /** The verdict is on the trail, and nothing follows from it yet. */
  ghost predicate Ruled(env: Env, s: State, v: VerifyAnswer, l: Ledger) {
    && Lawful(env, s.log.records) && l == Here(env, s) && v.Verdict? && l.last == Judged(v)
    && s.turn == s.repairCalls == l.calls && SameSpent(s, l) && Fits(l, CurrentRtl(env, s)) && l.candidates == s.verifierCalls
    && (if v.passed then true else l.stage == StageFor(CategoryOf(v.category), v.gate))
  }

  lemma AcceptLawful(env: Env, s: State, v: VerifyAnswer)
    requires Ruled(env, s, v, Here(env, s)) && v.passed
    ensures Closed(env, Accept(env, s, v.silicon).s, Success)
  {
    var purged := s.(snapshot := None);
    assert Here(env, purged) == Here(env, s);
    AcceptTold(env, purged, v, if v.silicon then SiliconVerified else VerifiedSuccess);
  }

  lemma AcceptTold(env: Env, s: State, v: VerifyAnswer, status: Status)
    requires Ruled(env, s, v, Here(env, s)) && v.passed && status == if v.silicon then SiliconVerified else VerifiedSuccess
    ensures Closed(env, EmitTrace(env, EmitTrace(env, s, RepairOrFinish, Finished(status, None)), Phase.Trace,
                                  Note("final_status")), Success)
  {
    var told := EmitTrace(env, s, RepairOrFinish, Finished(status, None));
    PassAllowed(env, Here(env, s), v, s.turn, status);
    EmitAllowed(env, s, RepairOrFinish, Finished(status, None));
    SuccessLedger(env, Here(env, s), s.turn, status);
    FinalNote(env, told);
  }

  lemma PassAllowed(env: Env, l: Ledger, v: VerifyAnswer, turn: nat, status: Status)
    requires l.last == Judged(v) && v.Verdict? && v.passed && turn == l.calls
    requires status == if v.silicon then SiliconVerified else VerifiedSuccess
    ensures Allowed(env, l, Entry(RepairOrFinish, turn, Finished(status, None)))
  {
  }

  lemma SuccessLedger(env: Env, l: Ledger, turn: nat, status: Status)
    requires status in {SiliconVerified, VerifiedSuccess} && l.last.Judged?
    ensures Next(env, l, Entry(RepairOrFinish, turn, Finished(status, None))) == l.(last := Passing)
  {
  }

  lemma FinalNote(env: Env, s: State)
    requires Lawful(env, s.log.records) && Here(env, s).last.Passing? && s.turn == s.repairCalls == Here(env, s).calls
    requires SameSpent(s, Here(env, s)) && Here(env, s).candidates == s.verifierCalls
    ensures Closed(env, EmitTrace(env, s, Phase.Trace, Note("final_status")), Success)
  {
    EmitAllowed(env, s, Phase.Trace, Note("final_status"));
  }

  lemma DiagnoseLawful(env: Env, s: State, v: VerifyAnswer, resubmitted: bool)
    requires Ruled(env, s, v, Here(env, s)) && !v.passed
    ensures var category := CategoryOf(v.category);
      OutcomeLawful(env, Diagnose(env, s, category, NonRepairable(category), StageFor(category, v.gate),
                                  Evidence(v.prompt, resubmitted), v.evidenceValid))
  {
    var l, category := Here(env, s), CategoryOf(v.category);
    if NonRepairable(category) {
      HopelessLawful(env, s, v);
    } else if Spent(s, l.stage) >= Limit(env, l.stage) {
      ExhaustedLawful(env, s, v);
    } else {
      EvidenceLawful(env, s, v, resubmitted);
    }
  }

  lemma EvidenceLawful(env: Env, s: State, v: VerifyAnswer, resubmitted: bool)
    requires Ruled(env, s, v, Here(env, s)) && !v.passed && !NonRepairable(CategoryOf(v.category)) && Room(env, Here(env, s))
    ensures var category := CategoryOf(v.category);
      OutcomeLawful(env, Diagnose(env, s, category, false, StageFor(category, v.gate), Evidence(v.prompt, resubmitted),
                                  v.evidenceValid))
  {
    if v.evidenceValid && AttemptValid(Spent(s, Here(env, s).stage) + 1) {
      assert Repairable(env, Here(env, s), v);
      EvidenceWaits(env, s, v, resubmitted);
    } else {
      InvalidEvidence(env, s, v);
    }
  }

  lemma InvalidEvidence(env: Env, s: State, v: VerifyAnswer)
    requires Ruled(env, s, v, Here(env, s)) && !v.passed && !NonRepairable(CategoryOf(v.category)) && Room(env, Here(env, s))
    requires !(v.evidenceValid && AttemptValid(Spent(s, Here(env, s).stage) + 1))
    ensures Closed(env, s, Raised)
  {
  }

  lemma HopelessLawful(env: Env, s: State, v: VerifyAnswer)
    requires Ruled(env, s, v, Here(env, s)) && !v.passed && NonRepairable(CategoryOf(v.category))
    ensures Closed(env, Rollback(env, s, AbortedNonRepairable, Some(CategoryOf(v.category))).s, Failure)
  {
    RollbackLawful(env, s, AbortedNonRepairable, Some(CategoryOf(v.category)));
  }

  lemma ExhaustedLawful(env: Env, s: State, v: VerifyAnswer)
    requires Ruled(env, s, v, Here(env, s)) && !v.passed && !NonRepairable(CategoryOf(v.category)) && !Room(env, Here(env, s))
    ensures Closed(env, Rollback(env, s, RolledBack, Some(CategoryOf(v.category))).s, Failure)
  {
    RollbackLawful(env, s, RolledBack, Some(CategoryOf(v.category)));
  }

  lemma EvidenceWaits(env: Env, s: State, v: VerifyAnswer, resubmitted: bool)
    requires Ruled(env, s, v, Here(env, s)) && Repairable(env, Here(env, s), v)
    ensures Head(env, Remember(s.(guidance := Some(env.say(Evidence(v.prompt, resubmitted))), pending := Here(env, s).stage,
                                  lastFailureWasParse := false), CategoryOf(v.category)))
  {
  }

  lemma RunVerifierLawful(env: Env, s: State)
    requires FreshCandidate(env, s) && s.guidance == None && Head(env, s)
    ensures OutcomeLawful(env, RunVerifier(env, s))
  {
    var v := env.verify(s.verifierCalls);
    if v.Verdict? {
      ExaminedLawful(env, s, v);
      ConcludeLawful(env, Examined(env, s, v.files, v.passed, v.category, v.reason), v);
    } else {
      CrashLawful(env, s);
    }
  }

  lemma ConcludeLawful(env: Env, s: State, v: VerifyAnswer)
    requires Ruled(env, s, v, Here(env, s))
    ensures OutcomeLawful(env, Conclude(env, s, v))
  {
    if v.passed { AcceptLawful(env, s, v); } else { DiagnoseLawful(env, s, v, RecentlyUnchanged(s.history)); }
  }

  lemma CrashLawful(env: Env, s: State)
    requires s.guidance == None && Head(env, s) && env.verify(s.verifierCalls).Crashed?
    ensures Closed(env, s.(verifierCalls := s.verifierCalls + 1, given := s.workspace), Raised)
  {
  }

  lemma IterateLawful(env: Env, s: State, at: Origin)
    requires LoopInv(env, s, at) && Head(env, s)
    ensures OutcomeLawful(env, Iterate(env, s))
  {
    match s.guidance
    case None => RunVerifierLawful(env, s);
    case Some(guidance) =>
      RepairTurnLawful(env, s, guidance, at);
      match RepairTurn(env, s, guidance)
      case ToVerifier(s') => RunVerifierLawful(env, s');
      case Again(_) =>
      case Stop(_, _) =>
  }

  lemma {:induction false} LoopLawful(env: Env, s: State, at: Origin)
    requires LoopInv(env, s, at) && Head(env, s)
    ensures Closed(env, RunLoop(env, s, at).0, RunLoop(env, s, at).1)
    decreases Unspent(env, s), if s.guidance == None then 1 else 0, 3 - Min(Streak(s.history), 3)
  {
    IterateGood(env, s, at);
    BudgetBound(env, s);
    IterateLawful(env, s, at);
    match Iterate(env, s)
    case Done(_, _) =>
    case Continue(s') => LoopLawful(env, s', at);
  }

  // ---------------------------------------------------------------- before the loop

  /** Nothing but the opening on the trail so far. */
  ghost predicate Opening(env: Env, s: State) {
    && Lawful(env, s.log.records) && Here(env, s).last.Early? && Here(env, s) == OPENING.(last := Here(env, s).last)
    && s.turn == 0 && s.repairCalls == 0 && s.verifierCalls == 0 && s.pending == Compile && s.guidance == None
    && SameSpent(s, OPENING)
  }

  predicate Aside(phase: Phase, payload: Payload) {
    var e := Entry(phase, 0, payload);
    !IsRequest(e) && !IsCandidate(e) && !IsCheck(e) && !IsEnd(e) && (payload.Wrote? ==> payload.role == HarnessLead)
  }

  lemma AsideLawful(env: Env, s: State, phase: Phase, payload: Payload)
    requires Opening(env, s) && Aside(phase, payload)
    ensures Opening(env, EmitTrace(env, s, phase, payload))
  {
    EmitAllowed(env, s, phase, payload);
  }

  lemma EarlyCheckLawful(env: Env, s: State, category: string, reason: string)
    requires Opening(env, s)
    ensures var t := EmitCheck(env, s, category, reason); Opening(env, t) && Here(env, t).last == Early(Some(category))
  {
    EmitAllowed(env, s, Verify, Checked(false, Some(category), Some(reason)));
  }

  lemma AbortLawful(env: Env, s: State, category: string, reason: string)
    requires Opening(env, s)
    ensures Closed(env, Rollback(env, EmitCheck(env, s, category, reason), AbortedNonRepairable, Some(category)).s, Failure)
  {
    EarlyCheckLawful(env, s, category, reason);
    RollbackLawful(env, EmitCheck(env, s, category, reason), AbortedNonRepairable, Some(category));
  }

  ghost predicate OpeningOutcome(env: Env, o: Outcome) {
    match o
    case Continue(s) => Opening(env, s)
    case Done(s, result) => Closed(env, s, result)
  }

  lemma BeginLawful(env: Env, at: Origin)
    ensures Opening(env, Begin(env, at.numPredict, at.workspace, Log([], at.genesis, 0)))
  {
    var s := Blank(at.numPredict, at.workspace, Log([], at.genesis, 0));
    var told := EmitTrace(env, s, Intake, Note("task"));
    var announced := EmitTrace(env, told, Route, Note("contract_first_compile_first"));
    assert Opening(env, s);
    AsideLawful(env, s, Intake, Note("task"));
    AsideLawful(env, told, Route, Note("contract_first_compile_first"));
    AsideLawful(env, CreateSnapshot(announced), Phase.Snapshot, Note("items"));
  }

  lemma ArchitectLawful(env: Env, s: State, attempt: nat)
    requires Opening(env, s)
    ensures match AskArchitect(env, s, attempt)
      case Retry(r) => Opening(env, r)
      case Settled(o) => OpeningOutcome(env, o)
  {
    var asked := EmitTrace(env, s, ModelCall, Note("contract_synthesis"));
    AsideLawful(env, s, ModelCall, Note("contract_synthesis"));
    match env.architect(attempt)
    case Rejected(exc) =>
      ParsedLawful(env, asked, Some(exc));
      assert AskArchitect(env, s, attempt) == Retry(EmitTrace(env, asked, Parse, ArchitectResult(Some(exc))));
    case Inconsistent(violations) => InconsistentLawful(env, s, attempt, asked, violations);
    case Accepted =>
      ParsedLawful(env, asked, None);
      assert AskArchitect(env, s, attempt) == Attempt.Settled(Continue(EmitTrace(env, asked, Parse, ArchitectResult(None))));
  }

  lemma InconsistentLawful(env: Env, s: State, attempt: nat, asked: State, violations: string)
    requires env.architect(attempt) == Inconsistent(violations) && Opening(env, asked)
    requires asked == EmitTrace(env, s, ModelCall, Note("contract_synthesis"))
    ensures match AskArchitect(env, s, attempt)
      case Retry(r) => Opening(env, r)
      case Settled(o) => OpeningOutcome(env, o)
  {
    if attempt == 0 {
      ParsedLawful(env, asked, Some(violations));
      assert AskArchitect(env, s, attempt) == Retry(EmitTrace(env, asked, Parse, ArchitectResult(Some(violations))));
    } else {
      var told := EmitTrace(env, asked, Parse, ArchitectResult(None));
      ParsedLawful(env, asked, None);
      RejectLawful(env, told, violations);
      assert AskArchitect(env, s, attempt) == Attempt.Settled(RejectContract(env, told, violations));
    }
  }

  lemma ParsedLawful(env: Env, s: State, error: Option<string>)
    requires Opening(env, s)
    ensures Opening(env, EmitTrace(env, s, Parse, ArchitectResult(error)))
  {
    AsideLawful(env, s, Parse, ArchitectResult(error));
  }

  lemma RejectLawful(env: Env, s: State, violations: string)
    requires Opening(env, s)
    ensures OpeningOutcome(env, RejectContract(env, s, violations))
  {
    AbortLawful(env, s, "SPECIFICATION_ERROR", violations);
  }

  lemma ContractLawful(env: Env, s: State)
    requires Opening(env, s)
    ensures OpeningOutcome(env, AgreeContract(env, s))
  {
    if env.contractGiven {
      AsideLawful(env, s, Parse, ArchitectResult(None));
    } else {
      ArchitectLawful(env, s, 0);
      var first := AskArchitect(env, s, 0);
      if first.Retry? {
        ArchitectLawful(env, first.s, 1);
        var second := AskArchitect(env, first.s, 1);
        if second.Retry? { OutOfAnswers(env, second.s); }
      }
    }
  }

  lemma OutOfAnswers(env: Env, s: State)
    requires Opening(env, s)
    ensures Closed(env, Restore(s), Failure) && Closed(env, s, Raised)
  {
    assert Restore(s).log == s.log;
  }

  lemma HarnessLawful(env: Env, s: State)
    requires Opening(env, s)
    ensures OpeningOutcome(env, StageHarness(env, s))
  {
    match env.harness
    case UnverifiableProperty(exc) => AbortLawful(env, s, "UNSUPPORTED_FORMAL_PROPERTY", exc);
    case VacuousProperties(exc) => AbortLawful(env, s, "NO_GENUINE_PROPERTY", exc);
    case HarnessBuilt =>
      if env.staging.AllStaged? {
        var staged := s.(workspace := s.workspace + StagedFiles(env));
        assert Opening(env, staged);
        AsideLawful(env, staged, Execute, Wrote(HarnessLead, "", ""));
        AsideLawful(env, EmitTrace(env, staged, Execute, Wrote(HarnessLead, "", "")), ModelCall, Note("rtl_generation"));
      } else {
        assert Opening(env, s.(workspace := s.workspace + Outside(env.staging.left)));
        OutOfAnswers(env, s.(workspace := s.workspace + Outside(env.staging.left)));
      }
  }

  lemma GivesUpLawful(env: Env, s: State, exc: string)
    requires Opening(env, s)
    ensures OutcomeLawful(env, GenerationGivesUp(env, s, exc))
  {
    if env.generationEvidenceValid {
      GivenUp(env, s, s.(guidance := Some(env.say(GenerationFailed(exc))), lastFailureWasParse := true), exc);
    } else {
      OutOfAnswers(env, s);
    }
  }

  lemma GivenUp(env: Env, s: State, t: State, exc: string)
    requires Opening(env, s) && t == s.(guidance := Some(env.say(GenerationFailed(exc))), lastFailureWasParse := true)
    ensures Head(env, EmitCheck(env, t, PARSE_FAILURE, exc))
  {
    assert Here(env, t) == Here(env, s);
    EmitAllowed(env, t, Verify, Checked(false, Some(PARSE_FAILURE), Some(exc)));
    EarlyNext(env, Here(env, s), t.turn, PARSE_FAILURE, exc);
    FirstWaits(env, s, EmitCheck(env, t, PARSE_FAILURE, exc), exc);
  }

  lemma EarlyNext(env: Env, l: Ledger, turn: nat, category: string, reason: string)
    requires l.last.Early?
    ensures Next(env, l, Entry(Verify, turn, Checked(false, Some(category), Some(reason)))) == l.(last := Early(Some(category)))
  {
  }

  lemma FirstWaits(env: Env, s: State, t: State, exc: string)
    requires Opening(env, s) && Lawful(env, t.log.records) && Here(env, t) == OPENING.(last := Early(Some(PARSE_FAILURE)))
    requires t.turn == 0 && t.repairCalls == 0 && t.verifierCalls == 0 && t.pending == Compile && t.spent == s.spent
    requires t.guidance == Some(env.say(GenerationFailed(exc)))
    ensures Head(env, t)
  {
  }

  lemma FirstLawful(env: Env, s: State, code: string, n: nat, raw: string)
    requires Opening(env, s) && GeneratedFrom(env, code, n, raw)
    ensures OutcomeLawful(env, PlaceFirst(env, s, code))
  {
    match env.firstWrite
    case WriteFailed(exc, left) =>
      var t := s.(workspace := LeftBehind(env, s.workspace, left));
      assert Opening(env, t);
      GivesUpLawful(env, t, exc);
    case Written(record) =>
      var t := s.(workspace := WriteFile(s.workspace, RtlFile(env), code));
      assert Here(env, t) == Here(env, s);
      assert Generated(env, code, record);
      EmitAllowed(env, t, Execute, Wrote(Designer, code, record));
  }

  lemma {:induction false} GenerationLawful(env: Env, s: State)
    requires Opening(env, s)
    ensures OutcomeLawful(env, GenerateRtl(env, s))
    decreases PARSE_MAX_ATTEMPTS - s.parseAttempts
  {
    var n := |s.rawInitial|;
    match env.generate(n)
    case CallFailed(exc) => GivesUpLawful(env, s, exc);
    case Response(raw, truncated) =>
      var got := Account(s, truncated).(rawInitial := s.rawInitial + [raw]);
      AccountOnly(s, truncated);
      SameOpening(env, s, got);
      GenerateNext(env, s, n, raw, truncated, got);
      if env.parse(raw, None).Parsed? {
        FirstLawful(env, got, env.parse(raw, None).code, n, raw);
      } else {
        var error := env.parse(raw, None).error;
        var failed := FirstParseFailed(env, got, error);
        FirstUnparsed(env, got, error);
        FailedMore(env, got, error);
        if ParseBudgetGone(failed) { GivesUpLawful(env, failed, error); } else { GenerationLawful(env, failed); }
      }
  }

  lemma AccountOnly(s: State, truncated: Option<bool>)
    ensures Account(s, truncated) == s.(truncated := Account(s, truncated).truncated)
  {
  }

  lemma FailedMore(env: Env, s: State, error: string)
    ensures FirstParseFailed(env, s, error).parseAttempts == s.parseAttempts + 1
  {
  }

  lemma FirstUnparsed(env: Env, s: State, error: string)
    requires Opening(env, s)
    ensures Opening(env, FirstParseFailed(env, s, error))
  {
    var counted := Bump(s.(parseAttempts := s.parseAttempts + 1));
    BumpOnly(s.(parseAttempts := s.parseAttempts + 1));
    SameOpening(env, s, counted);
    EarlyCheckLawful(env, counted, PARSE_FAILURE, error);
  }

  lemma BumpOnly(s: State)
    ensures Bump(s) == s.(numPredict := Bump(s).numPredict)
  {
  }

  lemma SameOpening(env: Env, s: State, t: State)
    requires Opening(env, s) && t.log == s.log && t.turn == s.turn && t.repairCalls == s.repairCalls
    requires t.verifierCalls == s.verifierCalls && t.pending == s.pending && t.guidance == s.guidance && t.spent == s.spent
    ensures Opening(env, t)
  {
  }

  lemma PreludeLawful(env: Env, at: Origin)
    ensures OutcomeLawful(env, Prelude(env, at.numPredict, at.workspace, Log([], at.genesis, 0)))
  {
    var s := Begin(env, at.numPredict, at.workspace, Log([], at.genesis, 0));
    BeginLawful(env, at);
    ContractLawful(env, s);
    var contract := AgreeContract(env, s);
    if contract.Continue? {
      HarnessLawful(env, contract.s);
      var harness := StageHarness(env, contract.s);
      if harness.Continue? { GenerationLawful(env, harness.s); }
    }
  }

  // ---------------------------------------------------------------- every run

  /** A run from an empty trail. */
  ghost function Run(env: Env, at: Origin): (State, Result) { Pipeline(env, at, Log([], at.genesis, 0)) }

  /** Every event of every run is one that the events before it and the answers from outside allow, the run ends as the
      last event says, and the driver's counters are those of the trail: calls, candidates verified, and what each
      stage was charged. */
  lemma RunLawful(env: Env, at: Origin)
    ensures Closed(env, Run(env, at).0, Run(env, at).1)
  {
    var log := Log([], at.genesis, 0);
    PreludeGood(env, at, log);
    PreludeLawful(env, at);
    match Prelude(env, at.numPredict, at.workspace, log)
    case Done(_, _) =>
    case Continue(s) => LoopLawful(env, s, at);
  }

  // ---------------------------------------------------------------- what a failed verdict leads to

  /** The verdict `v` on candidate number `n`, counted from 0, is the event before position `p`. */
  ghost predicate VerdictBefore(env: Env, records: seq<TraceRecord<Payload>>, p: nat, n: nat, v: VerifyAnswer) {
    && 2 <= p <= |records| && IsCandidate(Said(records[p - 2])) && n + 1 == Count(IsCandidate, records[..p - 1])
    && v == env.verify(n) && v.Verdict?
    && records[p - 1].event.phase == Verify && records[p - 1].event.payload == Checked(v.passed, v.category, v.reason)
  }

  /** How many events of a kind there are. */
  function Count(kind: Entry<Payload> -> bool, records: seq<TraceRecord<Payload>>): nat {
    if records == [] then 0 else
    Count(kind, records[..|records| - 1]) + if kind(Said(records[|records| - 1])) then 1 else 0
  }

  lemma {:induction false} LedgerCounts(env: Env, records: seq<TraceRecord<Payload>>)
    ensures var l := LedgerOf(env, records); l.calls == Count(IsRequest, records) && l.candidates == Count(IsCandidate, records)
  {
    if records != [] { LedgerCounts(env, records[..|records| - 1]); }
  }

  lemma LedgerStep(env: Env, records: seq<TraceRecord<Payload>>, p: nat)
    requires p < |records|
    ensures LedgerOf(env, records[..p + 1]) == Next(env, LedgerOf(env, records[..p]), Said(records[p]))
  {
    assert records[..p + 1][..p] == records[..p];
  }

  lemma CountStep(kind: Entry<Payload> -> bool, records: seq<TraceRecord<Payload>>, p: nat)
    requires p < |records|
    ensures Count(kind, records[..p + 1]) == Count(kind, records[..p]) + if kind(Said(records[p])) then 1 else 0
  {
    assert records[..p + 1][..p] == records[..p];
  }

  lemma LawfulAt(env: Env, records: seq<TraceRecord<Payload>>, p: nat)
    requires Lawful(env, records) && p < |records|
    ensures Allowed(env, LedgerOf(env, records[..p]), Said(records[p]))
  {
  }

  /** The ledger after a verdict. */
  lemma VerdictLedger(env: Env, records: seq<TraceRecord<Payload>>, p: nat, n: nat, v: VerifyAnswer)
    requires VerdictBefore(env, records, p, n, v)
    ensures var l := LedgerOf(env, records[..p]);
      l.last == Judged(v) && l.candidates == n + 1 && (!v.passed ==> l.stage == StageFor(CategoryOf(v.category), v.gate))
  {
    var q := p - 2;
    LedgerStep(env, records, q);
    LedgerStep(env, records, q + 1);
    LedgerCounts(env, records[..p - 1]);
    assert p - 1 == q + 1;
    JudgedNext(env, LedgerOf(env, records[..q + 1]), Said(records[q + 1]), n, v);
  }

  lemma JudgedNext(env: Env, l: Ledger, e: Entry<Payload>, n: nat, v: VerifyAnswer)
    requires l.last.Placed? && l.candidates == n + 1 && v == env.verify(n) && v.Verdict? && IsCheck(e)
    ensures var t := Next(env, l, e);
      t.last == Judged(v) && t.candidates == n + 1 && (!v.passed ==> t.stage == StageFor(CategoryOf(v.category), v.gate))
  {
  }

  lemma {:induction false} CandidateNumber(records: seq<TraceRecord<Payload>>, n: nat) returns (q: nat)
    requires n < Count(IsCandidate, records)
    ensures q < |records| && IsCandidate(Said(records[q])) && Count(IsCandidate, records[..q + 1]) == n + 1
  {
    var k := |records| - 1;
    if n < Count(IsCandidate, records[..k]) {
      q := CandidateNumber(records[..k], n);
      assert records[..k][..q + 1] == records[..q + 1];
    } else {
      q := k;
      assert records[..q + 1] == records;
    }
  }

  /** Every verdict of the verifier stands on the trail, right after its candidate. */
  lemma VerdictStands(env: Env, at: Origin, n: nat) returns (p: nat)
    requires n < Run(env, at).0.verifierCalls && env.verify(n).Verdict?
    ensures VerdictBefore(env, Run(env, at).0.log.records, p, n, env.verify(n))
  {
    RunLawful(env, at);
    LedgerCounts(env, Run(env, at).0.log.records);
    p := VerdictIn(env, Run(env, at).0, Run(env, at).1, n);
  }

  lemma VerdictIn(env: Env, s: State, result: Result, n: nat) returns (p: nat)
    requires Closed(env, s, result) && n < Count(IsCandidate, s.log.records) && env.verify(n).Verdict?
    ensures VerdictBefore(env, s.log.records, p, n, env.verify(n))
  {
    var records := s.log.records;
    var q := CandidateNumber(records, n);
    p := q + 2;
    LedgerStep(env, records, q);
    LedgerCounts(env, records[..q + 1]);
    var l := LedgerOf(env, records[..q + 1]);
    assert l.last.Placed? && Ruling(env, l) == env.verify(n);
    NotTheLast(env, s, result, q, l);
    LawfulAt(env, records, q + 1);
  }

  /** A run whose last event is a candidate has lost its verifier. */
  lemma NotTheLast(env: Env, s: State, result: Result, q: nat, l: Ledger)
    requires Closed(env, s, result) && q < |s.log.records| && l == LedgerOf(env, s.log.records[..q + 1])
    requires l.last.Placed? && Ruling(env, l).Verdict?
    ensures q + 1 < |s.log.records|
  {
    var records := s.log.records;
    StillRunning(env, Here(env, s), result);
    assert records[..|records|] == records;
    assert LedgerOf(env, records[..|records|]) == Here(env, s);
  }

  lemma StillRunning(env: Env, l: Ledger, result: Result)
    requires Closing(env, l, result)
    ensures !(l.last.Placed? && Ruling(env, l).Verdict?)
  {
  }

  /** Nothing follows the end. */
  lemma OverIsLast(env: Env, records: seq<TraceRecord<Payload>>, p: nat)
    requires Lawful(env, records) && p <= |records| && LedgerOf(env, records[..p]).last.Over?
    ensures p == |records|
  {
    if p < |records| {
      LawfulAt(env, records, p);
      assert false;
    }
  }

  /** The run is over with this event: no further repair call and no further verifier call. */
  ghost predicate GivesUpAt(s: State, result: Result, p: nat, status: Status, category: string) {
    var records := s.log.records;
    && result == Failure && |records| == p + 1 && Ends(Said(records[p]), status, Some(category))
    && s.repairCalls == Count(IsRequest, records[..p]) && s.verifierCalls == Count(IsCandidate, records[..p])
  }

  /** The next event asks the model for a repair, with the evidence prompt of the verdict. */
  ghost predicate AsksWithEvidence(env: Env, e: Entry<Payload>, v: VerifyAnswer) {
    IsRequest(e) && e.payload.role == Repairer && SaysEvidence(env, v, e.payload.guidance)
  }

  /** What follows the verdict before position `p`. A category that cannot be repaired, or a stage whose budget is used
      up, ends the run at once, in a rollback with that category. Otherwise the model is asked for a repair with the
      evidence of that verdict, and the turns that follow are charged to the stage of its category; only evidence that
      does not pass its validation makes the run raise instead. */
  ghost predicate Decided(env: Env, s: State, result: Result, p: nat, l: Ledger, v: VerifyAnswer)
    requires v.Verdict?
  {
    var category := CategoryOf(v.category);
    var stage := StageFor(category, v.gate);
    && l.stage == stage
    && if NonRepairable(category) then GivesUpAt(s, result, p, AbortedNonRepairable, category)
       else if Used(l.charged, stage) >= Limit(env, stage) then GivesUpAt(s, result, p, RolledBack, category)
       else if v.evidenceValid && AttemptValid(Used(l.charged, stage) + 1)
       then p < |s.log.records| && AsksWithEvidence(env, Said(s.log.records[p]), v)
       else p == |s.log.records| && result == Raised
  }

  /** Every verdict of the verifier in every run: it stands on the trail, and a failed one has these consequences. */
  lemma VerdictDecides(env: Env, at: Origin, n: nat, v: VerifyAnswer) returns (p: nat)
    requires n < Run(env, at).0.verifierCalls && v == env.verify(n) && v.Verdict?
    ensures VerdictBefore(env, Run(env, at).0.log.records, p, n, v)
    ensures !v.passed ==> Decided(env, Run(env, at).0, Run(env, at).1, p, LedgerOf(env, Run(env, at).0.log.records[..p]), v)
  {
    p := VerdictStands(env, at, n);
    RunLawful(env, at);
    VerdictLedger(env, Run(env, at).0.log.records, p, n, v);
    if !v.passed { DecidesIn(env, Run(env, at).0, Run(env, at).1, p, LedgerOf(env, Run(env, at).0.log.records[..p]), v); }
  }

  lemma DecidesIn(env: Env, s: State, result: Result, p: nat, l: Ledger, v: VerifyAnswer)
    requires Closed(env, s, result) && p <= |s.log.records| && l == LedgerOf(env, s.log.records[..p])
    requires l.last == Judged(v) && v.Verdict? && !v.passed && l.stage == StageFor(CategoryOf(v.category), v.gate)
    ensures Decided(env, s, result, p, l, v)
  {
    var records := s.log.records;
    if p == |records| {
      assert records[..p] == records;
      EndsUndecided(env, s, result, p, l, v);
    } else {
      LawfulAt(env, records, p);
      AfterFailed(env, l, v, Said(records[p]));
      if IsEnd(Said(records[p])) { EndOfRun(env, s, result, records, p, l); }
    }
  }

  lemma EndsUndecided(env: Env, s: State, result: Result, p: nat, l: Ledger, v: VerifyAnswer)
    requires Closing(env, l, result) && l.last == Judged(v) && v.Verdict? && !v.passed && p == |s.log.records|
    requires l.stage == StageFor(CategoryOf(v.category), v.gate)
    ensures Decided(env, s, result, p, l, v)
  {
  }

  lemma AfterFailed(env: Env, l: Ledger, v: VerifyAnswer, e: Entry<Payload>)
    requires Allowed(env, l, e) && l.last == Judged(v) && v.Verdict? && !v.passed
    ensures var category := CategoryOf(v.category);
      if NonRepairable(category) then Ends(e, AbortedNonRepairable, Some(category))
      else if Used(l.charged, l.stage) >= Limit(env, l.stage) then Ends(e, RolledBack, Some(category))
      else AsksWithEvidence(env, e, v) && v.evidenceValid && AttemptValid(Used(l.charged, l.stage) + 1)
  {
  }

  lemma EndOfRun(env: Env, s: State, result: Result, records: seq<TraceRecord<Payload>>, p: nat, l: Ledger)
    requires records == s.log.records && p < |records| && l == LedgerOf(env, records[..p]) && l.last.Judged?
    requires Closed(env, s, result) && IsEnd(Said(records[p]))
    requires Said(records[p]).payload.status in {RolledBack, AbortedNonRepairable}
    ensures result == Failure && |records| == p + 1
    ensures s.repairCalls == Count(IsRequest, records[..p]) && s.verifierCalls == Count(IsCandidate, records[..p])
  {
    LedgerStep(env, records, p);
    EndNext(env, l, Said(records[p]));
    OverIsLast(env, records, p + 1);
    assert records[..p + 1] == records;
    LedgerCounts(env, records[..p]);
    FailureOnly(env, s, result, l);
  }

  lemma EndNext(env: Env, l: Ledger, e: Entry<Payload>)
    requires l.last.Judged? && IsEnd(e) && e.payload.status in {RolledBack, AbortedNonRepairable}
    ensures Next(env, l, e) == l.(last := Over(false))
  {
  }

  lemma FailureOnly(env: Env, s: State, result: Result, l: Ledger)
    requires Closed(env, s, result) && Here(env, s) == l.(last := Over(false))
    ensures result == Failure && s.repairCalls == l.calls && s.verifierCalls == l.candidates
  {
  }

  /** As long as no further candidate is judged, charges go to one stage. */
  ghost predicate ChargesTo(stage: Stage, before: Ledger, after: Ledger) {
    && after.stage == stage && Used(after.charged, stage) >= Used(before.charged, stage)
    && forall k :: k != stage ==> Used(after.charged, k) == Used(before.charged, k)
  }

  /** A turn begins after a verdict and is not over yet. */
  predicate Underway(l: Ledger) { !l.last.Early? && !l.last.Placed? }

  lemma NextCharges(env: Env, stage: Stage, before: Ledger, l: Ledger, e: Entry<Payload>)
    requires ChargesTo(stage, before, l) && Underway(l) && Allowed(env, l, e)
    ensures var t := Next(env, l, e); ChargesTo(stage, before, t) && (!IsCandidate(e) ==> Underway(t))
    ensures IsCandidate(e) ==> Used(Next(env, l, e).charged, stage) > Used(before.charged, stage)
  {
    SettledCharges(env, stage, before, l);
    ChargeCharges(stage, before, l);
    if IsCandidate(e) {
      assert e.payload.role == Repairer;
    } else if IsCheck(e) {
      assert l.last.Asked?;
    }
  }

  lemma ChargeCharges(stage: Stage, before: Ledger, l: Ledger)
    requires ChargesTo(stage, before, l)
    ensures ChargesTo(stage, before, Charge(l)) && Used(Charge(l).charged, stage) > Used(before.charged, stage)
  {
  }

  lemma SettledCharges(env: Env, stage: Stage, before: Ledger, l: Ledger)
    requires ChargesTo(stage, before, l)
    ensures ChargesTo(stage, before, Settled(env, l))
  {
    ChargeCharges(stage, before, l);
  }

  /** A failed verdict on candidate `n` stands before position `p`. */
  ghost predicate FailedBefore(env: Env, records: seq<TraceRecord<Payload>>, p: nat, n: nat, stage: Stage) {
    && p <= |records| && LedgerOf(env, records[..p]).last.Judged? && LedgerOf(env, records[..p]).candidates == n + 1
    && LedgerOf(env, records[..p]).stage == stage
  }

  lemma {:induction false} ChargesStay(env: Env, records: seq<TraceRecord<Payload>>, p: nat, q: nat, n: nat, stage: Stage)
    requires Lawful(env, records) && FailedBefore(env, records, p, n, stage) && p <= q <= |records|
    requires Count(IsCandidate, records[..q]) == n + 1
    ensures var l := LedgerOf(env, records[..q]); ChargesTo(stage, LedgerOf(env, records[..p]), l) && Underway(l)
    decreases q
  {
    if q > p {
      var r, before := q - 1, LedgerOf(env, records[..p]);
      OneFewer(env, records, p, r, q, n);
      ChargesStay(env, records, p, r, n, stage);
      LawfulAt(env, records, r);
      NextCharges(env, stage, before, LedgerOf(env, records[..r]), Said(records[r]));
    }
  }

  lemma OneFewer(env: Env, records: seq<TraceRecord<Payload>>, p: nat, r: nat, q: nat, n: nat)
    requires p <= r < |records| && q == r + 1 && LedgerOf(env, records[..p]).candidates == n + 1
    requires Count(IsCandidate, records[..q]) == n + 1
    ensures Count(IsCandidate, records[..r]) == n + 1 && !IsCandidate(Said(records[r]))
    ensures LedgerOf(env, records[..q]) == Next(env, LedgerOf(env, records[..r]), Said(records[r]))
  {
    LedgerStep(env, records, r);
    CountStep(IsCandidate, records, r);
    CandidatesGrow(env, records, p, r, n);
  }

  lemma CandidatesGrow(env: Env, records: seq<TraceRecord<Payload>>, p: nat, r: nat, n: nat)
    requires p <= r <= |records| && LedgerOf(env, records[..p]).candidates == n + 1
    ensures Count(IsCandidate, records[..r]) >= n + 1
  {
    LedgerCounts(env, records[..p]);
    CountGrows(IsCandidate, records, p, r);
  }

  lemma {:induction false} CountGrows(kind: Entry<Payload> -> bool, records: seq<TraceRecord<Payload>>, p: nat, r: nat)
    requires p <= r <= |records|
    ensures Count(kind, records[..p]) <= Count(kind, records[..r])
    decreases r
  {
    if p < r {
      var q := r - 1;
      CountGrows(kind, records, p, q);
      CountStep(kind, records, q);
    }
  }

  /** The repair turns from a failed verdict to the next candidate are charged to the stage of its category and to no
      other, the one that yields the candidate among them. */
  lemma ChargedToStage(env: Env, at: Origin, p: nat, n: nat, v: VerifyAnswer, q: nat)
    requires VerdictBefore(env, Run(env, at).0.log.records, p, n, v) && !v.passed
    requires var records := Run(env, at).0.log.records;
      p <= q < |records| && IsCandidate(Said(records[q])) && Count(IsCandidate, records[..q]) == n + 1
    ensures var records := Run(env, at).0.log.records; var stage := StageFor(CategoryOf(v.category), v.gate);
      var before, after := LedgerOf(env, records[..p]), LedgerOf(env, records[..q + 1]);
      ChargesTo(stage, before, after) && Used(after.charged, stage) > Used(before.charged, stage)
  {
    var records := Run(env, at).0.log.records;
    var stage := StageFor(CategoryOf(v.category), v.gate);
    RunLawful(env, at);
    VerdictLedger(env, records, p, n, v);
    ChargesStay(env, records, p, q, n, stage);
    LawfulAt(env, records, q);
    LedgerStep(env, records, q);
    NextCharges(env, stage, LedgerOf(env, records[..p]), LedgerOf(env, records[..q]), Said(records[q]));
  }

  // ---------------------------------------------------------------- the categories of the gates

  /** What the driver does with a category: give up, or have it repaired at the cost of a stage. */
  datatype Disposition = GiveUp | RepairAs(stage: Stage)

  function DispositionOf(category: string): Disposition {
    if NonRepairable(category) then GiveUp else RepairAs(StageFor(category, ""))
  }

  lemma {:induction false} ContainsAt(s: string, part: string, i: nat)
    requires i + |part| <= |s| && s[i..i + |part|] == part
    ensures Contains(s, part)
  {
    if i > 0 {
      assert s[1..][i - 1..i - 1 + |part|] == part;
      ContainsAt(s[1..], part, i - 1);
    }
  }

  lemma {:induction false} LetterThere(s: string, part: string, c: char)
    requires Contains(s, part) && c in part
    ensures c in s
  {
    if part <= s {
      var i :| 0 <= i < |part| && part[i] == c;
      assert s[i] == c;
    } else {
      LetterThere(s[1..], part, c);
    }
  }

  lemma NotWithin(s: string, part: string, c: char)
    requires c in part && c !in s
    ensures !Contains(s, part)
  {
    if Contains(s, part) { LetterThere(s, part, c); }
  }

  /** Neither a category that ends the run, nor one of the compile stage, nor of the simulation stage by its beginning. */
  predicate Elsewhere(category: string) {
    && category != "" && !NonRepairable(category) && DispositionOf(category) != RepairAs(Compile)
    && category[0] !in {'S', 'C', 'M'}
  }

  lemma NotSimulation(category: string)
    requires Elsewhere(category)
    ensures !("SIMULATION" <= category) && !("COVERAGE" <= category) && category != "MISSING_VERIFICATION_ARTIFACT"
  {
    if "SIMULATION" <= category { FirstOf("SIMULATION", category); }
    if "COVERAGE" <= category { FirstOf("COVERAGE", category); }
  }

  lemma FirstOf(part: string, s: string)
    requires part <= s && part != ""
    ensures s[0] == part[0]
  {
  }

  lemma FormalGate(category: string, i: nat)
    requires Elsewhere(category) && i + 6 <= |category| && category[i..i + 6] == "FORMAL"
    ensures DispositionOf(category) == RepairAs(Formal)
  {
    NotSimulation(category);
    ContainsAt(category, "FORMAL", i);
  }

  lemma TimingGate(category: string)
    requires Elsewhere(category) && |category| >= 6 && category[..6] == "TIMING" && 'R' !in category
    ensures DispositionOf(category) == RepairAs(Timing)
  {
    NotSimulation(category);
    ContainsAt(category, "TIMING", 0);
    NotWithin(category, "FORMAL", 'R');
    assert category[0] == category[..6][0];
  }

  lemma OtherGate(category: string, f: char, t: char)
    requires Elsewhere(category) && f in "FORMAL" && f !in category && t in "TIMING" && t !in category
    requires category !in {"UNSUPPORTED_FORMAL_PROPERTY", "EMPTY_FORMAL_PROPERTY_SET"}
    ensures DispositionOf(category) == RepairAs(Other)
  {
    NotSimulation(category);
    NotWithin(category, "FORMAL", f);
    NotWithin(category, "TIMING", t);
  }

  // What becomes of the categories that the gates of the verifier report.

  lemma CompileGates(category: string)
    requires category in {"SYNTAX_ERROR", "INTERFACE_ERROR", "TYPE_WIDTH_ERROR", "CLOCK_RESET_ERROR", "LATCH_INFERRED",
                          "COMBINATIONAL_LOOP"}
    ensures DispositionOf(category) == RepairAs(Compile)
  {
  }

  lemma SimulationGates(category: string)
    requires category in {"SIMULATION_FAILURE", "COVERAGE_DEFICIT", "COVERAGE_BUILD_FAILURE"}
    ensures DispositionOf(category) == RepairAs(Simulation)
  {
    assert category[..8] == "COVERAGE" || category[..10] == "SIMULATION";
  }

  lemma FormalGates()
    ensures DispositionOf("FORMAL_TIMEOUT") == DispositionOf("FORMAL_INVARIANT_BREACH") == RepairAs(Formal)
    ensures DispositionOf("FORMAL_ANALYSIS_FAILED") == DispositionOf("EMPTY_FORMAL_PROPERTY_SET") == RepairAs(Formal)
  {
    FormalFirst("FORMAL_TIMEOUT");
    FormalFirst("FORMAL_INVARIANT_BREACH");
    FormalFirst("FORMAL_ANALYSIS_FAILED");
    EmptyFormalSet();
  }

  lemma FormalFirst(category: string)
    requires category in {"FORMAL_TIMEOUT", "FORMAL_INVARIANT_BREACH", "FORMAL_ANALYSIS_FAILED"}
    ensures DispositionOf(category) == RepairAs(Formal)
  {
    assert category[0] == 'F';
    assert category[..6] == "FORMAL";
    FormalGate(category, 0);
  }

  lemma EmptyFormalSet()
    ensures DispositionOf("EMPTY_FORMAL_PROPERTY_SET") == RepairAs(Formal)
  {
    var category := "EMPTY_FORMAL_PROPERTY_SET";
    assert category[0] == 'E';
    NotSimulation(category);
  }

  lemma TimingGates(category: string)
    requires category in {"TIMING_SLACK_VIOLATION", "TIMING_ANALYSIS_FAILED"}
    ensures DispositionOf(category) == RepairAs(Timing)
  {
    assert category[0] == 'T';
    assert category[..6] == "TIMING";
    assert 'R' !in category;
    TimingGate(category);
  }

  lemma OtherGates(category: string)
    requires category in {"HOLD_SLACK_VIOLATION", "LEC_VERIFICATION_FAILED", "UNKNOWN_ERROR"}
    ensures DispositionOf(category) == RepairAs(Other)
  {
    assert 'M' in "FORMAL" && 'M' in "TIMING";
    NoM(category);
    OtherGate(category, 'M', 'M');
  }

  lemma NoM(category: string)
    requires category in {"HOLD_SLACK_VIOLATION", "LEC_VERIFICATION_FAILED", "UNKNOWN_ERROR"}
    ensures 'M' !in category && category != "" && category[0] in {'H', 'L', 'U'}
  {
  }

  const HOPELESS: set<string> := {"EDA_BINARY_MISSING", "TIMING_REPORT_UNPARSEABLE", "MISSING_SOURCE_FILES",
                                  "MISSING_NETLIST_FOR_PNR", "MISSING_LIBERTY_FOR_PNR", "CDC_ANALYSIS_FAILED",
                                  "CDC_TOOLING_UNAVAILABLE", "CDC_INCONCLUSIVE", "CDC_CHECKER_ERROR", "NO_GENUINE_PROPERTY",
                                  "SPECIFICATION_ERROR", "ENVIRONMENT_FAILURE"}

  lemma HopelessGates(category: string)
    ensures DispositionOf(category) == GiveUp <==> category in HOPELESS
  {
  }
}
