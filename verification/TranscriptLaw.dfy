/** What the extracted records say about the answers from outside: each record's verdict, category and reason, the first
    RTL, and the failure the repairs start from. */
module TranscriptLaw {
  import opened Options
  import opened TraceLog
  import opened RepairSpec
  import opened RepairRun
  import opened TrailLaw
  import opened Transcript

  /** An event that makes a record. */
  predicate IsRecord(e: Entry<Payload>) { e.phase == Verify && e.turn != 0 }

  // ---------------------------------------------------------------- the replay by positions

  lemma ReplayPrefix(records: seq<TraceRecord<Payload>>, raws: seq<string>, k: nat)
    requires |records| == k + 1
    ensures ReplayAll(records, raws) ==
            ReplayStep(ReplayAll(records[..k], raws), records[k].phase, records[k].event.turn, records[k].event.payload, raws)
  {
  }

  /** Phases are on the record and in its event. */
  ghost predicate Labelled(records: seq<TraceRecord<Payload>>) {
    forall i :: 0 <= i < |records| ==> records[i].event.phase == records[i].phase
  }

  lemma {:induction false} Taken(records: seq<TraceRecord<Payload>>, raws: seq<string>)
    requires Labelled(records)
    ensures var r := ReplayAll(records, raws); r.taken == Min(|r.attempts|, |raws|) && |r.attempts| == Count(IsRecord, records)
  {
    if records != [] { Taken(records[..|records| - 1], raws); }
  }

  /** The record made of an event, given the replay of what comes before. */
  function RecordOf(r: Replay, e: Event<Payload>, raws: seq<string>): RepairRecord {
    RepairRecord(e.turn, r.guidance, r.rtl, At(raws, r.taken), PassedOf(e.payload), CategoryIn(e.payload), ReasonIn(e.payload))
  }

  lemma {:induction false} AttemptAt(records: seq<TraceRecord<Payload>>, raws: seq<string>, k: nat) returns (p: nat)
    requires Labelled(records) && k < |ReplayAll(records, raws).attempts|
    ensures p < |records| && IsRecord(Said(records[p])) && Count(IsRecord, records[..p]) == k
    ensures ReplayAll(records, raws).attempts[k] == RecordOf(ReplayAll(records[..p], raws), records[p].event, raws)
  {
    var n := |records| - 1;
    var init := records[..n];
    Taken(init, raws);
    if k < |ReplayAll(init, raws).attempts| {
      p := AttemptAt(init, raws, k);
      assert init[..p] == records[..p];
    } else {
      p := n;
    }
  }

  // ---------------------------------------------------------------- the replay of a lawful trail

  /** What replay and ledger have in common. */
  ghost predicate Matches(r: Replay, l: Ledger) {
    && (l.last.Early? ==> l.calls == 0 && l.candidates == 0)
    && (l.calls > 0 ==> r.guidance == l.guidance)
    && (!l.last.Placed? ==> r.rtl == None)
    && (l.calls == 0 ==> r.rtl == None)
  }

  lemma StepMatches(env: Env, r: Replay, l: Ledger, e: Entry<Payload>, raws: seq<string>)
    requires Matches(r, l) && Allowed(env, l, e)
    ensures Matches(ReplayStep(r, e.phase, e.turn, e.payload, raws), Next(env, l, e))
    ensures IsCandidate(e) ==> e.payload.role == if l.calls == 0 then Designer else Repairer
  {
    if l.last.Early? {
      EarlyMatches(env, r, l, e, raws);
    } else if l.last.Asked? {
      AskedMatches(env, r, l, e, raws);
    }
  }

  lemma EarlyMatches(env: Env, r: Replay, l: Ledger, e: Entry<Payload>, raws: seq<string>)
    requires Matches(r, l) && Allowed(env, l, e) && l.last.Early?
    ensures Matches(ReplayStep(r, e.phase, e.turn, e.payload, raws), Next(env, l, e))
    ensures IsCandidate(e) ==> e.payload.role == Designer
  {
  }

  lemma AskedMatches(env: Env, r: Replay, l: Ledger, e: Entry<Payload>, raws: seq<string>)
    requires Matches(r, l) && Allowed(env, l, e) && l.last.Asked?
    ensures Matches(ReplayStep(r, e.phase, e.turn, e.payload, raws), Next(env, l, e))
    ensures IsCandidate(e) ==> e.payload.role == Repairer && l.calls > 0
  {
  }

  lemma PrefixLawful(env: Env, records: seq<TraceRecord<Payload>>, p: nat)
    requires Lawful(env, records) && Labelled(records) && p <= |records|
    ensures Lawful(env, records[..p]) && Labelled(records[..p])
  {
    forall q | 0 <= q < p ensures Allowed(env, LedgerOf(env, records[..p][..q]), Said(records[..p][q])) {
      assert records[..p][..q] == records[..q];
    }
  }

  lemma {:induction false} LawfulMatches(env: Env, records: seq<TraceRecord<Payload>>, raws: seq<string>)
    requires Lawful(env, records) && Labelled(records)
    ensures Matches(ReplayAll(records, raws), LedgerOf(env, records))
  {
    if records != [] {
      var k := |records| - 1;
      PrefixLawful(env, records, k);
      LawfulMatches(env, records[..k], raws);
      LawfulAt(env, records, k);
      StepMatches(env, ReplayAll(records[..k], raws), LedgerOf(env, records[..k]), Said(records[k]), raws);
      ReplayPrefix(records, raws, k);
      assert LedgerOf(env, records) == Next(env, LedgerOf(env, records[..k]), Said(records[k]));
    }
  }

  // ---------------------------------------------------------------- what each record tells

  /** An empty text counts as none. */
  ghost predicate Gives(told: Option<string>, said: Option<string>) {
    told == if said.Some? && said.value != "" then said else None
  }

  /** A record of an executed response: its RTL, and the verifier's answer to that candidate. */
  ghost predicate FromVerdict(a: RepairRecord, v: VerifyAnswer, candidate: Payload) {
    && candidate.Wrote? && a.rtl == Some(Shown(candidate.content, candidate.fileRecord))
    && v.Verdict? && a.passed == v.passed && Gives(a.category, v.category) && Gives(a.reason, v.reason)
  }

  /** A record of a response that was turned down: unparseable, unchanged, or too large a change. */
  ghost predicate FromRefusal(env: Env, l: Ledger, a: RepairRecord) {
    !a.passed && a.rtl == None && Answer(env, l).Response? && exists current :: RefusedFor(env, l, current, a)
  }

  ghost predicate RefusedFor(env: Env, l: Ledger, current: string, a: RepairRecord)
    requires Answer(env, l).Response?
  {
    && Fits(l, current)
    && match env.parse(Answer(env, l).raw, Context(env, current))
       case Unparseable(error) => a.category == Some(PARSE_FAILURE) && Gives(a.reason, Some(error))
       case Parsed(code) =>
         if Skips(env, current, code) then a.category == Some(UNCHANGED_CANDIDATE) && a.reason == Some("unchanged")
         else TooLarge(env, current, code) && a.category == Some(TOO_LARGE) && a.reason == Some("change budget")
  }

  /** Record `k` is made at position `p` of the trail: it has the turn and the guidance of the last request and the next
      raw text, and tells what became of the response to that request. */
  ghost predicate ToldAt(env: Env, records: seq<TraceRecord<Payload>>, raws: seq<string>, p: nat, k: nat, a: RepairRecord) {
    && 0 < p < |records| && IsRecord(Said(records[p])) && Count(IsRecord, records[..p]) == k
    && var l := LedgerOf(env, records[..p]);
       && l.calls > 0 && a.turn == l.calls && a.guidance == l.guidance && a.raw == Transcript.At(raws, k)
       && if IsCandidate(Said(records[p - 1])) then FromVerdict(a, Ruling(env, l), records[p - 1].event.payload)
          else FromRefusal(env, l, a)
  }

  /** Before a record there is the candidate it is about, or the request whose response was turned down. */
  lemma BeforeRecord(env: Env, records: seq<TraceRecord<Payload>>, raws: seq<string>, p: nat)
    requires Lawful(env, records) && Labelled(records) && p < |records| && IsRecord(Said(records[p]))
    ensures var l, r := LedgerOf(env, records[..p]), ReplayAll(records[..p], raws);
      && p > 0 && l.calls > 0 && records[p].event.turn == l.calls && r.guidance == l.guidance
      && (l.last.Placed? || l.last.Asked?) && (l.last.Placed? <==> IsCandidate(Said(records[p - 1])))
      && (l.last.Placed? ==> var c := records[p - 1].event.payload; r.rtl == Some(Shown(c.content, c.fileRecord)))
      && (!l.last.Placed? ==> r.rtl == None)
  {
    LawfulAt(env, records, p);
    PrefixLawful(env, records, p);
    LawfulMatches(env, records[..p], raws);
    CheckedWhen(env, LedgerOf(env, records[..p]), ReplayAll(records[..p], raws), Said(records[p]));
    assert p > 0;
    PlacedBefore(env, records, raws, p, p - 1);
  }

  lemma CheckedWhen(env: Env, l: Ledger, r: Replay, e: Entry<Payload>)
    requires Allowed(env, l, e) && Matches(r, l) && IsRecord(e)
    ensures (l.last.Placed? || l.last.Asked?) && l.calls > 0 && e.turn == l.calls && r.guidance == l.guidance
    ensures !l.last.Placed? ==> r.rtl == None
  {
  }

  lemma PlacedBefore(env: Env, records: seq<TraceRecord<Payload>>, raws: seq<string>, p: nat, q: nat)
    requires Lawful(env, records) && Labelled(records) && q + 1 == p <= |records| && LedgerOf(env, records[..p]).calls > 0
    ensures var l, r := LedgerOf(env, records[..p]), ReplayAll(records[..p], raws);
      && (l.last.Placed? <==> IsCandidate(Said(records[q])))
      && (l.last.Placed? ==> var c := records[q].event.payload; r.rtl == Some(Shown(c.content, c.fileRecord)))
  {
    PrefixLawful(env, records, q);
    LawfulMatches(env, records[..q], raws);
    LawfulAt(env, records, q);
    LedgerStep(env, records, q);
    assert records[..p][..q] == records[..q];
    ReplayPrefix(records[..p], raws, q);
    PlacedStep(env, ReplayAll(records[..q], raws), LedgerOf(env, records[..q]), Said(records[q]), raws,
               LedgerOf(env, records[..p]), ReplayAll(records[..p], raws));
  }

  lemma PlacedStep(env: Env, r: Replay, l: Ledger, e: Entry<Payload>, raws: seq<string>, l': Ledger, r': Replay)
    requires Matches(r, l) && Allowed(env, l, e) && l' == Next(env, l, e) && l'.calls > 0
    requires r' == ReplayStep(r, e.phase, e.turn, e.payload, raws)
    ensures l'.last.Placed? <==> IsCandidate(e)
    ensures l'.last.Placed? ==> r'.rtl == Some(Shown(e.payload.content, e.payload.fileRecord))
  {
    StepToCandidate(env, r, l, e, raws);
  }

  lemma StepToCandidate(env: Env, r: Replay, l: Ledger, e: Entry<Payload>, raws: seq<string>)
    requires Matches(r, l) && Allowed(env, l, e)
    ensures Next(env, l, e).last.Placed? <==> IsCandidate(e)
    ensures IsCandidate(e) ==> Next(env, l, e).calls == l.calls
    ensures IsCandidate(e) && l.calls > 0 ==>
              ReplayStep(r, e.phase, e.turn, e.payload, raws).rtl == Some(Shown(e.payload.content, e.payload.fileRecord))
  {
    StepMatches(env, r, l, e, raws);
  }

  lemma RecordToldAt(env: Env, records: seq<TraceRecord<Payload>>, raws: seq<string>, k: nat) returns (p: nat)
    requires Lawful(env, records) && Labelled(records) && k < |ReplayAll(records, raws).attempts|
    ensures ToldAt(env, records, raws, p, k, ReplayAll(records, raws).attempts[k])
  {
    p := AttemptAt(records, raws, k);
    var l, r := LedgerOf(env, records[..p]), ReplayAll(records[..p], raws);
    Taken(records[..p], raws);
    BeforeRecord(env, records, raws, p);
    LawfulAt(env, records, p);
    RecordSays(env, l, r, records[p].event, raws);
  }

  lemma RecordSays(env: Env, l: Ledger, r: Replay, e: Event<Payload>, raws: seq<string>)
    requires Allowed(env, l, Entry(e.phase, e.turn, e.payload)) && IsRecord(Entry(e.phase, e.turn, e.payload))
    requires l.last.Placed? || l.last.Asked?
    ensures var a := RecordOf(r, e, raws);
      && (l.last.Placed? ==> var v := Ruling(env, l);
            v.Verdict? && a.passed == v.passed && Gives(a.category, v.category) && Gives(a.reason, v.reason))
      && (l.last.Asked? && r.rtl == None ==> FromRefusal(env, l, a))
  {
    if l.last.Asked? { RefusalSays(env, l, r, e, raws); }
  }

  lemma RefusalSays(env: Env, l: Ledger, r: Replay, e: Event<Payload>, raws: seq<string>)
    requires Allowed(env, l, Entry(e.phase, e.turn, e.payload)) && e.phase == Verify && l.last.Asked?
    ensures r.rtl == None ==> FromRefusal(env, l, RecordOf(r, e, raws))
  {
    var raw := Answer(env, l).raw;
    var current :| Fits(l, current) && Reply(env, l, raw, current, Entry(e.phase, e.turn, e.payload));
    assert r.rtl == None ==> RefusedFor(env, l, current, RecordOf(r, e, raws));
  }

  lemma RunLabelled(env: Env, at: Origin)
    ensures Labelled(Run(env, at).0.log.records)
  {
    var s := Run(env, at).0;
    assert Chained(env.recorder.h, s.log, at.genesis);
    forall i | 0 <= i < |s.log.records| ensures s.log.records[i].event.phase == s.log.records[i].phase {
      assert RecordOk(env.recorder.h, s.log.records, at.genesis, i);
    }
  }

  ghost predicate AllTold(env: Env, s: State, raws: seq<string>, attempts: seq<RepairRecord>) {
    && |attempts| == Count(IsRecord, s.log.records)
    && forall k: nat :: k < |attempts| ==> Told(env, s.log.records, raws, k, attempts[k])
  }

  ghost predicate Told(env: Env, records: seq<TraceRecord<Payload>>, raws: seq<string>, k: nat, a: RepairRecord) {
    exists p :: ToldAt(env, records, raws, p, k, a)
  }

  lemma LawfulTold(env: Env, records: seq<TraceRecord<Payload>>, raws: seq<string>, k: nat)
    requires Lawful(env, records) && Labelled(records) && k < |ReplayAll(records, raws).attempts|
    ensures Told(env, records, raws, k, ReplayAll(records, raws).attempts[k])
  {
    var p := RecordToldAt(env, records, raws, k);
  }

  lemma ClosedTold(env: Env, s: State, raws: seq<string>)
    requires Lawful(env, s.log.records) && Labelled(s.log.records)
    ensures AllTold(env, s, raws, ReplayAll(s.log.records, raws).attempts)
  {
    var records := s.log.records;
    Taken(records, raws);
    forall k: nat | k < |ReplayAll(records, raws).attempts|
      ensures Told(env, records, raws, k, ReplayAll(records, raws).attempts[k])
    {
      LawfulTold(env, records, raws, k);
    }
  }

  /** For every run: the records are those of the VERIFY events after the first request, in order, and each passed exactly
      when its response was executed and the verifier passed that candidate; category and reason are the verifier's, or
      those for which the response was turned down. */
  lemma RecordsTold(env: Env, at: Origin)
    ensures AllTold(env, Run(env, at).0, Run(env, at).0.rawRepairs, Extracted(env, at).attempts)
  {
    RunLawful(env, at);
    RunLabelled(env, at);
    ClosedTold(env, Run(env, at).0, Run(env, at).0.rawRepairs);
  }

  // ---------------------------------------------------------------- the last record of a successful run

  lemma {:induction false} CountTail(records: seq<TraceRecord<Payload>>, p: nat)
    requires p <= |records| && forall q :: p <= q < |records| ==> !IsRecord(Said(records[q]))
    ensures Count(IsRecord, records) == Count(IsRecord, records[..p])
  {
    if p == |records| {
      assert records[..p] == records;
    } else {
      var init := records[..|records| - 1];
      assert init[..p] == records[..p];
      CountTail(init, p);
    }
  }

  /** After a record that passed there are only the closing entries. */
  lemma PassedIsLast(env: Env, records: seq<TraceRecord<Payload>>, raws: seq<string>, p: nat, k: nat, a: RepairRecord)
    requires Lawful(env, records) && Labelled(records) && ToldAt(env, records, raws, p, k, a) && a.passed
    ensures Count(IsRecord, records) == k + 1
  {
    PassedLedger(env, records, raws, p, k, a);
    forall q | p + 1 <= q < |records| ensures !IsRecord(Said(records[q])) { ClosingEntries(env, records, p + 1, q); }
    CountTail(records, p + 1);
  }

  predicate JustPassed(l: Ledger) { l.last.Judged? && l.last.v.Verdict? && l.last.v.passed }

  lemma PassedLedger(env: Env, records: seq<TraceRecord<Payload>>, raws: seq<string>, p: nat, k: nat, a: RepairRecord)
    requires Lawful(env, records) && Labelled(records) && ToldAt(env, records, raws, p, k, a) && a.passed
    ensures JustPassed(LedgerOf(env, records[..p + 1])) && Count(IsRecord, records[..p + 1]) == k + 1
  {
    BeforeRecord(env, records, raws, p);
    LawfulAt(env, records, p);
    LedgerStep(env, records, p);
    CountStep(IsRecord, records, p);
    JudgedPassed(env, LedgerOf(env, records[..p]), Said(records[p]));
  }

  lemma JudgedPassed(env: Env, l: Ledger, e: Entry<Payload>)
    requires Allowed(env, l, e) && l.last.Placed? && Ruling(env, l).Verdict? && Ruling(env, l).passed
    ensures JustPassed(Next(env, l, e))
  {
  }

  /** After a pass come the status and the closing note. */
  lemma AfterPass(env: Env, l: Ledger, e: Entry<Payload>)
    requires Allowed(env, l, e)
    ensures JustPassed(l) ==> IsEnd(e) && Next(env, l, e) == l.(last := Passing)
    ensures l.last.Passing? ==> e.phase == Phase.Trace && Next(env, l, e) == l.(last := Over(true))
  {
  }

  lemma ClosingEntries(env: Env, records: seq<TraceRecord<Payload>>, p: nat, q: nat)
    requires Lawful(env, records) && p <= q < |records| && JustPassed(LedgerOf(env, records[..p]))
    ensures !IsRecord(Said(records[q]))
  {
    LawfulAt(env, records, p);
    LedgerStep(env, records, p);
    AfterPass(env, LedgerOf(env, records[..p]), Said(records[p]));
    if q > p {
      LawfulAt(env, records, p + 1);
      LedgerStep(env, records, p + 1);
      AfterPass(env, LedgerOf(env, records[..p + 1]), Said(records[p + 1]));
      if q > p + 1 { OverIsLast(env, records, p + 2); }
    }
  }

  lemma EarlierFails(env: Env, records: seq<TraceRecord<Payload>>, raws: seq<string>, k: nat)
    requires Lawful(env, records) && Labelled(records) && k + 1 < |ReplayAll(records, raws).attempts|
    ensures !ReplayAll(records, raws).attempts[k].passed
  {
    var p := RecordToldAt(env, records, raws, k);
    Taken(records, raws);
    if ReplayAll(records, raws).attempts[k].passed {
      PassedIsLast(env, records, raws, p, k, ReplayAll(records, raws).attempts[k]);
    }
  }

  predicate EndsPassed(attempts: seq<RepairRecord>) { attempts != [] && attempts[|attempts| - 1].passed }

  lemma LastRecordPasses(env: Env, s: State, raws: seq<string>)
    requires Closed(env, s, Success) && Labelled(s.log.records) && PassedLast(s.log.records) && s.repairCalls > 0
    ensures EndsPassed(ReplayAll(s.log.records, raws).attempts)
  {
    var n := |s.log.records| - 3;
    TurnOfLast(env, s, n);
    LastThree(s.log.records, n);
    LastThreePass(s.log.records, raws, n);
  }

  lemma LastThreePass(records: seq<TraceRecord<Payload>>, raws: seq<string>, n: nat)
    requires |records| == n + 3 && records[n].phase == Verify && records[n].event.turn > 0
    requires PassedOf(records[n].event.payload)
    requires records[n + 1].phase == RepairOrFinish && records[n + 2].phase == Phase.Trace
    ensures EndsPassed(ReplayAll(records, raws).attempts)
  {
    LastStep(records[..n + 1], raws, n);
    QuietEnd(records, raws, n);
  }

  lemma LastThree(records: seq<TraceRecord<Payload>>, n: nat)
    requires PassedLast(records) && Labelled(records) && n + 3 == |records|
    ensures records[n].phase == Verify && PassedOf(records[n].event.payload)
    ensures records[n + 1].phase == RepairOrFinish && records[n + 2].phase == Phase.Trace
  {
    var m := |records|;
    assert m - 3 == n && m - 2 == n + 1 && m - 1 == n + 2;
  }

  lemma TurnOfLast(env: Env, s: State, n: nat)
    requires Closed(env, s, Success) && PassedLast(s.log.records) && n + 3 == |s.log.records| && s.repairCalls > 0
    ensures s.log.records[n].event.turn > 0
  {
    LastTurn(env, s.log.records, n);
  }

  lemma LastStep(records: seq<TraceRecord<Payload>>, raws: seq<string>, n: nat)
    requires |records| == n + 1 && records[n].phase == Verify && records[n].event.turn > 0 && PassedOf(records[n].event.payload)
    ensures EndsPassed(ReplayAll(records, raws).attempts)
  {
    ReplayPrefix(records, raws, n);
  }

  /** The closing entries leave the replay as it is. */
  lemma QuietEnd(records: seq<TraceRecord<Payload>>, raws: seq<string>, n: nat)
    requires |records| == n + 3 && records[n + 1].phase == RepairOrFinish && records[n + 2].phase == Phase.Trace
    ensures ReplayAll(records, raws) == ReplayAll(records[..n + 1], raws)
  {
    ReplayPrefix(records[..n + 2], raws, n + 1);
    ReplayPrefix(records, raws, n + 2);
    assert records[..n + 2][..n + 1] == records[..n + 1];
  }

  lemma LastTurn(env: Env, records: seq<TraceRecord<Payload>>, n: nat)
    requires Lawful(env, records) && |records| == n + 3 && LedgerOf(env, records).calls > 0
    requires !IsRequest(Said(records[n])) && !IsRequest(Said(records[n + 1])) && !IsRequest(Said(records[n + 2]))
    ensures records[n].event.turn > 0
  {
    CallsStay(env, records, n);
    CallsStay(env, records, n + 1);
    CallsStay(env, records, n + 2);
    assert records[..n + 3] == records;
    LawfulAt(env, records, n);
  }

  lemma CallsStay(env: Env, records: seq<TraceRecord<Payload>>, p: nat)
    requires p < |records| && !IsRequest(Said(records[p]))
    ensures LedgerOf(env, records[..p + 1]).calls == LedgerOf(env, records[..p]).calls
  {
    LedgerStep(env, records, p);
  }

  ghost predicate OnlyLastPassed(attempts: seq<RepairRecord>) {
    EndsPassed(attempts) && forall k :: 0 <= k < |attempts| - 1 ==> !attempts[k].passed
  }

  lemma ClosedSuccess(env: Env, s: State, raws: seq<string>)
    requires Closed(env, s, Success) && Labelled(s.log.records) && PassedLast(s.log.records) && s.repairCalls > 0
    ensures OnlyLastPassed(ReplayAll(s.log.records, raws).attempts)
  {
    var attempts := ReplayAll(s.log.records, raws).attempts;
    LastRecordPasses(env, s, raws);
    forall k | 0 <= k < |attempts| - 1 ensures !attempts[k].passed { EarlierFails(env, s.log.records, raws, k); }
  }

  /** A run that succeeds after a repair ends with a record that passed, and no other record passed. */
  lemma SuccessRecorded(env: Env, at: Origin)
    requires Run(env, at).1 == Success && Run(env, at).0.repairCalls > 0
    ensures OnlyLastPassed(Extracted(env, at).attempts)
  {
    RunLawful(env, at);
    RunLabelled(env, at);
    ClosedSuccess(env, Run(env, at).0, Run(env, at).0.rawRepairs);
  }

  // ---------------------------------------------------------------- the first RTL and the first failure

  predicate IsFirstFailure(e: Entry<Payload>) { e.phase == Verify && e.turn == 0 && !PassedOf(e.payload) }

  predicate IsDesigned(e: Entry<Payload>) { e.phase == Execute && e.payload.Wrote? && e.payload.role == Designer }

  /** The last event of a kind. */
  ghost predicate LastOf(kind: Entry<Payload> -> bool, records: seq<TraceRecord<Payload>>, p: nat) {
    p < |records| && kind(Said(records[p])) && forall q :: p < q < |records| ==> !kind(Said(records[q]))
  }

  ghost predicate NoneOf(kind: Entry<Payload> -> bool, records: seq<TraceRecord<Payload>>) {
    forall q :: 0 <= q < |records| ==> !kind(Said(records[q]))
  }

  lemma {:induction false} LastStays(kind: Entry<Payload> -> bool, records: seq<TraceRecord<Payload>>, k: nat, p: nat)
    requires |records| == k + 1 && LastOf(kind, records, p)
    ensures if kind(Said(records[k])) then p == k else LastOf(kind, records[..k], p) && records[..k][p] == records[p]
  {
    if p < k { assert !kind(Said(records[k])); }
  }

  /** On every trail the initial failure is the category of the last failed check of turn 0. */
  lemma {:induction false} InitialFailure(records: seq<TraceRecord<Payload>>, raws: seq<string>, p: nat)
    requires Labelled(records) && LastOf(IsFirstFailure, records, p)
    ensures var c := records[p].event.payload;
      Gives(ReplayAll(records, raws).initialFailure, if c.Checked? then c.category else None)
  {
    var k := |records| - 1;
    ReplayPrefix(records, raws, k);
    LastStays(IsFirstFailure, records, k, p);
    if p < k { InitialFailure(records[..k], raws, p); }
  }

  /** On every trail the initial RTL is what the designer wrote last. */
  lemma {:induction false} InitialRtl(records: seq<TraceRecord<Payload>>, raws: seq<string>, p: nat)
    requires Labelled(records) && LastOf(IsDesigned, records, p)
    ensures var c := records[p].event.payload; ReplayAll(records, raws).initialRtl == Some(Shown(c.content, c.fileRecord))
  {
    var k := |records| - 1;
    ReplayPrefix(records, raws, k);
    LastStays(IsDesigned, records, k, p);
    if p < k { InitialRtl(records[..k], raws, p); }
  }

  lemma {:induction false} NothingInitial(records: seq<TraceRecord<Payload>>, raws: seq<string>)
    requires Labelled(records)
    ensures NoneOf(IsFirstFailure, records) ==> ReplayAll(records, raws).initialFailure == None
    ensures NoneOf(IsDesigned, records) ==> ReplayAll(records, raws).initialRtl == None
  {
    if records != [] {
      var k := |records| - 1;
      ReplayPrefix(records, raws, k);
      NothingInitial(records[..k], raws);
      assert NoneOf(IsFirstFailure, records) ==> NoneOf(IsFirstFailure, records[..k]);
      assert NoneOf(IsDesigned, records) ==> NoneOf(IsDesigned, records[..k]);
    }
  }

  /** In every run what the designer wrote is the RTL first written, parsed from an answer to the generation request. */
  lemma DesignedFirst(env: Env, records: seq<TraceRecord<Payload>>, p: nat)
    requires Lawful(env, records) && Labelled(records) && p < |records| && IsDesigned(Said(records[p]))
    ensures Count(IsCandidate, records[..p]) == 0
    ensures var c := records[p].event.payload; Generated(env, c.content, c.fileRecord)
  {
    PrefixLawful(env, records, p);
    LawfulMatches(env, records[..p], []);
    LawfulAt(env, records, p);
    LedgerCounts(env, records[..p]);
    OnlyEarly(env, ReplayAll(records[..p], []), LedgerOf(env, records[..p]), Said(records[p]));
  }

  lemma OnlyEarly(env: Env, r: Replay, l: Ledger, e: Entry<Payload>)
    requires Allowed(env, l, e) && Matches(r, l) && IsDesigned(e)
    ensures l.candidates == 0 && Generated(env, e.payload.content, e.payload.fileRecord)
  {
    StepMatches(env, r, l, e, []);
  }

  lemma DesignedOnce(env: Env, records: seq<TraceRecord<Payload>>, p: nat, q: nat)
    requires Lawful(env, records) && Labelled(records) && p <= q < |records|
    requires IsDesigned(Said(records[p])) && IsDesigned(Said(records[q]))
    ensures p == q
  {
    DesignedFirst(env, records, q);
    LedgerStep(env, records, p);
    CountStep(IsCandidate, records, p);
    if p < q { CountGrows(IsCandidate, records, p + 1, q); }
  }

  /** The RTL first written is the initial RTL; without one there is none. */
  ghost predicate RtlTold(env: Env, records: seq<TraceRecord<Payload>>, told: Option<string>) {
    && (NoneOf(IsDesigned, records) ==> told == None)
    && forall p: nat :: p < |records| && IsDesigned(Said(records[p])) ==> FirstRtlAt(env, records, p, told)
  }

  ghost predicate FirstRtlAt(env: Env, records: seq<TraceRecord<Payload>>, p: nat, told: Option<string>)
    requires p < |records| && records[p].event.payload.Wrote?
  {
    var c := records[p].event.payload;
    && told == Some(Shown(c.content, c.fileRecord)) && Generated(env, c.content, c.fileRecord)
    && Count(IsCandidate, records[..p]) == 0
  }

  /** The category of the last failed check before the first repair turn is the initial failure; without one there is
      none. */
  ghost predicate FailureTold(records: seq<TraceRecord<Payload>>, told: Option<string>) {
    && (NoneOf(IsFirstFailure, records) ==> told == None)
    && forall p: nat :: LastOf(IsFirstFailure, records, p) && records[p].event.payload.Checked? ==>
         Gives(told, records[p].event.payload.category)
  }

  lemma ClosedInitial(env: Env, s: State, result: Result, raws: seq<string>)
    requires Closed(env, s, result) && Labelled(s.log.records)
    ensures RtlTold(env, s.log.records, ReplayAll(s.log.records, raws).initialRtl)
    ensures FailureTold(s.log.records, ReplayAll(s.log.records, raws).initialFailure)
  {
    var records := s.log.records;
    NothingInitial(records, raws);
    forall p: nat | LastOf(IsFirstFailure, records, p) && records[p].event.payload.Checked?
      ensures Gives(ReplayAll(records, raws).initialFailure, records[p].event.payload.category)
    {
      InitialFailure(records, raws, p);
    }
    forall p: nat | p < |records| && IsDesigned(Said(records[p]))
      ensures FirstRtlAt(env, records, p, ReplayAll(records, raws).initialRtl)
    {
      DesignedFirst(env, records, p);
      OnlyDesigned(env, records, p);
      InitialRtl(records, raws, p);
    }
  }

  lemma OnlyDesigned(env: Env, records: seq<TraceRecord<Payload>>, p: nat)
    requires Lawful(env, records) && Labelled(records) && p < |records| && IsDesigned(Said(records[p]))
    ensures LastOf(IsDesigned, records, p)
  {
    forall q | p < q < |records| ensures !IsDesigned(Said(records[q])) {
      if IsDesigned(Said(records[q])) { DesignedOnce(env, records, p, q); }
    }
  }

  /** What every run starts from. */
  lemma InitialTold(env: Env, at: Origin)
    ensures var records := Run(env, at).0.log.records;
      RtlTold(env, records, Extracted(env, at).initialRtl) && FailureTold(records, Extracted(env, at).initialFailure)
  {
    RunLawful(env, at);
    RunLabelled(env, at);
    ClosedInitial(env, Run(env, at).0, Run(env, at).1, Run(env, at).0.rawRepairs);
  }
}
