/** A run in which a failed write leaves its raw text behind, and the next record carries it. */
module LostResponse {
  import opened Options
  import opened TraceLog
  import opened RepairSpec
  import opened RepairRun
  import opened RepairLimits
  import opened Transcript
  import opened TrailLaw

  function Letters(n: nat): string { seq(n + 1, _ => 'a') }

  /** The first verification fails to compile and every later one passes. */
  function VerdictAt(v: nat): VerifyAnswer {
    if v == 0 then FailsWith(CategoryFor(Compile)) else Verdict(true, false, None, None, "", "", true, map[])
  }

  /** Every answer of the model is new; the file of the first repair cannot be written, the later ones can. */
  function LossEnv(r: Recorder<Payload>): Env {
    Scripted(3, r, (n: nat) => Response(Letters(n), None), (v: nat) => VerdictAt(v))
      .(write := (n: nat) => if n == 1 then WriteFailed("", None) else Written(""))
  }

  /** What the proof uses of that environment. */
  ghost predicate Loses(env: Env) {
    && ScriptedStart(env) && env.maxRepairs == 3 && !env.skipUnchanged
    && (forall n :: env.repair(n) == Response(Letters(n), None))
    && (forall v :: env.verify(v) == VerdictAt(v))
    && (forall n, c :: env.parse(Letters(n), c) == Parsed(Letters(n)))
    && (forall a, b :: !env.tooLarge(a, b))
    && env.write(1).WriteFailed? && env.write(2) == Written("")
  }

  lemma LossEnvLoses(r: Recorder<Payload>)
    ensures Loses(LossEnv(r)) && NeverRepeats(LossEnv(r))
  {
    var env := LossEnv(r);
    forall n, c ensures env.parse(Letters(n), c) == Parsed(Letters(n)) { assert Letters(n)[0] == 'a'; }
    forall m: nat, n: nat | env.repair(m).raw == env.repair(n).raw ensures m == n {
      assert |Letters(m)| == m + 1 && |Letters(n)| == n + 1;
    }
  }

  /** A turn whose response is to be written. */
  lemma TurnWrites(env: Env, s: State, guidance: string)
    requires Loses(env) && s.parseAttempts < PARSE_MAX_ATTEMPTS && Spent(s, s.pending) + 1 <= Limit(env, s.pending)
    ensures var raw := Letters(s.repairCalls);
      var heard := Hear(Ask(env, s, guidance), guidance, raw, None);
      RepairTurn(env, s, guidance) == RepairSpec.Write(env, Pay(heard, SameCandidate(CurrentRtl(env, s), raw)), raw)
  {
    var raw := Letters(s.repairCalls);
    assert env.repair(s.repairCalls) == Response(raw, None);
    var heard := Hear(Ask(env, s, guidance), guidance, raw, None);
    WritesWhatIsSaid(env, heard, guidance, CurrentRtl(env, s), s.repairCalls);
    assert RepairTurn(env, s, guidance) == CallModel(env, s, guidance);
  }

  lemma WritesWhatIsSaid(env: Env, s: State, guidance: string, current: string, n: nat)
    requires Loses(env)
    ensures React(env, s, guidance, current, Letters(n)) ==
            RepairSpec.Write(env, Pay(s, SameCandidate(current, Letters(n))), Letters(n))
  {
    assert env.parse(Letters(n), Context(env, current)) == Parsed(Letters(n));
  }

  /** The response is in and paid for. */
  lemma PaidResponse(env: Env, s: State, guidance: string, raw: string, same: bool)
    ensures var paid := Pay(Hear(Ask(env, s, guidance), guidance, raw, None), same);
      && paid.served == s.served + [Served(s.turn + 1, guidance, raw, NotWritten)]
      && paid.repairCalls == s.repairCalls + 1 && paid.pending == s.pending && paid.parseAttempts == s.parseAttempts
      && paid.verifierCalls == s.verifierCalls && Spent(paid, s.pending) == Spent(s, s.pending) + 1
  {
  }

  /** What becomes of it once it is written, or not. */
  lemma WriteOutcome(env: Env, paid: State, front: seq<Served>, v: Served, code: string)
    requires paid.served == front + [v]
    ensures var f := RepairSpec.Write(env, paid, code);
      && f.s.repairCalls == paid.repairCalls && f.s.pending == paid.pending && f.s.spent == paid.spent
      && f.s.parseAttempts == paid.parseAttempts && f.s.verifierCalls == paid.verifierCalls
      && match env.write(paid.repairCalls)
         case WriteFailed(_, _) => f.Again? && f.s.guidance.Some? && f.s.served == front + [v.(fate := Lost)]
         case Written(record) => f.ToVerifier? && f.s.served == front + [v.(fate := Executed(code, record))]
  {
    match env.write(paid.repairCalls)
    case WriteFailed(_, _) => MarkLast(paid, front, v, Lost);
    case Written(record) => MarkLast(paid, front, v, Executed(code, record));
  }

  lemma MarkLast(s: State, front: seq<Served>, v: Served, fate: Fate)
    requires s.served == front + [v]
    ensures Mark(s, fate) == s.(served := front + [v.(fate := fate)])
  {
  }

  /** A turn of this environment: its response is executed or lost as its file is written or not. */
  lemma TurnOutcome(env: Env, s: State, guidance: string, next: nat, raw: string)
    requires Loses(env) && s.parseAttempts < PARSE_MAX_ATTEMPTS && Spent(s, s.pending) + 1 <= Limit(env, s.pending)
    requires s.turn == s.repairCalls && next == s.turn + 1 && raw == Letters(s.repairCalls)
    ensures var f := RepairTurn(env, s, guidance); var v := Served(next, guidance, raw, NotWritten);
      && f.s.repairCalls == next && f.s.pending == s.pending && Spent(f.s, s.pending) == Spent(s, s.pending) + 1
      && f.s.parseAttempts == s.parseAttempts && f.s.verifierCalls == s.verifierCalls
      && match env.write(next)
         case WriteFailed(_, _) => f.Again? && f.s.guidance.Some? && f.s.served == s.served + [v.(fate := Lost)]
         case Written(record) => f.ToVerifier? && f.s.served == s.served + [v.(fate := Executed(raw, record))]
  {
    TurnWrites(env, s, guidance);
    var same := SameCandidate(CurrentRtl(env, s), raw);
    PaidResponse(env, s, guidance, raw, same);
    WriteOutcome(env, Pay(Hear(Ask(env, s, guidance), guidance, raw, None), same), s.served,
                 Served(next, guidance, raw, NotWritten), raw);
  }

  /** The response of the first turn is lost. */
  lemma FirstLost(env: Env, s: State, guidance: string)
    requires Loses(env) && s.repairCalls == s.turn == 0 && s.served == [] && s.pending == Compile
    requires s.parseAttempts == 0 && Spent(s, Compile) == 0
    ensures var f := RepairTurn(env, s, guidance);
      && f.Again? && f.s.served == [Served(1, guidance, Letters(0), Lost)] && f.s.guidance.Some?
      && f.s.repairCalls == 1 && f.s.pending == Compile && Spent(f.s, Compile) == 1
      && f.s.parseAttempts == 0 && f.s.verifierCalls == s.verifierCalls
  {
    TurnOutcome(env, s, guidance, 1, Letters(0));
  }

  /** That of the second turn is executed. */
  lemma SecondKept(env: Env, s: State, guidance: string, lost: Served)
    requires Loses(env) && s.repairCalls == s.turn == 1 && s.served == [lost] && s.pending == Compile
    requires s.parseAttempts == 0 && Spent(s, Compile) == 1
    ensures var f := RepairTurn(env, s, guidance);
      && f.ToVerifier? && f.s.served == [lost] + [Served(2, guidance, Letters(1), Executed(Letters(1), ""))]
      && f.s.verifierCalls == s.verifierCalls
  {
    TurnOutcome(env, s, guidance, 2, Letters(1));
  }

  lemma SecondPasses(env: Env, s: State)
    requires Loses(env) && FreshCandidate(env, s) && s.verifierCalls == 1
    ensures RunVerifier(env, s).Done? && RunVerifier(env, s).result == Success
    ensures RunVerifier(env, s).s.served == s.served
  {
    assert env.verify(1) == VerdictAt(1);
    VerifierServesNothing(env, s);
  }

  /** The second turn and the run that passes. */
  lemma SecondIteration(env: Env, s: State, lost: Served)
    requires Loses(env) && s.guidance.Some? && s.repairCalls == s.turn == 1 && s.verifierCalls == 1 && s.served == [lost]
    requires s.pending == Compile && s.parseAttempts == 0 && Spent(s, Compile) == 1
    ensures var o := Iterate(env, s);
      o.Done? && o.result == Success && |o.s.served| == 2 && o.s.served[0] == lost && SecondServed(o.s.served[1])
  {
    SecondKept(env, s, s.guidance.value, lost);
    var t := RepairTurn(env, s, s.guidance.value).s;
    SecondPasses(env, t);
    assert Iterate(env, s) == RunVerifier(env, t);
  }

  ghost predicate SecondServed(v: Served) { v.raw == Letters(1) && v.fate == Executed(Letters(1), "") && v.turn == 2 }

  lemma SecondTurn(env: Env, s: State, at: Origin)
    requires Loses(env) && LoopInv(env, s, at) && s.guidance.Some? && s.repairCalls == 1 && s.verifierCalls == 1
    requires s.pending == Compile && s.parseAttempts == 0 && Spent(s, Compile) == 1
    requires |s.served| == 1
    ensures var end := RunLoop(env, s, at);
      end.1 == Success && |end.0.served| == 2 && end.0.served[0] == s.served[0] && SecondServed(end.0.served[1])
  {
    assert s.served == [s.served[0]];
    SecondIteration(env, s, s.served[0]);
    LastIteration(env, s, at);
  }

  lemma FirstTurn(env: Env, s: State, at: Origin)
    requires Loses(env) && LoopInv(env, s, at) && s.guidance.Some? && s.repairCalls == 0 && s.verifierCalls == 1
    requires s.pending == Compile && s.parseAttempts == 0 && Spent(s, Compile) == 0 && s.served == []
    ensures TwoServed(RunLoop(env, s, at).0.served) && RunLoop(env, s, at).1 == Success
  {
    FirstLost(env, s, s.guidance.value);
    LoopStep(env, s, at);
    SecondTurn(env, Iterate(env, s).s, at);
  }

  ghost predicate TwoServed(served: seq<Served>) {
    |served| == 2 && served[0].fate == Lost && served[0].raw == Letters(0) && SecondServed(served[1])
  }

  /** The first verification fails, and a repair is due. */
  lemma FirstFails(env: Env, s: State)
    requires Loses(env) && FreshCandidate(env, s) && s.verifierCalls == 0 && s.repairCalls == 0
    requires s.parseAttempts == 0 && Spent(s, Compile) == 0 && s.served == []
    ensures var o := RunVerifier(env, s);
      && o.Continue? && o.s.guidance.Some? && o.s.repairCalls == 0 && o.s.verifierCalls == 1
      && o.s.pending == Compile && o.s.parseAttempts == 0 && Spent(o.s, Compile) == 0 && o.s.served == []
  {
    assert env.verify(0) == VerdictAt(0);
    ScriptedFailure(env, s, Compile);
    VerifierServesNothing(env, s);
  }

  lemma LossLoop(env: Env, s: State, at: Origin)
    requires Loses(env) && LoopInv(env, s, at) && s.guidance == None
    requires s.parseAttempts == 0 && Spent(s, Compile) == 0 && s.served == []
    ensures TwoServed(RunLoop(env, s, at).0.served) && RunLoop(env, s, at).1 == Success
  {
    FirstFails(env, s);
    LoopStep(env, s, at);
    FirstTurn(env, Iterate(env, s).s, at);
  }

  lemma LossRun(env: Env, at: Origin)
    requires Loses(env)
    ensures TwoServed(Run(env, at).0.served) && Run(env, at).1 == Success
  {
    var log := Log([], at.genesis, 0);
    ScriptedPrelude(env, at, log);
    PipelineFromLoop(env, at, log);
    PreludeFresh(env, at, []);
    LossLoop(env, Prelude(env, at.numPredict, at.workspace, log).s, at);
  }

  /** The model never repeats itself and the run succeeds, yet its only record, the one of turn 2, shows the RTL
      of the second response next to the raw text of the first. */
  lemma RawOneLate(r: Recorder<Payload>, at: Origin)
    ensures var env := LossEnv(r); var attempts := Extracted(env, at).attempts;
      && NeverRepeats(env) && Run(env, at).1 == Success
      && |attempts| == 1 && attempts[0].turn == 2 && attempts[0].rtl == Some(env.repair(1).raw)
      && attempts[0].raw == Some(env.repair(0).raw) && !OwnsRaw(env, attempts[0])
  {
    var env := LossEnv(r);
    LossEnvLoses(r);
    LossRun(env, at);
    TranscriptAligned(env, at);
    RecordOfSecond(Extracted(env, at).attempts, Run(env, at).0);
    assert env.repair(0) == Response(Letters(0), None) && env.repair(1) == Response(Letters(1), None);
    assert |Letters(0)| == 1 && |Letters(1)| == 2;
  }

  lemma RecordOfSecond(attempts: seq<RepairRecord>, s: State)
    requires TwoServed(s.served) && Aligned(attempts, s) && Booked(s.served, s.rawRepairs) && |Kept(s.served)| <= |attempts|
    ensures |attempts| == 1 && attempts[0].turn == 2
    ensures attempts[0].rtl == Some(Letters(1)) && attempts[0].raw == Some(Letters(0))
  {
    var a, b := s.served[0], s.served[1];
    assert s.served == [a, b];
    KeptOfTwo(a, b);
    assert Tells(attempts[0], Kept(s.served)[..|attempts|][0]);
    assert |Letters(1)| == 2;
  }

  lemma KeptOfTwo(a: Served, b: Served)
    requires a.fate == Lost && b.fate != Lost
    ensures Kept([a, b]) == [b]
  {
    KeptSnoc([], a);
    KeptSnoc([a], b);
    assert [] + [a] == [a] && [a] + [b] == [a, b];
  }
}
