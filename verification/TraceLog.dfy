/** The hash-chained audit trail (`_emit_trace` in src/mind3/core/driver.py, `TraceRecord` in
    src/mind3/core/types.py). The digest function is a parameter: SHA-256 over the previous digest
    and the canonical JSON of the record body. What an event tells, its payload, is a type parameter. */
module TraceLog {
  import opened Options
  type Digest = string

  datatype Phase =
    Intake | Route | Snapshot | ModelCall | Parse | Execute | Verify | RepairOrFinish | Trace

  datatype Event<P> = Event(
    session: string, phase: Phase, turn: nat, payload: P, attestation: Option<Digest>, timestamp: string)

  datatype Body<P> = Body(stepIndex: nat, phase: Phase, prevHash: Digest, event: Event<P>)

  datatype TraceRecord<P> = TraceRecord(
    stepIndex: nat, phase: Phase, prevHash: Digest, currentHash: Digest, event: Event<P>)
  {
    /** What the digest is taken of: the previous digest and the record body. */
    function Sealed(): (Digest, Body<P>) { (prevHash, Body(stepIndex, phase, prevHash, event)) }

    function ComputeExpectedHash(h: (Digest, Body<P>) -> Digest): Digest {
      h(Sealed().0, Sealed().1)
    }

    predicate IsHashValid(h: (Digest, Body<P>) -> Digest) {
      currentHash == ComputeExpectedHash(h)
    }
  }

  /** What the trail needs from outside: the digest, the clock, and the loopback attestation digest
      of (session, turn, step, previous digest) when the driver is loopback-only. */
  datatype Recorder<!P> = Recorder(
    session: string, h: (Digest, Body<P>) -> Digest, clock: nat -> string,
    attest: Option<(string, nat, nat, Digest) -> Digest>)

  datatype Log<P> = Log(records: seq<TraceRecord<P>>, prevHash: Digest, stepIndex: nat)

  /** One `_emit_trace` call. */
  function Emit<P>(r: Recorder<P>, log: Log<P>, phase: Phase, turn: nat, payload: P): Log<P> {
    var att := if r.attest.Some? then Some(r.attest.value(r.session, turn, log.stepIndex, log.prevHash)) else None;
    var event := Event(r.session, phase, turn, payload, att, r.clock(log.stepIndex));
    var digest := r.h(log.prevHash, Body(log.stepIndex, phase, log.prevHash, event));
    Log(log.records + [TraceRecord(log.stepIndex, phase, log.prevHash, digest, event)], digest, log.stepIndex + 1)
  }

  datatype Entry<P> = Entry(phase: Phase, turn: nat, payload: P)

  function EmitAll<P>(r: Recorder<P>, log: Log<P>, entries: seq<Entry<P>>): Log<P> {
    if entries == [] then log else
    var e := entries[|entries| - 1];
    Emit(r, EmitAll(r, log, entries[..|entries| - 1]), e.phase, e.turn, e.payload)
  }

  /** The digest in force before record `i`. */
  ghost function LinkBefore<P>(records: seq<TraceRecord<P>>, genesis: Digest, i: nat): Digest
    requires i <= |records|
  {
    if i == 0 then genesis else records[i - 1].currentHash
  }

  ghost predicate ChainedRecords<P>(h: (Digest, Body<P>) -> Digest, records: seq<TraceRecord<P>>, genesis: Digest) {
    forall i :: 0 <= i < |records| ==> RecordOk(h, records, genesis, i)
  }

  /** Record `i` carries its index, links to its predecessor and has a valid digest. */
  ghost predicate RecordOk<P>(h: (Digest, Body<P>) -> Digest, records: seq<TraceRecord<P>>, genesis: Digest, i: nat)
    requires i < |records|
  {
    && records[i].stepIndex == i
    && records[i].prevHash == LinkBefore(records, genesis, i)
    && records[i].IsHashValid(h)
    && records[i].event.phase == records[i].phase
  }

  ghost predicate Chained<P>(h: (Digest, Body<P>) -> Digest, log: Log<P>, genesis: Digest) {
    && ChainedRecords(h, log.records, genesis)
    && log.stepIndex == |log.records|
    && log.prevHash == LinkBefore(log.records, genesis, |log.records|)
  }

  /** Every emission keeps the chain intact and only appends. */
  lemma EmitKeepsChain<P>(r: Recorder<P>, log: Log<P>, phase: Phase, turn: nat, payload: P, genesis: Digest)
    requires Chained(r.h, log, genesis)
    ensures Chained(r.h, Emit(r, log, phase, turn, payload), genesis)
    ensures log.records <= Emit(r, log, phase, turn, payload).records
  {
    var after := Emit(r, log, phase, turn, payload);
    forall i | 0 <= i < |after.records| ensures RecordOk(r.h, after.records, genesis, i) {
      if i < |log.records| { assert RecordOk(r.h, log.records, genesis, i); }
    }
  }

  /** After any sequence of emissions from an empty trail, the trail is a valid chain. */
  lemma {:induction false} EmitAllChained<P>(r: Recorder<P>, genesis: Digest, entries: seq<Entry<P>>)
    ensures var log := EmitAll(r, Log([], genesis, 0), entries);
            Chained(r.h, log, genesis) && |log.records| == |entries|
  {
    if entries != [] {
      var init, e := entries[..|entries| - 1], entries[|entries| - 1];
      EmitAllChained(r, genesis, init);
      EmitKeepsChain(r, EmitAll(r, Log([], genesis, 0), init), e.phase, e.turn, e.payload, genesis);
    }
  }

  /** Two different records with one digest: what a digest that commits to its input makes hard to find. */
  ghost predicate Collision<P>(h: (Digest, Body<P>) -> Digest, x: TraceRecord<P>, y: TraceRecord<P>) {
    x.Sealed() != y.Sealed() && x.ComputeExpectedHash(h) == y.ComputeExpectedHash(h)
  }

  ghost predicate Collide<P>(h: (Digest, Body<P>) -> Digest, a: seq<TraceRecord<P>>, b: seq<TraceRecord<P>>) {
    exists i, j :: 0 <= i < |a| && 0 <= j < |b| && Collision(h, a[i], b[j])
  }

  /** Two valid chains with the same digest at two places agree up to there, and the places are the same, or
      two of their records collide. */
  lemma {:induction false} AgreeBackwards<P>(h: (Digest, Body<P>) -> Digest, a: seq<TraceRecord<P>>, b: seq<TraceRecord<P>>,
                                          genesisA: Digest, genesisB: Digest, k: nat, l: nat)
    requires ChainedRecords(h, a, genesisA) && ChainedRecords(h, b, genesisB)
    requires k < |a| && l < |b| && a[k].currentHash == b[l].currentHash
    ensures Collide(h, a, b) || (k == l && a[..k + 1] == b[..k + 1] && genesisA == genesisB)
    decreases k
  {
    assert RecordOk(h, a, genesisA, k) && RecordOk(h, b, genesisB, l);
    if a[k].Sealed() != b[l].Sealed() {
      assert Collision(h, a[k], b[l]);
    } else if k > 0 {
      AgreeBackwards(h, a, b, genesisA, genesisB, k - 1, l - 1);
      if !Collide(h, a, b) { assert a[..k + 1] == a[..k] + [a[k]] && b[..k + 1] == b[..k] + [b[k]]; }
    }
  }

  /** The final digest commits to the whole trail: two valid chains with the same final digest are the same,
      record for record and in length, or exhibit two different records with one digest. */
  lemma FinalHashCommits<P>(h: (Digest, Body<P>) -> Digest, a: seq<TraceRecord<P>>, b: seq<TraceRecord<P>>,
                         genesisA: Digest, genesisB: Digest)
    requires ChainedRecords(h, a, genesisA) && ChainedRecords(h, b, genesisB)
    requires a != [] && b != [] && a[|a| - 1].currentHash == b[|b| - 1].currentHash
    ensures (a == b && genesisA == genesisB) || Collide(h, a, b)
  {
    AgreeBackwards(h, a, b, genesisA, genesisB, |a| - 1, |b| - 1);
    assert a == a[..|a|] && b == b[..|b|];
  }
}
