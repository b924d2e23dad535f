/** What a PASS of the structural checker proves about the design, stated on the module alone. */
module CdcSoundness {
  import opened Options
  import opened CdcModel
  import opened CdcGraph
  import opened CdcClocks
  import opened CdcCrossings
  import opened CdcTrace
  import opened CdcAnalyze
  import opened CdcSynchronizers

  /** Register `r` has the one known clock `c`. */
  ghost predicate ClockedBy(m: Module, r: Signal, c: Signal) {
    IsRegister(m, r) && SoleClock(m, r, c)
  }

  /** `n` lies in the transparent fan-in of register `d`. */
  ghost predicate FeedsInto(m: Module, d: Signal, n: Signal) {
    exists rhs, seed :: SeqDriver(m, d, rhs) && seed in rhs && Reach(m, seed, n, {})
  }

  /** `d` is driven through transparent logic as well as by a clocked block. */
  ghost predicate MixedDriver(m: Module, d: Signal) {
    IsRegister(m, d) && exists x :: Comb(m, d, x)
  }

  /** `d` lies in its own fan-in and lets signals through: what reaches it may come from behind itself. */
  ghost predicate SelfFed(m: Module, d: Signal) { MixedDriver(m, d) && FeedsInto(m, d, d) }

  /** Apart from registers of domain `c`, register `r` samples nothing but `only`. */
  ghost predicate OnlySource(m: Module, r: Signal, c: Signal, only: Signal) {
    forall n :: Samples(m, r, n) ==> n == only || ClockedBy(m, n, c)
  }

  ghost predicate SecondStage(m: Module, u: Signal, first: Signal, c: Signal) {
    u != first && ClockedBy(m, u, c) && Samples(m, u, first) && OnlySource(m, u, c, first)
  }

  /** Register `d` of domain `c` brings the foreign register `s` in safely: `s` is one bit wide and the
      only foreign signal `d` samples, no other register of the domain samples `s`, every register of
      the domain that samples `d` is a clean second stage, and some second stage is put to use. */
  ghost predicate Synchronized(m: Module, d: Signal, c: Signal, s: Signal) {
    && WidthOf(m, s) == 1
    && OnlySource(m, d, c, s)
    && Exclusive(m, d, c, s)
    && SomeUsedStages(m, d, c)
  }

  /** There are second stages, and one of them feeds something else. */
  ghost predicate SomeUsedStages(m: Module, d: Signal, c: Signal) {
    exists stages :: stages != {} && AreStages(m, d, c, stages) && StagesUsed(m, stages)
  }

  /** Within domain `c` only `d` samples `s`, and only second stages sample `d`. */
  ghost predicate Exclusive(m: Module, d: Signal, c: Signal, s: Signal) {
    && (forall u :: ClockedBy(m, u, c) && Samples(m, u, s) ==> u == d)
    && (forall u :: ClockedBy(m, u, c) && Samples(m, u, d) ==> SecondStage(m, u, d, c))
  }

  ghost predicate AreStages(m: Module, d: Signal, c: Signal, stages: set<Signal>) {
    forall u :: u in stages <==> SecondStage(m, u, d, c)
  }

  /** Every signal in the transparent fan-in of `d` is accounted for. */
  ghost predicate FaninSafe(m: Module, d: Signal, c: Signal) {
    forall n :: FeedsInto(m, d, n) && n != d ==> SourceSafe(m, d, c, n)
  }

  ghost predicate SourceSafe(m: Module, d: Signal, c: Signal, n: Signal) {
    && n !in Boundary(m)
    && (Edges(m, n) == [] ==> n in m.ports)
    && (IsRegister(m, n) && !ClockedBy(m, n, c) ==>
          (exists other :: other != c && ClockedBy(m, n, other)) && Synchronized(m, d, c, n))
  }

  lemma DomainMeaning(m: Module, dm: DomainMap, r: Signal, c: Signal)
    requires IsDomainMap(m, dm)
    ensures dm.Of(r) == Some(c) <==> ClockedBy(m, r, c)
    ensures InDomain(m, dm, r, c) <==> ClockedBy(m, r, c)
  {
  }

  /** Everything that reaches `d` without passing through it is accounted for. */
  ghost predicate DirectlySafe(m: Module, d: Signal, c: Signal) {
    forall n :: Sampled(m, d, n) ==> SourceSafe(m, d, c, n)
  }

  /** Everything behind `d` is accounted for. */
  ghost predicate BehindSafe(m: Module, d: Signal, c: Signal) {
    forall n :: n != d && Reach(m, d, n, {}) ==> SourceSafe(m, d, c, n)
  }

  /** What feeds `d` reaches it directly, or from behind `d` when `d` feeds itself. */
  lemma FeedsSplit(m: Module, d: Signal, n: Signal)
    requires FeedsInto(m, d, n)
    ensures Sampled(m, d, n) || (FeedsInto(m, d, d) && Reach(m, d, n, {}))
  {
    var rhs, seed :| SeqDriver(m, d, rhs) && seed in rhs && Reach(m, seed, n, {});
    var p :| Walk(m, seed, n, {}, p);
    if d in p {
      var i :| 0 <= i < |p| && p[i] == d;
      WalkSplits(m, seed, n, p, i);
    } else {
      assert Walk(m, seed, n, {d}, p);
    }
  }

  lemma WalkSplits(m: Module, a: Signal, b: Signal, p: seq<Signal>, i: nat)
    requires Walk(m, a, b, {}, p) && i < |p|
    ensures Reach(m, a, p[i], {}) && Reach(m, p[i], b, {})
  {
    assert Walk(m, a, p[i], {}, p[..i + 1]);
    assert Walk(m, p[i], b, {}, p[i..]);
  }

  lemma BehindFeeds(m: Module, d: Signal, n: Signal)
    requires FeedsInto(m, d, d) && Reach(m, d, n, {})
    ensures FeedsInto(m, d, n)
  {
    var rhs, seed :| SeqDriver(m, d, rhs) && seed in rhs && Reach(m, seed, d, {});
    ReachJoins(m, seed, d, n);
  }

  lemma ReachJoins(m: Module, a: Signal, b: Signal, c: Signal)
    requires Reach(m, a, b, {}) && Reach(m, b, c, {})
    ensures Reach(m, a, c, {})
  {
    var p :| Walk(m, a, b, {}, p);
    var q :| Walk(m, b, c, {}, q);
    var r := p + q[1..];
    forall i | 0 <= i < |r| - 1 ensures Comb(m, r[i], r[i + 1]) {
      if i < |p| - 1 { assert Comb(m, p[i], p[i + 1]); }
      else { assert Comb(m, q[i - |p| + 1], q[i - |p| + 2]); }
    }
    assert Walk(m, a, c, {}, r);
  }

  /** The whole fan-in of a register is safe exactly when what reaches it directly is, and, if it feeds itself,
      what lies behind it is too. */
  lemma FaninExactly(m: Module, d: Signal, c: Signal)
    requires IsRegister(m, d)
    ensures FaninSafe(m, d, c) <==> DirectlySafe(m, d, c) && (FeedsInto(m, d, d) ==> BehindSafe(m, d, c))
  {
    if FaninSafe(m, d, c) {
      forall n | Sampled(m, d, n) ensures SourceSafe(m, d, c, n) {
        SampledFeeds(m, d, n);
        SampledIsOther(m, d, n);
      }
      if FeedsInto(m, d, d) {
        forall n | n != d && Reach(m, d, n, {}) ensures SourceSafe(m, d, c, n) { BehindFeeds(m, d, n); }
      }
    }
    if DirectlySafe(m, d, c) && (FeedsInto(m, d, d) ==> BehindSafe(m, d, c)) {
      forall n | FeedsInto(m, d, n) && n != d ensures SourceSafe(m, d, c, n) { FeedsSplit(m, d, n); }
    }
  }

  /** Something other than `d` is behind `d` only if it has a transparent driver. */
  lemma SomethingBehind(m: Module, d: Signal, n: Signal)
    requires IsRegister(m, d) && n != d && Reach(m, d, n, {})
    ensures MixedDriver(m, d)
  {
    var p :| Walk(m, d, n, {}, p);
    assert Comb(m, p[0], p[1]);
  }

  /** Unless a register feeds itself through transparent drivers, its fan-in is what reaches it directly. */
  lemma FaninIsDirect(m: Module, d: Signal, n: Signal)
    requires IsRegister(m, d) && !SelfFed(m, d) && n != d
    ensures FeedsInto(m, d, n) <==> Sampled(m, d, n)
  {
    if FeedsInto(m, d, n) {
      FeedsSplit(m, d, n);
      if !Sampled(m, d, n) { SomethingBehind(m, d, n); }
    }
    if Sampled(m, d, n) { SampledFeeds(m, d, n); }
  }

  lemma SamplesMeaning(m: Module, d: Signal, n: Signal)
    ensures Samples(m, d, n) <==> Endpoint(m, n) && FeedsInto(m, d, n)
  {
    if Samples(m, d, n) {
      var rhs :| SeqDriver(m, d, rhs) && n in Cone(m, rhs);
      var seed :| seed in rhs && Reach(m, seed, n, {});
    }
    if Endpoint(m, n) && FeedsInto(m, d, n) {
      var rhs, seed :| SeqDriver(m, d, rhs) && seed in rhs && Reach(m, seed, n, {});
      assert Fed(m, rhs, n);
    }
  }

  /** The two searches agree: unless a register feeds itself through transparent drivers, the recursive search
      reports exactly the members of its fan-in cone, as the worklist computes it, that have a known other domain. */
  lemma SearchesAgree(m: Module, dm: DomainMap, d: Signal, s: Signal)
    requires IsDomainMap(m, dm) && IsRegister(m, d) && !SelfFed(m, d) && dm.Of(d).Some?
    ensures (exists c :: c in FirstOfEach(Scanned(m, dm).crossings) && c.source == s && c.dest == d) <==>
            Samples(m, d, s) && dm.Of(s).Some? && dm.Of(s) != dm.Of(d)
  {
    AnalyzeExact(m, dm);
    PairIsSampled(m, dm, d, s);
  }

  lemma PairIsSampled(m: Module, dm: DomainMap, d: Signal, s: Signal)
    requires IsDomainMap(m, dm) && IsRegister(m, d) && !SelfFed(m, d) && dm.Of(d).Some?
    ensures CrossingPair(m, dm, s, d) <==> Samples(m, d, s) && dm.Of(s).Some? && dm.Of(s) != dm.Of(d)
  {
    SamplesMeaning(m, d, s);
    if s != d {
      FaninIsDirect(m, d, s);
    } else if Sampled(m, d, d) {
      SampledIsOther(m, d, d);
    }
    if IsRegister(m, s) { RegisterEnds(m, s); }
  }

  lemma RegisterEnds(m: Module, r: Signal)
    requires IsRegister(m, r)
    ensures Endpoint(m, r)
  {
    var rhs :| SeqDriver(m, r, rhs);
    SeqEdges(m, r, rhs);
  }

  lemma OnlyMeaning(m: Module, dm: DomainMap, r: Signal, c: Signal, only: Signal)
    requires IsDomainMap(m, dm)
    ensures SamplesOnly(m, dm, r, c, only) <==> OnlySource(m, r, c, only)
  {
    forall n ensures InDomain(m, dm, n, c) <==> ClockedBy(m, n, c) { DomainMeaning(m, dm, n, c); }
  }

  lemma StageMeaning(m: Module, dm: DomainMap, first: Signal, c: Signal, u: Signal)
    requires IsDomainMap(m, dm)
    ensures IsStage(m, dm, first, c, u) <==> SecondStage(m, u, first, c)
  {
    DomainMeaning(m, dm, u, c);
    OnlyMeaning(m, dm, u, c, first);
  }

  lemma StagesMeaning(m: Module, dm: DomainMap, d: Signal, c: Signal)
    requires IsDomainMap(m, dm)
    ensures AreStages(m, d, c, Stages(m, dm, d, c))
    ensures forall st :: AreStages(m, d, c, st) ==> st == Stages(m, dm, d, c)
    ensures Stages(m, dm, d, c) != {} <==> exists l :: IsStage(m, dm, d, c, l)
  {
    var stages := Stages(m, dm, d, c);
    forall u ensures u in stages <==> IsStage(m, dm, d, c, u) { }
    forall u ensures IsStage(m, dm, d, c, u) <==> SecondStage(m, u, d, c) { StageMeaning(m, dm, d, c, u); }
  }

  /** What the bypass test establishes, clause by clause. */
  lemma BypassMeaning(m: Module, dm: DomainMap, k: RawCrossing)
    requires IsDomainMap(m, dm)
    ensures NoBypass(m, dm, k) <==>
            && Exclusive(m, k.dest, k.destDomain, k.source)
            && StagesUsed(m, Stages(m, dm, k.dest, k.destDomain))
  {
    var c := k.destDomain;
    forall u, s ensures IsConsumer(m, dm, s, c, u) <==> ClockedBy(m, u, c) && Samples(m, u, s) {
      DomainMeaning(m, dm, u, c);
    }
    forall u ensures IsStage(m, dm, k.dest, c, u) <==> SecondStage(m, u, k.dest, c) {
      StageMeaning(m, dm, k.dest, c, u);
    }
  }

  /** A crossing earns SAFE_SYNCHRONIZER exactly when it is structurally synchronized, its evidence path
      names no reset, and the design does not look like a dual-clock FIFO. */
  lemma OkMeansSynchronized(m: Module, dm: DomainMap, k: RawCrossing)
    requires IsDomainMap(m, dm) && ClockedBy(m, k.dest, k.destDomain) && Samples(m, k.dest, k.source)
    ensures Verdicted(m, dm, k).1 == Ok <==>
            !k.resetInvolved && !FifoCandidate(m, dm) && Synchronized(m, k.dest, k.destDomain, k.source)
  {
    VerdictedOk(m, dm, k);
    ChainMeaning(m, dm, k);
    BypassMeaning(m, dm, k);
    UsedMeaning(m, dm, k.dest, k.destDomain);
  }

  lemma VerdictedOk(m: Module, dm: DomainMap, k: RawCrossing)
    ensures Verdicted(m, dm, k).1 == Ok <==>
            !k.resetInvolved && !FifoCandidate(m, dm) && ChainFound(m, dm, k) && NoBypass(m, dm, k) &&
            WidthOf(m, k.source) == 1
  {
  }

  lemma ChainMeaning(m: Module, dm: DomainMap, k: RawCrossing)
    requires IsDomainMap(m, dm) && ClockedBy(m, k.dest, k.destDomain) && Samples(m, k.dest, k.source)
    ensures ChainFound(m, dm, k) <==>
            OnlySource(m, k.dest, k.destDomain, k.source) && Stages(m, dm, k.dest, k.destDomain) != {}
  {
    DomainMeaning(m, dm, k.dest, k.destDomain);
    OnlyMeaning(m, dm, k.dest, k.destDomain, k.source);
    StagesMeaning(m, dm, k.dest, k.destDomain);
  }

  lemma UsedMeaning(m: Module, dm: DomainMap, d: Signal, c: Signal)
    requires IsDomainMap(m, dm)
    ensures SomeUsedStages(m, d, c) <==> Stages(m, dm, d, c) != {} && StagesUsed(m, Stages(m, dm, d, c))
  {
    StagesMeaning(m, dm, d, c);
  }

  /** Register `d` of domain `c` samples `s` and else only its own domain, and has a second stage. */
  ghost predicate Chained(m: Module, d: Signal, c: Signal, s: Signal) {
    OnlySource(m, d, c, s) && exists u :: SecondStage(m, u, d, c)
  }

  /** The chain is all there is: nothing else listens to the source or to the first stage, and a stage is used. */
  ghost predicate CleanChain(m: Module, d: Signal, c: Signal, s: Signal) {
    Exclusive(m, d, c, s) && SomeUsedStages(m, d, c)
  }

  /** Which crossings get which classification, and which severity each classification has. */
  lemma ClassifiedExactly(m: Module, dm: DomainMap, c: RawCrossing, k: ClassifiedCrossing)
    requires IsDomainMap(m, dm) && ClockedBy(m, c.dest, c.destDomain) && Samples(m, c.dest, c.source)
    requires Describes(m, dm, c, k)
    ensures k.classification == ResetCrossing <==> c.resetInvolved
    ensures k.classification == UnprovenFifo <==> !c.resetInvolved && FifoCandidate(m, dm)
    ensures var plain := !c.resetInvolved && !FifoCandidate(m, dm); var bit := WidthOf(m, c.source) == 1;
      var chained := Chained(m, c.dest, c.destDomain, c.source); var clean := CleanChain(m, c.dest, c.destDomain, c.source);
      && (k.classification == UnsafeDirect <==> plain && bit && !chained)
      && (k.classification == UnsafeBypass <==> plain && chained && !clean)
      && (k.classification == SafeSynchronizer <==> plain && bit && chained && clean)
      && (k.classification == MultibitUnproven <==> plain && !bit && (chained ==> clean))
    ensures k.severity == Error <==> k.classification in {UnsafeDirect, UnsafeBypass}
    ensures k.severity == Ok <==> k.classification == SafeSynchronizer
  {
    VerdictCases(m, dm, c);
    ChainCases(m, dm, c);
  }

  lemma VerdictCases(m: Module, dm: DomainMap, c: RawCrossing)
    ensures var (cl, sev) := Verdicted(m, dm, c);
      var plain := !c.resetInvolved && !FifoCandidate(m, dm); var bit := WidthOf(m, c.source) == 1;
      var chained := ChainFound(m, dm, c); var clean := NoBypass(m, dm, c);
      && (cl == ResetCrossing <==> c.resetInvolved) && (cl == UnprovenFifo <==> !c.resetInvolved && FifoCandidate(m, dm))
      && (cl == UnsafeDirect <==> plain && bit && !chained)
      && (cl == UnsafeBypass <==> plain && chained && !clean)
      && (cl == SafeSynchronizer <==> plain && bit && chained && clean)
      && (cl == MultibitUnproven <==> plain && !bit && (chained ==> clean))
      && (sev == Error <==> cl in {UnsafeDirect, UnsafeBypass}) && (sev == Ok <==> cl == SafeSynchronizer)
  {
  }

  lemma ChainCases(m: Module, dm: DomainMap, c: RawCrossing)
    requires IsDomainMap(m, dm) && ClockedBy(m, c.dest, c.destDomain) && Samples(m, c.dest, c.source)
    ensures ChainFound(m, dm, c) <==> Chained(m, c.dest, c.destDomain, c.source)
    ensures ChainFound(m, dm, c) ==> (NoBypass(m, dm, c) <==> CleanChain(m, c.dest, c.destDomain, c.source))
  {
    ChainMeaning(m, dm, c);
    StagesMeaning(m, dm, c.dest, c.destDomain);
    ChainedStages(m, dm, c.dest, c.destDomain);
    BypassMeaning(m, dm, c);
    UsedMeaning(m, dm, c.dest, c.destDomain);
  }

  lemma ChainedStages(m: Module, dm: DomainMap, d: Signal, c: Signal)
    requires IsDomainMap(m, dm)
    ensures (exists l :: IsStage(m, dm, d, c, l)) <==> exists u :: SecondStage(m, u, d, c)
  {
    forall u ensures IsStage(m, dm, d, c, u) <==> SecondStage(m, u, d, c) { StageMeaning(m, dm, d, c, u); }
  }

  // ---------------------------------------------------------------- soundness

  lemma CleanHits(m: Module, dm: DomainMap)
    requires IsDomainMap(m, dm) && Passes(m, dm)
    ensures forall d, h :: !UnknownPair(m, dm, d, h)
  {
    forall d, h ensures !UnknownPair(m, dm, d, h) {
      ScanBlocksExact(m, dm, |m.alwaysBlocks|, h, d);
      PairsByBlock(m, dm, h, d);
    }
  }

  /** Under a PASS every register has one known clock. */
  lemma PassKnowsDomains(m: Module, dm: DomainMap, d: Signal) returns (c: Signal)
    requires IsDomainMap(m, dm) && Passes(m, dm) && IsRegister(m, d)
    ensures ClockedBy(m, d, c) && dm.Of(d) == Some(c)
  {
    CleanHits(m, dm);
    assert !UnknownPair(m, dm, d, d);
    assert dm.Of(d).Some?;
    c := dm.Of(d).value;
    DomainMeaning(m, dm, d, c);
  }

  /** For every register, mixed or not, PASS accounts for each signal whose way into the register does
      not lead back through the register itself. */
  lemma PassCoversSampled(m: Module, dm: DomainMap, d: Signal) returns (c: Signal)
    requires IsDomainMap(m, dm) && Passes(m, dm) && IsRegister(m, d)
    ensures ClockedBy(m, d, c) && DirectlySafe(m, d, c)
  {
    c := PassKnowsDomains(m, dm, d);
    CleanHits(m, dm);
    forall n | Sampled(m, d, n) ensures SourceSafe(m, d, c, n) {
      assert !UnknownPair(m, dm, d, n);
      assert !Murky(Scan(m, dm, d, c), n);
      if IsRegister(m, n) && !ClockedBy(m, n, c) {
        DomainMeaning(m, dm, n, c);
        var other := PassKnowsDomains(m, dm, n);
        assert CrossingPair(m, dm, n, d);
        AnalyzeExact(m, dm);
        var k :| k in FirstOfEach(Scanned(m, dm).crossings) && k.source == n && k.dest == d;
        assert Backed(Scan(m, dm, k.dest, dm.Of(k.dest).value), k);
        assert k.destDomain == c;
        SampledFeeds(m, d, n);
        SamplesMeaning(m, d, n);
        OkMeansSynchronized(m, dm, k);
      }
    }
  }

  lemma SampledFeeds(m: Module, d: Signal, n: Signal)
    requires Sampled(m, d, n)
    ensures FeedsInto(m, d, n)
  {
    var rhs, seed :| SeqDriver(m, d, rhs) && seed in rhs && Reach(m, seed, n, {d});
    ReachMono(m, seed, n, {}, {d});
  }

  /** Soundness of PASS: for every register that does not feed itself through transparent drivers, its whole
      transparent fan-in consists of undriven ports no instance touches, registers of its own domain, and at
      most one properly synchronized foreign register. */
  lemma PassIsSound(m: Module, dm: DomainMap, d: Signal) returns (c: Signal)
    requires IsDomainMap(m, dm) && Passes(m, dm)
    requires IsRegister(m, d) && !SelfFed(m, d)
    ensures ClockedBy(m, d, c) && FaninSafe(m, d, c)
  {
    c := PassCoversSampled(m, dm, d);
    forall n | FeedsInto(m, d, n) && n != d ensures SourceSafe(m, d, c, n) { FaninIsDirect(m, d, n); }
  }

  /** And exactly when it holds: under PASS the fan-in of any register is safe if and only if what lies behind
      the register is, should it feed itself. */
  lemma PassSoundExactly(m: Module, dm: DomainMap, d: Signal, c: Signal)
    requires IsDomainMap(m, dm) && Passes(m, dm) && ClockedBy(m, d, c)
    ensures FaninSafe(m, d, c) <==> (FeedsInto(m, d, d) ==> BehindSafe(m, d, c))
  {
    var clock := PassCoversSampled(m, dm, d);
    DomainMeaning(m, dm, d, c);
    DomainMeaning(m, dm, d, clock);
    FaninExactly(m, d, c);
  }

  /** Register `d` is clocked by `a`, yet also assigned from the `b`-clocked register `f`. */
  function LoopholeDesign(): Module {
    Module("loophole", map[], map[], [Assign("d", ["f"])],
           [AlwaysBlock(Clocked, [Clock("posedge", "a")], [Assign("d", ["d"])]),
            AlwaysBlock(Clocked, [Clock("posedge", "b")], [Assign("f", ["f"])])], [])
  }

  lemma LoopholeGraph(m: Module, r: Signal, x: Signal)
    requires m == LoopholeDesign()
    ensures forall rhs :: SeqDriver(m, r, rhs) <==> (r == "d" && rhs == ["d"]) || (r == "f" && rhs == ["f"])
    ensures Comb(m, r, x) <==> r == "d" && x == "f"
  {
    var b0, b1 := m.alwaysBlocks[0], m.alwaysBlocks[1];
    assert b0.drivers[0] == Assign("d", ["d"]) && b1.drivers[0] == Assign("f", ["f"]);
    forall rhs ensures SeqDriver(m, r, rhs) <==> (r == "d" && rhs == ["d"]) || (r == "f" && rhs == ["f"]) {
      if r == "d" && rhs == ["d"] { assert b0 in m.alwaysBlocks && b0.drivers[0] in b0.drivers; }
      if r == "f" && rhs == ["f"] { assert b1 in m.alwaysBlocks && b1.drivers[0] in b1.drivers; }
    }
    var w := Wire("d", Edge(Combinational, ["f"]));
    forall rhs ensures Edge(Combinational, rhs) in Edges(m, r) <==> r == "d" && rhs == ["f"] {
      EdgesInMember(Wires(m), r, Edge(Combinational, rhs));
      AssignWiresMember(m.assigns, Combinational, Wire(r, Edge(Combinational, rhs)));
      BlockWiresMember(m.alwaysBlocks, Wire(r, Edge(Combinational, rhs)));
      assert m.assigns[0] == Assign("d", ["f"]);
    }
    if r == "d" && x == "f" { assert Edge(Combinational, ["f"]) in Edges(m, r); }
    if Comb(m, r, x) {
      var e :| e in Edges(m, r) && e.kind == Combinational && x in e.rhs;
      assert e == Edge(Combinational, e.rhs);
    }
  }

  lemma LoopholeFacts(m: Module)
    requires m == LoopholeDesign()
    ensures SeqDriver(m, "d", ["d"]) && SeqDriver(m, "f", ["f"]) && Comb(m, "d", "f")
    ensures forall r :: IsRegister(m, r) <==> r == "d" || r == "f"
    ensures forall d, n :: !Sampled(m, d, n)
  {
    LoopholeGraph(m, "d", "f");
    LoopholeGraph(m, "f", "f");
    assert SeqDriver(m, "d", ["d"]) && SeqDriver(m, "f", ["f"]);
    forall r ensures IsRegister(m, r) <==> r == "d" || r == "f" {
      LoopholeGraph(m, r, r);
      if IsRegister(m, r) { var rhs :| SeqDriver(m, r, rhs); }
    }
    forall d, n ensures !Sampled(m, d, n) {
      LoopholeGraph(m, d, n);
      ReachUnfold(m, d, n, {d});
    }
  }

  lemma LoopholePasses(m: Module, dm: DomainMap)
    requires m == LoopholeDesign() && IsDomainMap(m, dm)
    ensures Passes(m, dm)
  {
    LoopholeFacts(m);
    LoopholeClocks(m);
    DomainMeaning(m, dm, "d", "a");
    DomainMeaning(m, dm, "f", "b");
    forall d, h ensures !UnknownPair(m, dm, d, h) { }
    NoHits(m, dm);
    forall s, d ensures !CrossingPair(m, dm, s, d) { }
    NoCrossings(m, dm);
  }

  lemma LoopholeUnsynchronized(m: Module)
    requires m == LoopholeDesign()
    ensures !Synchronized(m, "d", "a", "f")
  {
    LoopholeFacts(m);
    LoopholeClocks(m);
    forall u ensures !SecondStage(m, u, "d", "a") {
      if ClockedBy(m, u, "a") && u == "f" { SoleClockUnique(m, "f", "a", "b"); }
    }
  }

  /** The side condition of `PassIsSound` is needed: this design passes although a register samples a
      register of another clock with no synchronizer at all. */
  lemma MixedDriverEscapes(m: Module, dm: DomainMap)
    requires m == LoopholeDesign() && IsDomainMap(m, dm)
    ensures Passes(m, dm) && SelfFed(m, "d")
    ensures ClockedBy(m, "d", "a") && ClockedBy(m, "f", "b") && Samples(m, "d", "f") && !Synchronized(m, "d", "a", "f")
  {
    LoopholePasses(m, dm);
    LoopholeUnsynchronized(m);
    LoopholeSamples(m);
    LoopholeClocked(m);
  }

  lemma LoopholeClocked(m: Module)
    requires m == LoopholeDesign()
    ensures ClockedBy(m, "d", "a") && ClockedBy(m, "f", "b")
  {
    LoopholeFacts(m);
    LoopholeClocks(m);
  }

  lemma LoopholeSamples(m: Module)
    requires m == LoopholeDesign()
    ensures Samples(m, "d", "f") && SelfFed(m, "d")
  {
    LoopholeFacts(m);
    assert ["d"][0] == "d";
    ReachSelf(m, "d", {});
    assert FeedsInto(m, "d", "d");
    assert Walk(m, "d", "f", {}, ["d", "f"]);
    assert Reach(m, "d", "f", {});
    assert Fed(m, ["d"], "f");
    assert "f" in Cone(m, ["d"]);
  }

  lemma SoleClockUnique(m: Module, r: Signal, c1: Signal, c2: Signal)
    requires IsRegister(m, r) && SoleClock(m, r, c1) && SoleClock(m, r, c2)
    ensures c1 == c2
  {
    var rhs :| SeqDriver(m, r, rhs);
    var b, d :| b in m.alwaysBlocks && b.kind == Clocked && d in b.drivers && d == Assign(r, rhs);
    assert Drives(b, r);
    assert c1 in ClockSet(b) && c2 in {c2};
  }

  lemma LoopholeClocks(m: Module)
    requires m == LoopholeDesign()
    ensures SoleClock(m, "d", "a") && SoleClock(m, "f", "b")
  {
    assert ClockSet(m.alwaysBlocks[0]) == {"a"} by { assert m.alwaysBlocks[0].clocks[0] == Clock("posedge", "a"); }
    assert ClockSet(m.alwaysBlocks[1]) == {"b"} by { assert m.alwaysBlocks[1].clocks[0] == Clock("posedge", "b"); }
  }

  /** Under a PASS the sampling of foreign registers is one-to-one within a domain. */
  lemma PassSamplesOneToOne(m: Module, dm: DomainMap, d1: Signal, d2: Signal, s1: Signal, s2: Signal, c: Signal)
    requires IsDomainMap(m, dm) && Passes(m, dm)
    requires !SelfFed(m, d1) && !SelfFed(m, d2) && ClockedBy(m, d1, c) && ClockedBy(m, d2, c)
    requires IsRegister(m, s1) && !ClockedBy(m, s1, c) && Samples(m, d1, s1)
    requires IsRegister(m, s2) && !ClockedBy(m, s2, c) && Samples(m, d2, s2)
    ensures d1 == d2 <==> s1 == s2
  {
    var c1 := PassIsSound(m, dm, d1);
    var c2 := PassIsSound(m, dm, d2);
    DomainMeaning(m, dm, d1, c); DomainMeaning(m, dm, d1, c1);
    DomainMeaning(m, dm, d2, c); DomainMeaning(m, dm, d2, c2);
    SamplesMeaning(m, d1, s1);
    SamplesMeaning(m, d2, s2);
    assert SourceSafe(m, d1, c, s1) && SourceSafe(m, d2, c, s2);
  }

  // ---------------------------------------------------------------- completeness

  /** The checker refuses to prove two things whatever the structure: a crossing with a reset name on its path,
      and any crossing in a design that looks like a dual-clock FIFO. */
  ghost predicate Refuses(m: Module, dm: DomainMap) {
    || (exists k :: k in FirstOfEach(Scanned(m, dm).crossings) && k.resetInvolved)
    || (FifoCandidate(m, dm) && exists s, d :: CrossingPair(m, dm, s, d))
  }

  ghost predicate DirectlySynchronized(m: Module) {
    forall d :: IsRegister(m, d) ==> exists c :: ClockedBy(m, d, c) && DirectlySafe(m, d, c)
  }

  /** PASS means, for every design: each register has one known clock and what reaches it directly is safe, and
      there is nothing the checker refuses to prove. */
  lemma PassExactly(m: Module, dm: DomainMap)
    requires IsDomainMap(m, dm)
    ensures Passes(m, dm) <==> DirectlySynchronized(m) && !Refuses(m, dm)
  {
    if Passes(m, dm) {
      forall d | IsRegister(m, d) ensures exists c :: ClockedBy(m, d, c) && DirectlySafe(m, d, c) {
        var c := PassCoversSampled(m, dm, d);
      }
      PassRefusesNothing(m, dm);
    }
    if DirectlySynchronized(m) && !Refuses(m, dm) {
      forall d, h ensures !UnknownPair(m, dm, d, h) { if IsRegister(m, d) { SafeHasNoHit(m, dm, d, h); } }
      NoHits(m, dm);
      forall k | k in FirstOfEach(Scanned(m, dm).crossings) ensures Verdicted(m, dm, k).1 == Ok {
        CrossingIsPair(m, dm, k);
        SafeCrossingOk(m, dm, k);
      }
    }
  }

  lemma PassRefusesNothing(m: Module, dm: DomainMap)
    requires IsDomainMap(m, dm) && Passes(m, dm)
    ensures !Refuses(m, dm)
  {
    AnalyzeExact(m, dm);
    forall k | k in FirstOfEach(Scanned(m, dm).crossings) ensures !k.resetInvolved && !FifoCandidate(m, dm) {
      VerdictedOk(m, dm, k);
    }
  }

  /** On a design in which no register feeds itself through transparent drivers that is the whole fan-in. */
  lemma PassCoversFanin(m: Module, dm: DomainMap)
    requires IsDomainMap(m, dm) && forall d :: !SelfFed(m, d)
    ensures Passes(m, dm) <==>
            !Refuses(m, dm) && forall d :: IsRegister(m, d) ==> exists c :: ClockedBy(m, d, c) && FaninSafe(m, d, c)
  {
    PassExactly(m, dm);
    forall d, c | IsRegister(m, d) ensures FaninSafe(m, d, c) <==> DirectlySafe(m, d, c) { PlainFanin(m, d, c); }
  }

  lemma PlainFanin(m: Module, d: Signal, c: Signal)
    requires IsRegister(m, d) && !SelfFed(m, d)
    ensures FaninSafe(m, d, c) <==> DirectlySafe(m, d, c)
  {
    FaninExactly(m, d, c);
    if DirectlySafe(m, d, c) {
      forall n | FeedsInto(m, d, n) && n != d ensures SourceSafe(m, d, c, n) { FaninIsDirect(m, d, n); }
    }
  }

  lemma NoHits(m: Module, dm: DomainMap)
    requires forall d, h :: !UnknownPair(m, dm, d, h)
    ensures Scanned(m, dm).hits == []
  {
    var hits := Scanned(m, dm).hits;
    if hits != [] {
      HitIsUnknown(m, dm, hits[0]);
      assert false;
    }
  }

  lemma NoCrossings(m: Module, dm: DomainMap)
    requires forall s, d :: !CrossingPair(m, dm, s, d)
    ensures FirstOfEach(Scanned(m, dm).crossings) == []
  {
    var cs := FirstOfEach(Scanned(m, dm).crossings);
    if cs != [] {
      CrossingIsPair(m, dm, cs[0]);
      assert false;
    }
  }

  lemma CrossingIsPair(m: Module, dm: DomainMap, c: RawCrossing)
    requires c in FirstOfEach(Scanned(m, dm).crossings)
    ensures CrossingPair(m, dm, c.source, c.dest)
    ensures Backed(Scan(m, dm, c.dest, dm.Of(c.dest).value), c)
  {
    AnalyzeExact(m, dm);
  }

  lemma HitIsUnknown(m: Module, dm: DomainMap, hit: (Signal, Signal))
    requires hit in Scanned(m, dm).hits
    ensures UnknownPair(m, dm, hit.0, hit.1)
  {
    ScanBlocksExact(m, dm, |m.alwaysBlocks|, hit.1, hit.0);
    PairsByBlock(m, dm, hit.1, hit.0);
    assert hit == (hit.0, hit.1);
  }

  lemma SafeHasNoHit(m: Module, dm: DomainMap, d: Signal, h: Signal)
    requires IsDomainMap(m, dm) && IsRegister(m, d) && DirectlySynchronized(m)
    ensures !UnknownPair(m, dm, d, h)
  {
    var c :| ClockedBy(m, d, c) && DirectlySafe(m, d, c);
    DomainMeaning(m, dm, d, c);
    if Sampled(m, d, h) {
      assert SourceSafe(m, d, c, h);
      if IsRegister(m, h) {
        var any :| ClockedBy(m, h, any);
        DomainMeaning(m, dm, h, any);
      }
    }
  }

  lemma SampledIsOther(m: Module, d: Signal, h: Signal)
    requires Sampled(m, d, h)
    ensures h != d
  {
    var rhs, seed :| SeqDriver(m, d, rhs) && seed in rhs && Reach(m, seed, h, {d});
    var p :| Walk(m, seed, h, {d}, p);
    assert h in p;
  }

  lemma SafeCrossingOk(m: Module, dm: DomainMap, k: RawCrossing)
    requires IsDomainMap(m, dm) && DirectlySynchronized(m) && !Refuses(m, dm)
    requires k in FirstOfEach(Scanned(m, dm).crossings) && CrossingPair(m, dm, k.source, k.dest)
    requires Backed(Scan(m, dm, k.dest, dm.Of(k.dest).value), k)
    ensures Verdicted(m, dm, k).1 == Ok
  {
    var d, s := k.dest, k.source;
    var c :| ClockedBy(m, d, c) && DirectlySafe(m, d, c);
    DomainMeaning(m, dm, d, c);
    DomainMeaning(m, dm, s, c);
    assert SourceSafe(m, d, c, s);
    SampledFeeds(m, d, s);
    SamplesMeaning(m, d, s);
    RegisterEnds(m, s);
    OkMeansSynchronized(m, dm, k);
  }

  // ---------------------------------------------------------------- what a FAIL means

  /** A crossing that is an error: no chain and one bit wide, or a chain that is bypassed or unused. */
  ghost predicate Faulty(m: Module, k: RawCrossing) {
    && !k.resetInvolved
    && if Chained(m, k.dest, k.destDomain, k.source) then !CleanChain(m, k.dest, k.destDomain, k.source)
       else WidthOf(m, k.source) == 1
  }

  ghost predicate Proven(m: Module, k: RawCrossing) {
    !k.resetInvolved && Synchronized(m, k.dest, k.destDomain, k.source)
  }

  /** Of the reported crossings, in order, a faulty one comes before any that can be neither proven nor refuted. */
  ghost predicate FaultFirst(m: Module, cs: seq<RawCrossing>) {
    exists i :: 0 <= i < |cs| && Faulty(m, cs[i]) && forall j :: 0 <= j < i ==> Proven(m, cs[j])
  }

  /** FAIL means, for every design: it does not look like a dual-clock FIFO, and the first reported crossing that is
      not synchronized is faulty. */
  lemma FailExactly(m: Module, dm: DomainMap)
    requires IsDomainMap(m, dm)
    ensures FailsFirst(m, dm, Reported(m, dm)) <==> !FifoCandidate(m, dm) && FaultFirst(m, Reported(m, dm))
  {
    var cs := Reported(m, dm);
    forall i | 0 <= i < |cs|
      ensures Verdicted(m, dm, cs[i]).1 == Error <==> !FifoCandidate(m, dm) && Faulty(m, cs[i])
      ensures Verdicted(m, dm, cs[i]).1 == Ok <==> !FifoCandidate(m, dm) && Proven(m, cs[i])
    {
      ReportedSampled(m, dm, cs[i]);
      VerdictMeaning(m, dm, cs[i]);
    }
  }

  lemma ReportedSampled(m: Module, dm: DomainMap, k: RawCrossing)
    requires IsDomainMap(m, dm) && k in Reported(m, dm)
    ensures ClockedBy(m, k.dest, k.destDomain) && Samples(m, k.dest, k.source) && CrossingPair(m, dm, k.source, k.dest)
    ensures dm.Of(k.dest) == Some(k.destDomain)
  {
    ReportOrderMember(FirstOfEach(Scanned(m, dm).crossings), k);
    CrossingIsPair(m, dm, k);
    DomainMeaning(m, dm, k.dest, k.destDomain);
    SampledFeeds(m, k.dest, k.source);
    RegisterEnds(m, k.source);
    SamplesMeaning(m, k.dest, k.source);
  }

  lemma VerdictMeaning(m: Module, dm: DomainMap, k: RawCrossing)
    requires IsDomainMap(m, dm) && ClockedBy(m, k.dest, k.destDomain) && Samples(m, k.dest, k.source)
    ensures Verdicted(m, dm, k).1 == Error <==> !FifoCandidate(m, dm) && Faulty(m, k)
    ensures Verdicted(m, dm, k).1 == Ok <==> !FifoCandidate(m, dm) && Proven(m, k)
  {
    OkMeansSynchronized(m, dm, k);
    var (cl, sev) := Verdicted(m, dm, k);
    ClassifiedExactly(m, dm, k, ClassifiedCrossing(k.source, k.sourceDomain, k.dest, k.destDomain, k.path, cl, sev));
  }

  /** Where no path names a reset, nothing looks like a FIFO and only single bits cross, FAIL means exactly that some
      crossing is not synchronized. */
  lemma PlainFailExactly(m: Module, dm: DomainMap)
    requires IsDomainMap(m, dm) && !FifoCandidate(m, dm)
    requires forall k :: k in FirstOfEach(Scanned(m, dm).crossings) ==> !k.resetInvolved
    requires forall s, d :: CrossingPair(m, dm, s, d) ==> WidthOf(m, s) == 1
    ensures FailsFirst(m, dm, Reported(m, dm)) <==> exists s, d, c :: Unsynchronized(m, dm, s, d, c)
  {
    FailExactly(m, dm);
    OnlyBits(m, dm);
    if FaultFirst(m, Reported(m, dm)) { FaultyIsUnsynchronized(m, dm); }
    if s, d, c :| Unsynchronized(m, dm, s, d, c) {
      var i := UnsynchronizedAt(m, dm, s, d, c);
      FirstFaulty(m, Reported(m, dm), i);
    }
  }

  ghost predicate AllDecided(m: Module, cs: seq<RawCrossing>) {
    forall i :: 0 <= i < |cs| ==> (Faulty(m, cs[i]) <==> !Proven(m, cs[i]))
  }

  lemma OnlyBits(m: Module, dm: DomainMap)
    requires IsDomainMap(m, dm) && !FifoCandidate(m, dm)
    requires forall k :: k in FirstOfEach(Scanned(m, dm).crossings) ==> !k.resetInvolved
    requires forall s, d :: CrossingPair(m, dm, s, d) ==> WidthOf(m, s) == 1
    ensures AllDecided(m, Reported(m, dm))
  {
    var cs := Reported(m, dm);
    forall i | 0 <= i < |cs| ensures Faulty(m, cs[i]) <==> !Proven(m, cs[i]) {
      ReportOrderMember(FirstOfEach(Scanned(m, dm).crossings), cs[i]);
      ReportedSampled(m, dm, cs[i]);
      BitsDecide(m, dm, cs[i]);
    }
  }

  lemma FaultyIsUnsynchronized(m: Module, dm: DomainMap)
    requires IsDomainMap(m, dm) && FaultFirst(m, Reported(m, dm)) && AllDecided(m, Reported(m, dm))
    requires forall k :: k in FirstOfEach(Scanned(m, dm).crossings) ==> !k.resetInvolved
    ensures exists s, d, c :: Unsynchronized(m, dm, s, d, c)
  {
    var cs := Reported(m, dm);
    var i :| 0 <= i < |cs| && Faulty(m, cs[i]) && forall j :: 0 <= j < i ==> Proven(m, cs[j]);
    ReportedSampled(m, dm, cs[i]);
    ReportOrderMember(FirstOfEach(Scanned(m, dm).crossings), cs[i]);
    assert !Proven(m, cs[i]);
    assert Unsynchronized(m, dm, cs[i].source, cs[i].dest, cs[i].destDomain);
  }

  ghost predicate Unsynchronized(m: Module, dm: DomainMap, s: Signal, d: Signal, c: Signal) {
    CrossingPair(m, dm, s, d) && ClockedBy(m, d, c) && !Synchronized(m, d, c, s)
  }

  lemma UnsynchronizedAt(m: Module, dm: DomainMap, s: Signal, d: Signal, c: Signal) returns (i: nat)
    requires IsDomainMap(m, dm) && Unsynchronized(m, dm, s, d, c)
    ensures i < |Reported(m, dm)| && !Proven(m, Reported(m, dm)[i])
  {
    i := PairReportedAt(m, dm, s, d);
    ReportedSampled(m, dm, Reported(m, dm)[i]);
    DomainMeaning(m, dm, d, c);
  }

  lemma BitsDecide(m: Module, dm: DomainMap, k: RawCrossing)
    requires IsDomainMap(m, dm) && !FifoCandidate(m, dm) && !k.resetInvolved && WidthOf(m, k.source) == 1
    requires ClockedBy(m, k.dest, k.destDomain) && Samples(m, k.dest, k.source)
    ensures Faulty(m, k) <==> !Proven(m, k)
  {
    VerdictMeaning(m, dm, k);
  }

  lemma PairReportedAt(m: Module, dm: DomainMap, s: Signal, d: Signal) returns (i: nat)
    requires CrossingPair(m, dm, s, d)
    ensures i < |Reported(m, dm)| && Reported(m, dm)[i].source == s && Reported(m, dm)[i].dest == d
  {
    AnalyzeExact(m, dm);
    var k :| k in FirstOfEach(Scanned(m, dm).crossings) && k.source == s && k.dest == d;
    ReportOrderMember(FirstOfEach(Scanned(m, dm).crossings), k);
    i :| 0 <= i < |Reported(m, dm)| && Reported(m, dm)[i] == k;
  }

  lemma {:induction false} FirstFaulty(m: Module, cs: seq<RawCrossing>, i: nat)
    requires i < |cs| && !Proven(m, cs[i]) && AllDecided(m, cs)
    ensures FaultFirst(m, cs)
  {
    if j :| 0 <= j < i && !Proven(m, cs[j]) { FirstFaulty(m, cs, j); }
  }

  /** The checker as a whole: the status is PASS exactly when what reaches each register directly is safe and
      nothing is refused, and then the whole fan-in of every register that does not feed itself is safe; FAIL exactly
      when the first reported crossing that is not synchronized is faulty. */
  method RunChecker(m: Module) returns (status: Status)
    ensures exists dm :: IsDomainMap(m, dm) && ClocksListed(m, dm.clocks) &&
              (status == Pass <==> DirectlySynchronized(m) && !Refuses(m, dm)) &&
              (status == Fail <==> !FifoCandidate(m, dm) && FaultFirst(m, Reported(m, dm)))
    ensures status == Pass ==> forall d :: IsRegister(m, d) && !SelfFed(m, d) ==>
              exists c :: ClockedBy(m, d, c) && FaninSafe(m, d, c)
  {
    var v, dm := Check(m);
    status := v.status;
    PassExactly(m, dm);
    FailExactly(m, dm);
    if status == Pass {
      forall d | IsRegister(m, d) && !SelfFed(m, d) ensures exists c :: ClockedBy(m, d, c) && FaninSafe(m, d, c) {
        var c := PassIsSound(m, dm, d);
      }
    }
  }
}
