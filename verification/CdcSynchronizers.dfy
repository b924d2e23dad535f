/** Crossing classification (tools/cdc_checker/synchronizers.py). */
module CdcSynchronizers {
  import opened Options
  import opened Chars
  import opened CdcModel
  import opened CdcGraph
  import opened CdcClocks
  import opened CdcCrossings
  import opened CdcTrace
  import opened CdcAnalyze
  import opened Ordering
  import opened Sequences

  datatype Classification =
    SafeSynchronizer | UnsafeDirect | UnsafeBypass | MultibitUnproven | UnprovenFifo | ResetCrossing | Unknown
  datatype Severity = Error | Inconclusive | Ok
  datatype Status = Pass | Fail | Undecided

  datatype ClassifiedCrossing = ClassifiedCrossing(
    source: Signal, sourceDomain: Option<Signal>, destination: Signal, destinationDomain: Signal,
    path: seq<Signal>, classification: Classification, severity: Severity)

  // ---------------------------------------------------------------- structural vocabulary

  ghost predicate InDomain(m: Module, dm: DomainMap, r: Signal, domain: Signal) {
    IsRegister(m, r) && dm.Of(r) == Some(domain)
  }

  /** Endpoint `n` is sampled by register `r`, through any of its clocked right-hand sides. */
  ghost predicate Samples(m: Module, r: Signal, n: Signal) {
    exists rhs :: SeqDriver(m, r, rhs) && n in Cone(m, rhs)
  }

  /** Register `r` of `domain` samples nothing but `only` and registers of its own domain. */
  ghost predicate SamplesOnly(m: Module, dm: DomainMap, r: Signal, domain: Signal, only: Signal) {
    forall n :: Samples(m, r, n) ==> n == only || InDomain(m, dm, n, domain)
  }

  ghost predicate IsStage(m: Module, dm: DomainMap, first: Signal, domain: Signal, l: Signal) {
    l != first && InDomain(m, dm, l, domain) && Samples(m, l, first) && SamplesOnly(m, dm, l, domain, first)
  }

  ghost predicate HeadsChain(m: Module, dm: DomainMap, src: Signal, first: Signal, domain: Signal) {
    InDomain(m, dm, first, domain) && Samples(m, first, src) && SamplesOnly(m, dm, first, domain, src)
  }

  ghost predicate IsConsumer(m: Module, dm: DomainMap, sig: Signal, domain: Signal, user: Signal) {
    InDomain(m, dm, user, domain) && Samples(m, user, sig)
  }

  // ---------------------------------------------------------------- the searches

  function SameDomainSeq(m: Module, domain: Signal, dm: DomainMap): (regs: set<Signal>)
    ensures forall r :: r in regs <==> InDomain(m, dm, r, domain)
  {
    var regs := set b, d | b in m.alwaysBlocks && b.kind == Clocked && d in b.drivers && dm.Of(d.lhs) == Some(domain) :: d.lhs;
    assert forall r :: r in regs <==> InDomain(m, dm, r, domain) by {
      forall r ensures r in regs <==> InDomain(m, dm, r, domain) {
        if r in regs {
          var b, d :| b in m.alwaysBlocks && b.kind == Clocked && d in b.drivers && dm.Of(d.lhs) == Some(domain) && d.lhs == r;
          assert d == Assign(r, d.rhsIds);
          assert SeqDriver(m, r, d.rhsIds);
        }
        if InDomain(m, dm, r, domain) { var rhs :| SeqDriver(m, r, rhs); }
      }
    }
    regs
  }

  /** Every clocked assignment of the module, in source order. */
  function ClockedAssigns(blocks: seq<AlwaysBlock>): seq<Assign> {
    if blocks == [] then [] else
    ClockedAssigns(blocks[..|blocks| - 1]) +
      var last := blocks[|blocks| - 1]; if last.kind == Clocked then last.drivers else []
  }

  lemma {:induction false} ClockedAssignsMember(blocks: seq<AlwaysBlock>, a: Assign)
    ensures a in ClockedAssigns(blocks) <==> exists b :: b in blocks && b.kind == Clocked && a in b.drivers
  {
    if blocks != [] {
      var init := blocks[..|blocks| - 1];
      ClockedAssignsMember(init, a);
      assert blocks == init + [blocks[|blocks| - 1]];
    }
  }

  lemma ClockedAssignsDrive(m: Module, r: Signal, rhs: seq<Signal>)
    ensures Assign(r, rhs) in ClockedAssigns(m.alwaysBlocks) <==> SeqDriver(m, r, rhs)
  {
    ClockedAssignsMember(m.alwaysBlocks, Assign(r, rhs));
  }

  /** Flattens the nested block/driver loops the searches below share. */
  method ClockedDrivers(m: Module) returns (ds: seq<Assign>)
    ensures ds == ClockedAssigns(m.alwaysBlocks)
    ensures forall r, rhs :: Assign(r, rhs) in ds <==> SeqDriver(m, r, rhs)
  {
    ds := [];
    for i := 0 to |m.alwaysBlocks|
      invariant ds == ClockedAssigns(m.alwaysBlocks[..i])
    {
      assert m.alwaysBlocks[..i + 1][..i] == m.alwaysBlocks[..i];
      if m.alwaysBlocks[i].kind == Clocked { ds := ds + m.alwaysBlocks[i].drivers; }
    }
    assert m.alwaysBlocks[..|m.alwaysBlocks|] == m.alwaysBlocks;
    forall r, rhs ensures Assign(r, rhs) in ds <==> SeqDriver(m, r, rhs) { ClockedAssignsDrive(m, r, rhs); }
  }

  method Consumers(m: Module, sig: Signal, domain: Signal, dm: DomainMap) returns (users: set<Signal>)
    ensures forall u :: u in users <==> IsConsumer(m, dm, sig, domain, u)
  {
    users := {};
    var ds := ClockedDrivers(m);
    for i := 0 to |ds|
      invariant forall u :: u in users <==> ConsumerAmong(m, dm, ds[..i], sig, domain, u)
    {
      assert ds[..i + 1] == ds[..i] + [ds[i]];
      if dm.Of(ds[i].lhs) == Some(domain) {
        var cone := CombCone(m, ds[i].rhsIds);
        if sig in cone { users := users + {ds[i].lhs}; }
      }
    }
    assert ds[..|ds|] == ds;
    forall u ensures u in users <==> IsConsumer(m, dm, sig, domain, u) {
      if ConsumerAmong(m, dm, ds, sig, domain, u) {
        var d :| d in ds && d.lhs == u && dm.Of(u) == Some(domain) && sig in Cone(m, d.rhsIds);
        assert Assign(u, d.rhsIds) in ds;
      }
      if IsConsumer(m, dm, sig, domain, u) {
        var rhs :| SeqDriver(m, u, rhs) && sig in Cone(m, rhs);
        assert Assign(u, rhs) in ds;
      }
    }
  }

  ghost predicate ConsumerAmong(m: Module, dm: DomainMap, ds: seq<Assign>, sig: Signal, domain: Signal, u: Signal) {
    exists d :: d in ds && d.lhs == u && dm.Of(u) == Some(domain) && sig in Cone(m, d.rhsIds)
  }

  method DriversOf(m: Module, lhs: Signal, domain: Signal, dm: DomainMap) returns (found: seq<seq<Signal>>)
    ensures forall rhs :: rhs in found <==> SeqDriver(m, lhs, rhs) && dm.Of(lhs) == Some(domain)
  {
    found := [];
    var ds := ClockedDrivers(m);
    for i := 0 to |ds|
      invariant forall rhs :: rhs in found <==> Assign(lhs, rhs) in ds[..i] && dm.Of(lhs) == Some(domain)
    {
      assert ds[..i + 1] == ds[..i] + [ds[i]];
      if ds[i].lhs == lhs && dm.Of(lhs) == Some(domain) { found := found + [ds[i].rhsIds]; }
    }
    assert ds[..|ds|] == ds;
  }

  /** Union of the cones of several right-hand sides. */
  method UnionCone(m: Module, rhsList: seq<seq<Signal>>) returns (union: set<Signal>)
    ensures forall n :: n in union <==> exists rhs :: rhs in rhsList && n in Cone(m, rhs)
  {
    union := {};
    for i := 0 to |rhsList|
      invariant forall n :: n in union <==> exists rhs :: rhs in rhsList[..i] && n in Cone(m, rhs)
    {
      var cone := CombCone(m, rhsList[i]);
      assert rhsList[..i + 1] == rhsList[..i] + [rhsList[i]];
      union := union + cone;
    }
    assert rhsList[..|rhsList|] == rhsList;
  }

  method SampledBy(m: Module, r: Signal, domain: Signal, dm: DomainMap) returns (union: set<Signal>)
    requires dm.Of(r) == Some(domain)
    ensures forall n :: n in union <==> Samples(m, r, n)
  {
    var rhsList := DriversOf(m, r, domain, dm);
    union := UnionCone(m, rhsList);
  }

  /** The two-flop chain search finds a chain exactly when `first` heads one and some register
      qualifies as its second stage, and it returns all of those registers. */
  method FindChain(m: Module, dm: DomainMap, src: Signal, first: Signal, domain: Signal)
    returns (chain: Option<set<Signal>>)
    ensures chain.Some? <==> HeadsChain(m, dm, src, first, domain) && exists l :: IsStage(m, dm, first, domain, l)
    ensures chain.Some? ==> forall l :: l in chain.value <==> IsStage(m, dm, first, domain, l)
  {
    var rhsList := DriversOf(m, first, domain, dm);
    if rhsList == [] {
      assert InDomain(m, dm, first, domain) ==> exists rhs :: rhs in rhsList;
      return None;
    }
    assert InDomain(m, dm, first, domain) by { assert rhsList[0] in rhsList; }
    var union := SampledBy(m, first, domain, dm);
    if src !in union { return None; }
    var same := SameDomainSeq(m, domain, dm);
    if !(union <= same + {src}) {
      var n :| n in union && n !in same + {src};
      assert Samples(m, first, n);
      return None;
    }
    var stages := FindStages(m, dm, first, domain, same);
    if stages == {} { return None; }
    return Some(stages);
  }

  /** What is sampled decides whether `l` is a stage. */
  lemma StageByUnion(m: Module, dm: DomainMap, first: Signal, domain: Signal, same: set<Signal>, l: Signal, union: set<Signal>)
    requires forall r :: r in same <==> InDomain(m, dm, r, domain)
    requires l in same && l != first && forall n :: n in union <==> Samples(m, l, n)
    ensures IsStage(m, dm, first, domain, l) <==> first in union && union <= same + {first}
  {
    if IsStage(m, dm, first, domain, l) {
      forall n | n in union ensures n in same + {first} { assert Samples(m, l, n); }
    }
    if first in union && union <= same + {first} {
      forall n | Samples(m, l, n) ensures n == first || InDomain(m, dm, n, domain) { assert n in union; }
    }
  }

  method FindStages(m: Module, dm: DomainMap, first: Signal, domain: Signal, same: set<Signal>)
    returns (stages: set<Signal>)
    requires forall r :: r in same <==> InDomain(m, dm, r, domain)
    ensures forall l :: l in stages <==> IsStage(m, dm, first, domain, l)
  {
    stages := {};
    var todo := same - {first};
    while todo != {}
      invariant todo <= same - {first}
      invariant forall l :: l in stages <==> l in same - {first} - todo && IsStage(m, dm, first, domain, l)
      decreases |todo|
    {
      var lhs :| lhs in todo;
      assert InDomain(m, dm, lhs, domain);
      var union := SampledBy(m, lhs, domain, dm);
      StageByUnion(m, dm, first, domain, same, lhs, union);
      if first in union && union <= same + {first} { stages := stages + {lhs}; }
      todo := todo - {lhs};
    }
  }

  /** A stage feeds an assign, a driver of something else, or an output port. */
  predicate StagesUsed(m: Module, stages: set<Signal>) {
    || (exists a, x :: a in m.assigns && x in a.rhsIds && x in stages)
    || (exists b, d, x :: b in m.alwaysBlocks && d in b.drivers && d.lhs !in stages && x in d.rhsIds && x in stages)
    || (exists p :: p in m.ports && m.ports[p].direction == "output" && m.ports[p].name in stages)
  }

  /** In terms of the driver map: a stage is read by a wire of the assignments or of a register that is no stage, or goes
      out. */
  lemma UsedExactly(m: Module, stages: set<Signal>)
    ensures StagesUsed(m, stages) <==>
            exists x :: x in stages && (ReadOutside(m, stages, x) || GoesOut(m, x))
  {
    forall x | x in stages ensures ReadOutside(m, stages, x) ==> StagesUsed(m, stages) {
      if ReadOutside(m, stages, x) { OutsideUses(m, stages, x); }
    }
    if StagesUsed(m, stages) { UsedOutside(m, stages); }
  }

  ghost predicate ReadOutside(m: Module, stages: set<Signal>, x: Signal) {
    exists w :: w in Wires(m) && x in w.edge.rhs && (w in AssignWires(m.assigns, Combinational) || w.lhs !in stages)
  }

  ghost predicate GoesOut(m: Module, x: Signal) {
    exists p :: p in m.ports && m.ports[p].direction == "output" && m.ports[p].name == x
  }

  lemma OutsideUses(m: Module, stages: set<Signal>, x: Signal)
    requires x in stages && ReadOutside(m, stages, x)
    ensures StagesUsed(m, stages)
  {
    var w :| w in Wires(m) && x in w.edge.rhs && (w in AssignWires(m.assigns, Combinational) || w.lhs !in stages);
    AssignWiresMember(m.assigns, Combinational, w);
    BlockWiresMember(m.alwaysBlocks, w);
    if w in AssignWires(m.assigns, Combinational) {
      assert Assign(w.lhs, w.edge.rhs) in m.assigns;
    } else {
      var b :| b in m.alwaysBlocks && b.kind == w.edge.kind && Assign(w.lhs, w.edge.rhs) in b.drivers;
      assert Assign(w.lhs, w.edge.rhs).lhs !in stages;
    }
  }

  lemma UsedOutside(m: Module, stages: set<Signal>)
    requires StagesUsed(m, stages)
    ensures exists x :: x in stages && (ReadOutside(m, stages, x) || GoesOut(m, x))
  {
    if a, x :| a in m.assigns && x in a.rhsIds && x in stages {
      var w := Wire(a.lhs, Edge(Combinational, a.rhsIds));
      assert a == Assign(a.lhs, a.rhsIds);
      AssignWiresMember(m.assigns, Combinational, w);
      assert ReadOutside(m, stages, x);
    } else if b, d, x :| b in m.alwaysBlocks && d in b.drivers && d.lhs !in stages && x in d.rhsIds && x in stages {
      var w := Wire(d.lhs, Edge(b.kind, d.rhsIds));
      assert d == Assign(d.lhs, d.rhsIds);
      BlockWiresMember(m.alwaysBlocks, w);
      assert ReadOutside(m, stages, x);
    } else {
      var p :| p in m.ports && m.ports[p].direction == "output" && m.ports[p].name in stages;
      assert GoesOut(m, m.ports[p].name);
    }
  }

  predicate FifoCandidate(m: Module, dm: DomainMap) {
    |dm.clocks| >= 2 &&
    var named := (part: string) => exists n :: n in m.widths && Contains(Lower(n), part);
    || named("fifo")
    || (exists i :: i in m.instances && Contains(Lower(i.modName + " " + i.name), "fifo"))
    || (named("ptr") && (named("gray") || named("wptr")))
  }

  /** What makes a design look like a dual-clock FIFO: two clocks, and the word in a name, or pointers. */
  lemma FifoDecided(m: Module, dm: DomainMap, name: Signal, other: Signal)
    ensures |dm.clocks| < 2 ==> !FifoCandidate(m, dm)
    ensures |dm.clocks| >= 2 && name in m.widths && Contains(Lower(name), "fifo") ==> FifoCandidate(m, dm)
    ensures (|dm.clocks| >= 2 && name in m.widths && Contains(Lower(name), "ptr") && other in m.widths &&
             (Contains(Lower(other), "gray") || Contains(Lower(other), "wptr"))) ==> FifoCandidate(m, dm)
    ensures |dm.clocks| >= 2 && (exists i :: i in m.instances && Contains(Lower(i.modName + " " + i.name), "fifo")) ==>
            FifoCandidate(m, dm)
    ensures FifoCandidate(m, dm) && m.instances == [] ==>
            exists n :: n in m.widths && (Contains(Lower(n), "fifo") || Contains(Lower(n), "ptr"))
  {
  }

  function WidthOf(m: Module, sig: Signal): int {
    if sig in m.widths then m.widths[sig] else 1
  }

  // ---------------------------------------------------------------- one crossing

  ghost predicate ChainFound(m: Module, dm: DomainMap, c: RawCrossing) {
    HeadsChain(m, dm, c.source, c.dest, c.destDomain) && exists l :: IsStage(m, dm, c.dest, c.destDomain, l)
  }

  ghost function Stages(m: Module, dm: DomainMap, first: Signal, domain: Signal): set<Signal> {
    set l | l in SameDomainSeq(m, domain, dm) && IsStage(m, dm, first, domain, l)
  }

  /** Nothing else of the destination domain listens to the source or to the first stage. */
  ghost predicate NoBypass(m: Module, dm: DomainMap, c: RawCrossing) {
    && (forall u :: IsConsumer(m, dm, c.source, c.destDomain, u) ==> u == c.dest)
    && (forall u :: IsConsumer(m, dm, c.dest, c.destDomain, u) ==> IsStage(m, dm, c.dest, c.destDomain, u))
    && StagesUsed(m, Stages(m, dm, c.dest, c.destDomain))
  }

  ghost function Verdicted(m: Module, dm: DomainMap, c: RawCrossing): (Classification, Severity) {
    if c.resetInvolved then (ResetCrossing, Inconclusive)
    else if FifoCandidate(m, dm) then (UnprovenFifo, Inconclusive)
    else if ChainFound(m, dm, c) then
      if !NoBypass(m, dm, c) then (UnsafeBypass, Error)
      else if WidthOf(m, c.source) == 1 then (SafeSynchronizer, Ok)
      else (MultibitUnproven, Inconclusive)
    else if WidthOf(m, c.source) != 1 then (MultibitUnproven, Inconclusive)
    else (UnsafeDirect, Error)
  }

  ghost predicate Describes(m: Module, dm: DomainMap, c: RawCrossing, k: ClassifiedCrossing) {
    && k.source == c.source && k.sourceDomain == c.sourceDomain && k.destination == c.dest
    && k.destinationDomain == c.destDomain && k.path == c.path
    && (k.classification, k.severity) == Verdicted(m, dm, c)
  }

  lemma BypassTest(m: Module, dm: DomainMap, c: RawCrossing, stages: set<Signal>,
                   usersSrc: set<Signal>, usersS1: set<Signal>)
    requires forall l :: l in stages <==> IsStage(m, dm, c.dest, c.destDomain, l)
    requires forall u :: u in usersSrc <==> IsConsumer(m, dm, c.source, c.destDomain, u)
    requires forall u :: u in usersS1 <==> IsConsumer(m, dm, c.dest, c.destDomain, u)
    ensures NoBypass(m, dm, c) <==> usersSrc <= {c.dest} && usersS1 <= stages && StagesUsed(m, stages)
  {
    assert stages == Stages(m, dm, c.dest, c.destDomain);
  }

  method ClassifyOne(m: Module, dm: DomainMap, c: RawCrossing, fifoCandidate: bool) returns (k: ClassifiedCrossing)
    requires fifoCandidate == FifoCandidate(m, dm)
    ensures Describes(m, dm, c, k)
  {
    var make := (cl: Classification, sev: Severity) =>
      ClassifiedCrossing(c.source, c.sourceDomain, c.dest, c.destDomain, c.path, cl, sev);
    if c.resetInvolved { return make(ResetCrossing, Inconclusive); }
    if fifoCandidate { return make(UnprovenFifo, Inconclusive); }
    var width := WidthOf(m, c.source);
    var chain := FindChain(m, dm, c.source, c.dest, c.destDomain);
    if chain.Some? {
      var stages := chain.value;
      var usersSrc := Consumers(m, c.source, c.destDomain, dm);
      var usersS1 := Consumers(m, c.dest, c.destDomain, dm);
      BypassTest(m, dm, c, stages, usersSrc, usersS1);
      if usersSrc <= {c.dest} && usersS1 <= stages && StagesUsed(m, stages) {
        return if width == 1 then make(SafeSynchronizer, Ok) else make(MultibitUnproven, Inconclusive);
      }
      return make(UnsafeBypass, Error);
    }
    return if width != 1 then make(MultibitUnproven, Inconclusive) else make(UnsafeDirect, Error);
  }

  // ---------------------------------------------------------------- the whole verdict

  function Raise(status: Status, sev: Severity): Status {
    if sev == Error && status == Pass then Fail
    else if sev == Inconclusive && status != Fail then Undecided
    else status
  }

  function Raised(status: Status, sevs: seq<Severity>): Status {
    if sevs == [] then status else Raise(Raised(status, sevs[..|sevs| - 1]), sevs[|sevs| - 1])
  }

  /** Index of the first finding that is not ok, or the number of findings. */
  function FirstBad(sevs: seq<Severity>): (i: nat)
    ensures i <= |sevs| && (forall j :: 0 <= j < i ==> sevs[j] == Ok)
    ensures i < |sevs| ==> sevs[i] != Ok
  {
    if sevs == [] || sevs[0] != Ok then 0 else 1 + FirstBad(sevs[1..])
  }

  /** The status is decided by the first finding that is not ok: a later error does not turn an
      undecided verdict into a failure. */
  lemma {:induction false} StatusIsFirstFinding(sevs: seq<Severity>)
    ensures Raised(Pass, sevs) ==
            if FirstBad(sevs) == |sevs| then Pass else if sevs[FirstBad(sevs)] == Error then Fail else Undecided
    ensures Raised(Pass, sevs) == Pass <==> forall j :: 0 <= j < |sevs| ==> sevs[j] == Ok
  {
    if sevs == [] { return; }
    var n := |sevs| - 1;
    var init := sevs[..n];
    StatusIsFirstFinding(init);
    var i, k := FirstBad(init), FirstBad(sevs);
    assert k < n ==> init[k] != Ok;
    assert i < n ==> sevs[i] != Ok;
    assert i == n || k == i;
  }

  function Severities(ks: seq<ClassifiedCrossing>): seq<Severity> {
    seq(|ks|, i requires 0 <= i < |ks| => ks[i].severity)
  }

  lemma RaisedSnoc(ks: seq<ClassifiedCrossing>, k: ClassifiedCrossing)
    ensures Raised(Pass, Severities(ks + [k])) == Raise(Raised(Pass, Severities(ks)), k.severity)
  {
    assert Severities(ks + [k])[..|ks|] == Severities(ks);
  }

  class Verdict {
    var status: Status
    var crossings: seq<ClassifiedCrossing>
    var notes: seq<string>

    constructor ()
      ensures Consistent() && crossings == [] && notes == []
    {
      status, crossings, notes := Pass, [], [];
    }

    /** The status is the one raised over all severities so far. */
    predicate Consistent()
      reads this
    {
      status == Raised(Pass, Severities(crossings))
    }

    /** Append a classified crossing and let its severity raise the status. */
    method Add(k: ClassifiedCrossing)
      requires Consistent()
      modifies this`status, this`crossings
      ensures Consistent() && crossings == old(crossings) + [k]
    {
      RaisedSnoc(crossings, k);
      crossings := crossings + [k];
      if k.severity == Error && status == Pass {
        status := Fail;
      } else if k.severity == Inconclusive && status != Fail {
        status := Undecided;
      }
    }
  }

  /** The crossings of one destination, in order of discovery. */
  function OfDest(cs: seq<RawCrossing>, dest: Signal): seq<RawCrossing> {
    if cs == [] then [] else
    (if cs[0].dest == dest then [cs[0]] else []) + OfDest(cs[1..], dest)
  }

  function Dests(cs: seq<RawCrossing>): seq<Signal> {
    seq(|cs|, i requires 0 <= i < |cs| => cs[i].dest)
  }

  /** Grouped by destination, the groups in name order. */
  function Grouped(cs: seq<RawCrossing>, dests: seq<Signal>): seq<RawCrossing> {
    if dests == [] then [] else
    Grouped(cs, dests[..|dests| - 1]) + OfDest(cs, dests[|dests| - 1])
  }

  function ReportOrder(cs: seq<RawCrossing>): seq<RawCrossing> {
    Grouped(cs, SortUnique(LexLe, Dests(cs)))
  }

  lemma {:induction false} OfDestMember(cs: seq<RawCrossing>, dest: Signal, c: RawCrossing)
    ensures c in OfDest(cs, dest) <==> c in cs && c.dest == dest
  {
    if cs != [] { OfDestMember(cs[1..], dest, c); assert cs == [cs[0]] + cs[1..]; }
  }

  lemma {:induction false} GroupedMember(cs: seq<RawCrossing>, dests: seq<Signal>, c: RawCrossing)
    ensures c in Grouped(cs, dests) <==> c in cs && c.dest in dests
  {
    if dests != [] {
      var n := |dests| - 1;
      GroupedMember(cs, dests[..n], c);
      OfDestMember(cs, dests[n], c);
      assert dests == dests[..n] + [dests[n]];
    }
  }

  /** Grouping and sorting lose no crossing and invent none. */
  lemma ReportOrderMember(cs: seq<RawCrossing>, c: RawCrossing)
    ensures c in ReportOrder(cs) <==> c in cs
  {
    GroupedMember(cs, SortUnique(LexLe, Dests(cs)), c);
    if c in cs { var i :| 0 <= i < |cs| && cs[i] == c; assert Dests(cs)[i] == c.dest; }
  }

  function NoteOf(hit: (Signal, Signal)): string {
    hit.0 + ": unknown-domain driver or instance boundary at " + hit.1
  }

  function UnknownOf(dm: DomainMap, hit: (Signal, Signal)): ClassifiedCrossing {
    ClassifiedCrossing(hit.1, None, hit.0,
      if dm.Of(hit.0).Some? && dm.Of(hit.0).value != "" then dm.Of(hit.0).value else "unknown",
      [hit.0, hit.1], Unknown, Inconclusive)
  }

  ghost predicate AllDescribed(m: Module, dm: DomainMap, cs: seq<RawCrossing>, ks: seq<ClassifiedCrossing>) {
    |ks| == |cs| && forall i :: 0 <= i < |cs| ==> Describes(m, dm, cs[i], ks[i])
  }

  /** Classified crossings first, in order, then one undecided entry per unknown hit. */
  ghost predicate ReportShape(m: Module, dm: DomainMap, cs: seq<RawCrossing>, hits: seq<(Signal, Signal)>,
                              ks: seq<ClassifiedCrossing>)
  {
    && |ks| == |cs| + |hits|
    && AllDescribed(m, dm, cs, ks[..|cs|])
    && forall i :: 0 <= i < |hits| ==> ks[|cs| + i] == UnknownOf(dm, hits[i])
  }

  function Notes(hits: seq<(Signal, Signal)>): seq<string> {
    seq(|hits|, i requires 0 <= i < |hits| => NoteOf(hits[i]))
  }

  /** What `classify` returns: the crossings in report order with their exact classification, then
      one undecided entry and one note per unknown hit, and a status raised over all of them. */
  method Classify(m: Module, dm: DomainMap, analysis: Analysis) returns (v: Verdict)
    ensures fresh(v)
    ensures ReportShape(m, dm, ReportOrder(analysis.crossings), SortUnique(PairLe, analysis.unknownHits), v.crossings)
    ensures v.notes == Notes(SortUnique(PairLe, analysis.unknownHits))
    ensures v.Consistent()
  {
    v := new Verdict();
    var fifoCandidate := FifoCandidate(m, dm);
    var dests := SortUnique(LexLe, Dests(analysis.crossings));
    for i := 0 to |dests|
      invariant fresh(v) && v.notes == []
      invariant AllDescribed(m, dm, Grouped(analysis.crossings, dests[..i]), v.crossings)
      invariant v.Consistent()
    {
      assert dests[..i + 1][..i] == dests[..i];
      ClassifyGroup(m, dm, OfDest(analysis.crossings, dests[i]), fifoCandidate, v,
                    Grouped(analysis.crossings, dests[..i]));
    }
    assert dests[..|dests|] == dests;
    NoteUnknowns(dm, SortUnique(PairLe, analysis.unknownHits), v);
  }

  function Unknowns(dm: DomainMap, hits: seq<(Signal, Signal)>): seq<ClassifiedCrossing> {
    seq(|hits|, i requires 0 <= i < |hits| => UnknownOf(dm, hits[i]))
  }

  lemma HitsSnoc(dm: DomainMap, hits: seq<(Signal, Signal)>, i: nat)
    requires i < |hits|
    ensures Unknowns(dm, hits[..i + 1]) == Unknowns(dm, hits[..i]) + [UnknownOf(dm, hits[i])]
    ensures Notes(hits[..i + 1]) == Notes(hits[..i]) + [NoteOf(hits[i])]
  {
  }

  /** One undecided entry and one note per unknown hit. */
  method NoteUnknowns(dm: DomainMap, hits: seq<(Signal, Signal)>, v: Verdict)
    requires v.notes == [] && v.Consistent()
    modifies v
    ensures v.crossings == old(v.crossings) + Unknowns(dm, hits)
    ensures v.notes == Notes(hits)
    ensures v.Consistent()
  {
    ghost var before := v.crossings;
    assert before + Unknowns(dm, hits[..0]) == before;
    for i := 0 to |hits|
      invariant v.crossings == before + Unknowns(dm, hits[..i])
      invariant v.notes == Notes(hits[..i])
      invariant v.Consistent()
    {
      HitsSnoc(dm, hits, i);
      Assoc(before, Unknowns(dm, hits[..i]), [UnknownOf(dm, hits[i])]);
      v.notes := v.notes + [NoteOf(hits[i])];
      v.Add(UnknownOf(dm, hits[i]));
    }
    assert hits[..|hits|] == hits;
  }

  lemma DescribedSnoc(m: Module, dm: DomainMap, cs: seq<RawCrossing>, ks: seq<ClassifiedCrossing>,
                      c: RawCrossing, k: ClassifiedCrossing)
    requires AllDescribed(m, dm, cs, ks) && Describes(m, dm, c, k)
    ensures AllDescribed(m, dm, cs + [c], ks + [k])
  {
  }

  method ClassifyGroup(m: Module, dm: DomainMap, group: seq<RawCrossing>, fifoCandidate: bool, v: Verdict,
                       ghost before: seq<RawCrossing>)
    requires fifoCandidate == FifoCandidate(m, dm)
    requires AllDescribed(m, dm, before, v.crossings)
    requires v.Consistent()
    modifies v
    ensures AllDescribed(m, dm, before + group, v.crossings)
    ensures v.Consistent() && v.notes == old(v.notes)
  {
    assert before + group[..0] == before;
    for i := 0 to |group|
      invariant AllDescribed(m, dm, before + group[..i], v.crossings)
      invariant v.Consistent() && v.notes == old(v.notes)
    {
      var k := ClassifyOne(m, dm, group[i], fifoCandidate);
      DescribedSnoc(m, dm, before + group[..i], v.crossings, group[i], k);
      assert before + group[..i] + [group[i]] == before + group[..i + 1];
      v.Add(k);
    }
    assert group[..|group|] == group;
  }

  /** Everything a PASS requires, and all it requires. */
  ghost predicate Passes(m: Module, dm: DomainMap) {
    && (forall c :: c in FirstOfEach(Scanned(m, dm).crossings) ==> Verdicted(m, dm, c).1 == Ok)
    && Scanned(m, dm).hits == []
  }

  /** Whether the first crossing in report order that is not ok is an error. Unknown hits come after all crossings. */
  ghost predicate FailsFirst(m: Module, dm: DomainMap, cs: seq<RawCrossing>) {
    exists i :: 0 <= i < |cs| && Verdicted(m, dm, cs[i]).1 == Error && forall j :: 0 <= j < i ==> Verdicted(m, dm, cs[j]).1 == Ok
  }

  /** The crossings of a module in the order of the report. */
  ghost function Reported(m: Module, dm: DomainMap): seq<RawCrossing> { ReportOrder(FirstOfEach(Scanned(m, dm).crossings)) }

  /** The checker end to end (`run_checker` in tools/cdc_checker/report.py, from the parsed module). */
  method Check(m: Module) returns (v: Verdict, ghost dm: DomainMap)
    ensures fresh(v)
    ensures IsDomainMap(m, dm) && ClocksListed(m, dm.clocks)
    ensures v.status == Pass <==> Passes(m, dm)
    ensures v.status == Fail <==> FailsFirst(m, dm, Reported(m, dm))
    ensures |Reported(m, dm)| <= |v.crossings| && AllDescribed(m, dm, Reported(m, dm), v.crossings[..|Reported(m, dm)|])
  {
    var domainMap := AssignDomains(m);
    dm := domainMap;
    var analysis := Analyze(m, domainMap);
    v := Classify(m, domainMap, analysis);
    StatusIsFirstFinding(Severities(v.crossings));
    PassesWhenAllOk(m, dm, analysis.crossings, Scanned(m, dm).hits, v.crossings);
    FailsWhenFirst(m, dm, Reported(m, dm), SortUnique(PairLe, SortUnique(PairLe, Scanned(m, dm).hits)), v.crossings);
  }

  lemma FailsWhenFirst(m: Module, dm: DomainMap, cs: seq<RawCrossing>, hits: seq<(Signal, Signal)>, ks: seq<ClassifiedCrossing>)
    requires ReportShape(m, dm, cs, hits, ks)
    ensures var sevs := Severities(ks); var i := FirstBad(sevs);
      i < |sevs| && sevs[i] == Error <==> FailsFirst(m, dm, cs)
  {
    CrossingSeverities(m, dm, cs, hits, ks);
    HitSeverities(m, dm, cs, hits, ks);
    FirstIsCrossing(m, dm, cs, Severities(ks));
  }

  ghost predicate SameSeverities(m: Module, dm: DomainMap, cs: seq<RawCrossing>, sevs: seq<Severity>) {
    |cs| <= |sevs| && forall i :: 0 <= i < |cs| ==> sevs[i] == Verdicted(m, dm, cs[i]).1
  }

  lemma CrossingSeverities(m: Module, dm: DomainMap, cs: seq<RawCrossing>, hits: seq<(Signal, Signal)>,
                           ks: seq<ClassifiedCrossing>)
    requires ReportShape(m, dm, cs, hits, ks)
    ensures SameSeverities(m, dm, cs, Severities(ks))
  {
    forall i | 0 <= i < |cs| ensures Severities(ks)[i] == Verdicted(m, dm, cs[i]).1 {
      assert Describes(m, dm, cs[i], ks[..|cs|][i]);
    }
  }

  lemma HitSeverities(m: Module, dm: DomainMap, cs: seq<RawCrossing>, hits: seq<(Signal, Signal)>, ks: seq<ClassifiedCrossing>)
    requires ReportShape(m, dm, cs, hits, ks)
    ensures forall i :: |cs| <= i < |ks| ==> Severities(ks)[i] == Inconclusive
  {
    forall i | |cs| <= i < |ks| ensures Severities(ks)[i] == Inconclusive { HitSeverity(dm, cs, hits, ks, i, i - |cs|); }
  }

  lemma HitSeverity(dm: DomainMap, cs: seq<RawCrossing>, hits: seq<(Signal, Signal)>, ks: seq<ClassifiedCrossing>, i: nat,
                    h: nat)
    requires i == |cs| + h < |ks| && h < |hits| && ks[|cs| + h] == UnknownOf(dm, hits[h])
    ensures Severities(ks)[i] == Inconclusive
  {
  }

  lemma FirstIsCrossing(m: Module, dm: DomainMap, cs: seq<RawCrossing>, sevs: seq<Severity>)
    requires SameSeverities(m, dm, cs, sevs) && forall i :: |cs| <= i < |sevs| ==> sevs[i] == Inconclusive
    ensures var i := FirstBad(sevs); i < |sevs| && sevs[i] == Error <==> FailsFirst(m, dm, cs)
  {
    var k := FirstBad(sevs);
    if k < |sevs| && sevs[k] == Error {
      assert k < |cs|;
      assert Verdicted(m, dm, cs[k]).1 == Error;
    }
    if FailsFirst(m, dm, cs) {
      var i :| 0 <= i < |cs| && Verdicted(m, dm, cs[i]).1 == Error && forall j :: 0 <= j < i ==> Verdicted(m, dm, cs[j]).1 == Ok;
      assert sevs[i] == Error && forall j :: 0 <= j < i ==> sevs[j] == Ok;
      assert k == i;
    }
  }

  // ---------------------------------------------------------------- the order of the report

  /** Sorted by destination, and within one destination in order of discovery. */
  lemma ReportOrderExactly(cs: seq<RawCrossing>)
    ensures var r := ReportOrder(cs);
      && (forall i, j :: 0 <= i < j < |r| ==> LexLe(r[i].dest, r[j].dest))
      && forall dest :: OfDest(r, dest) == OfDest(cs, dest)
  {
    var dests := SortUnique(LexLe, Dests(cs));
    StringOrder();
    SortUniqueSorted(LexLe, Dests(cs));
    GroupedSorted(cs, dests);
    assert Distinct(dests);
    forall dest ensures OfDest(ReportOrder(cs), dest) == OfDest(cs, dest) {
      if dest in dests {
        var k :| 0 <= k < |dests| && dests[k] == dest;
        GroupedAt(cs, dests, k);
      } else {
        GroupedNone(cs, dests, dest);
        NotAmong(cs, dest);
      }
    }
  }

  ghost predicate ByDest(cs: seq<RawCrossing>) {
    forall i, j :: 0 <= i < j < |cs| ==> LexLe(cs[i].dest, cs[j].dest)
  }

  lemma {:induction false} GroupedSorted(cs: seq<RawCrossing>, dests: seq<Signal>)
    requires StrictlySorted(LexLe, dests)
    ensures ByDest(Grouped(cs, dests))
  {
    if dests != [] {
      var n := |dests| - 1;
      GroupedSorted(cs, dests[..n]);
      GroupAppended(cs, dests[..n], dests[n]);
    }
  }

  lemma GroupAppended(cs: seq<RawCrossing>, init: seq<Signal>, last: Signal)
    requires ByDest(Grouped(cs, init)) && forall d :: d in init ==> LexLe(d, last)
    ensures ByDest(Grouped(cs, init) + OfDest(cs, last))
  {
    var a, b := Grouped(cs, init), OfDest(cs, last);
    LexTotal(last, last);
    forall i | 0 <= i < |a| ensures LexLe(a[i].dest, last) { assert a[i] in a; GroupedMember(cs, init, a[i]); }
    forall i | 0 <= i < |b| ensures b[i].dest == last { assert b[i] in b; OfDestMember(cs, last, b[i]); }
  }

  lemma {:induction false} OfDestJoins(a: seq<RawCrossing>, b: seq<RawCrossing>, dest: Signal)
    ensures OfDest(a + b, dest) == OfDest(a, dest) + OfDest(b, dest)
  {
    if a == [] {
      assert a + b == b;
    } else {
      assert (a + b)[1..] == a[1..] + b;
      OfDestJoins(a[1..], b, dest);
      Assoc(if a[0].dest == dest then [a[0]] else [], OfDest(a[1..], dest), OfDest(b, dest));
    }
  }

  lemma {:induction false} OfDestTwice(cs: seq<RawCrossing>, e: Signal, dest: Signal)
    ensures OfDest(OfDest(cs, e), dest) == if dest == e then OfDest(cs, e) else []
  {
    if cs != [] {
      OfDestTwice(cs[1..], e, dest);
      var head := if cs[0].dest == e then [cs[0]] else [];
      OfDestJoins(head, OfDest(cs[1..], e), dest);
      assert OfDest(head, dest) == if dest == e then head else [];
    }
  }

  ghost predicate Distinct(dests: seq<Signal>) { forall i, j :: 0 <= i < j < |dests| ==> dests[i] != dests[j] }

  lemma {:induction false} GroupedNone(cs: seq<RawCrossing>, dests: seq<Signal>, dest: Signal)
    requires forall i :: 0 <= i < |dests| ==> dests[i] != dest
    ensures OfDest(Grouped(cs, dests), dest) == []
  {
    if dests != [] {
      var n := |dests| - 1;
      GroupedNone(cs, dests[..n], dest);
      OneMoreGroup(cs, dests[..n], dests[n], dest);
    }
  }

  lemma {:induction false} GroupedAt(cs: seq<RawCrossing>, dests: seq<Signal>, k: nat)
    requires Distinct(dests) && k < |dests|
    ensures OfDest(Grouped(cs, dests), dests[k]) == OfDest(cs, dests[k])
  {
    var n := |dests| - 1;
    if k < n {
      GroupedAt(cs, dests[..n], k);
    } else {
      GroupedNone(cs, dests[..n], dests[k]);
    }
    OneMoreGroup(cs, dests[..n], dests[n], dests[k]);
  }

  lemma OneMoreGroup(cs: seq<RawCrossing>, init: seq<Signal>, last: Signal, dest: Signal)
    ensures OfDest(Grouped(cs, init) + OfDest(cs, last), dest) ==
            OfDest(Grouped(cs, init), dest) + if dest == last then OfDest(cs, last) else []
  {
    OfDestJoins(Grouped(cs, init), OfDest(cs, last), dest);
    OfDestTwice(cs, last, dest);
  }

  lemma {:induction false} NotAmong(cs: seq<RawCrossing>, dest: Signal)
    requires dest !in Dests(cs)
    ensures OfDest(cs, dest) == []
  {
    if cs != [] {
      assert Dests(cs)[0] == cs[0].dest;
      assert Dests(cs[1..]) == Dests(cs)[1..];
      NotAmong(cs[1..], dest);
    }
  }

  lemma PassesWhenAllOk(m: Module, dm: DomainMap, unique: seq<RawCrossing>, found: seq<(Signal, Signal)>,
                        ks: seq<ClassifiedCrossing>)
    requires unique == FirstOfEach(Scanned(m, dm).crossings) && found == Scanned(m, dm).hits
    requires ReportShape(m, dm, ReportOrder(unique), SortUnique(PairLe, SortUnique(PairLe, found)), ks)
    ensures (forall i :: 0 <= i < |ks| ==> Severities(ks)[i] == Ok) <==> Passes(m, dm)
  {
    var cs, hits := ReportOrder(unique), SortUnique(PairLe, SortUnique(PairLe, found));
    if found != [] {
      assert found[0] in SortUnique(PairLe, found);
      assert found[0] in hits;
      assert Severities(ks)[|cs|] == UnknownOf(dm, hits[0]).severity == Inconclusive;
    }
    forall i | 0 <= i < |cs| ensures Severities(ks)[i] == Verdicted(m, dm, cs[i]).1 {
      assert Describes(m, dm, cs[i], ks[..|cs|][i]);
    }
    forall c ensures c in cs <==> c in unique { ReportOrderMember(unique, c); }
    if forall i :: 0 <= i < |ks| ==> Severities(ks)[i] == Ok {
      forall c | c in unique ensures Verdicted(m, dm, c).1 == Ok {
        assert c in cs;
        var i :| 0 <= i < |cs| && cs[i] == c;
        assert Severities(ks)[i] == Ok;
      }
    }
    if Passes(m, dm) {
      assert hits == [];
      forall i | 0 <= i < |ks| ensures Severities(ks)[i] == Ok { assert cs[i] in unique; }
    }
  }
}
