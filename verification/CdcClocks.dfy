/** Clock-domain assignment (tools/cdc_checker/clocks.py). */
module CdcClocks {
  import opened Options
  import opened CdcModel
  import opened Ordering

  datatype DomainMap = DomainMap(domains: map<Signal, Option<Signal>>, clocks: seq<Signal>, singleDomain: Option<Signal>)
  {
    /** `domains.get(sig)`: an unassigned signal and an unknown domain look the same. */
    function Of(sig: Signal): Option<Signal> {
      if sig in domains then domains[sig] else None
    }
  }

  function ClockSet(b: AlwaysBlock): set<Signal> {
    set c | c in b.clocks :: c.sig
  }

  ghost function Targets(drivers: seq<Assign>): set<Signal> {
    set d | d in drivers :: d.lhs
  }

  ghost predicate Drives(b: AlwaysBlock, sig: Signal) {
    sig in Targets(b.drivers)
  }

  /** Every clocked block that drives `sig` is clocked by `c` and by nothing else. */
  ghost predicate SoleClock(m: Module, sig: Signal, c: Signal) {
    forall b :: b in m.alwaysBlocks && b.kind == Clocked && Drives(b, sig) ==> ClockSet(b) == {c}
  }

  /** What `assign_domains` promises: exactly the registers get an entry, a known domain is the
      one clock of every block driving the register, and anything else is unknown. */
  ghost predicate IsDomainMap(m: Module, dm: DomainMap) {
    && (forall sig :: sig in dm.domains <==> IsRegister(m, sig))
    && (forall sig, c :: sig in dm.domains ==> (dm.domains[sig] == Some(c) <==> SoleClock(m, sig, c)))
  }

  ghost predicate ClocksListed(m: Module, clocks: seq<Signal>) {
    && (forall i, j :: 0 <= i < j < |clocks| ==> clocks[i] != clocks[j])
    && (forall c :: c in clocks <==> exists b :: b in m.alwaysBlocks && b.kind == Clocked && c in ClockSet(b))
  }

  function BlockClocks(b: AlwaysBlock): (sigs: seq<Signal>)
    ensures forall c :: c in sigs <==> c in ClockSet(b)
  {
    var names := ClockNames(b);
    assert forall i :: 0 <= i < |names| ==> names[i] in ClockSet(b);
    assert forall i :: 0 <= i < |b.clocks| ==> names[i] == b.clocks[i].sig;
    SortUnique(LexLe, names)
  }

  function ClockNames(b: AlwaysBlock): seq<Signal> {
    seq(|b.clocks|, i requires 0 <= i < |b.clocks| => b.clocks[i].sig)
  }

  function BlockDomain(b: AlwaysBlock): (d: Option<Signal>) {
    var sigs := BlockClocks(b);
    if |sigs| == 1 then Some(sigs[0]) else None
  }

  lemma BlockDomainMeaning(b: AlwaysBlock, c: Signal)
    ensures BlockDomain(b) == Some(c) <==> ClockSet(b) == {c}
  {
    var sigs := BlockClocks(b);
    StringOrder();
    SortUniqueSorted(LexLe, ClockNames(b));
    if ClockSet(b) == {c} {
      assert c in sigs;
      forall i | 0 <= i < |sigs| ensures sigs[i] == c { assert sigs[i] in ClockSet(b); }
      if |sigs| > 1 { DistinctAt(LexLe, sigs, 0, 1); assert false; }
    }
    if BlockDomain(b) == Some(c) {
      forall x | x in ClockSet(b) ensures x == c { assert x in sigs; }
      assert c in sigs;
    }
  }

  /** The domains of the clocked blocks among `blocks` that drive `sig`. */
  ghost function DomainsSeen(blocks: seq<AlwaysBlock>, sig: Signal): set<Option<Signal>> {
    set b | b in blocks && b.kind == Clocked && Drives(b, sig) :: BlockDomain(b)
  }

  ghost predicate Collected(blocks: seq<AlwaysBlock>, doms: map<Signal, set<Option<Signal>>>) {
    forall sig :: (sig in doms <==> DomainsSeen(blocks, sig) != {}) &&
                  (sig in doms ==> doms[sig] == DomainsSeen(blocks, sig))
  }

  lemma DomainsSeenSnoc(blocks: seq<AlwaysBlock>, b: AlwaysBlock, sig: Signal)
    ensures DomainsSeen(blocks + [b], sig) ==
            DomainsSeen(blocks, sig) + if b.kind == Clocked && Drives(b, sig) then {BlockDomain(b)} else {}
  {
    var lhs := DomainsSeen(blocks + [b], sig);
    var rhs := DomainsSeen(blocks, sig) + if b.kind == Clocked && Drives(b, sig) then {BlockDomain(b)} else {};
    forall d | d in rhs ensures d in lhs {
      if d in DomainsSeen(blocks, sig) {
        var x :| x in blocks && x.kind == Clocked && Drives(x, sig) && BlockDomain(x) == d;
        assert x in blocks + [b];
      } else {
        assert b in blocks + [b];
      }
    }
  }

  lemma ResolvedMeaning(m: Module, sig: Signal, seen: set<Option<Signal>>, d: Option<Signal>)
    requires seen == DomainsSeen(m.alwaysBlocks, sig) && seen != {}
    requires if |seen| == 1 then d in seen else d == None
    ensures IsRegister(m, sig)
    ensures forall c :: d == Some(c) <==> SoleClock(m, sig, c)
  {
    var b0 :| b0 in m.alwaysBlocks && b0.kind == Clocked && Drives(b0, sig);
    var d0 :| d0 in b0.drivers && d0.lhs == sig;
    assert SeqDriver(m, sig, d0.rhsIds) by { assert d0 == Assign(sig, d0.rhsIds); }
    forall c ensures d == Some(c) <==> SoleClock(m, sig, c) {
      if d == Some(c) {
        Singleton(seen, d);
        forall b | b in m.alwaysBlocks && b.kind == Clocked && Drives(b, sig) ensures ClockSet(b) == {c} {
          assert BlockDomain(b) in seen;
          BlockDomainMeaning(b, c);
        }
      }
      if SoleClock(m, sig, c) {
        forall x | x in seen ensures x == Some(c) {
          var b :| b in m.alwaysBlocks && b.kind == Clocked && Drives(b, sig) && BlockDomain(b) == x;
          BlockDomainMeaning(b, c);
        }
        assert BlockDomain(b0) in seen;
        assert seen == {Some(c)};
      }
    }
  }

  lemma Singleton<T>(s: set<T>, x: T)
    requires |s| == 1 && x in s
    ensures s == {x}
  {
    assert |s - {x}| == 0;
  }

  method AssignDomains(m: Module) returns (dm: DomainMap)
    ensures IsDomainMap(m, dm)
    ensures ClocksListed(m, dm.clocks)
    ensures dm.singleDomain == if |dm.clocks| == 1 then Some(dm.clocks[0]) else None
  {
    var doms: map<Signal, set<Option<Signal>>> := map[];
    var clocks: seq<Signal> := [];
    var blocks := m.alwaysBlocks;
    for i := 0 to |blocks|
      invariant Collected(blocks[..i], doms)
      invariant forall j, k :: 0 <= j < k < |clocks| ==> clocks[j] != clocks[k]
      invariant forall c :: c in clocks <==> exists b :: b in blocks[..i] && b.kind == Clocked && c in ClockSet(b)
    {
      var block := blocks[i];
      assert blocks[..i + 1] == blocks[..i] + [block];
      if block.kind == Clocked {
        var sigs := BlockClocks(block);
        clocks := AppendNew(clocks, sigs);
        doms := AddDomain(doms, block.drivers, if |sigs| == 1 then Some(sigs[0]) else None);
        forall sig
          ensures (sig in doms <==> DomainsSeen(blocks[..i + 1], sig) != {}) &&
                  (sig in doms ==> doms[sig] == DomainsSeen(blocks[..i + 1], sig))
        {
          DomainsSeenSnoc(blocks[..i], block, sig);
        }
      } else {
        forall sig ensures DomainsSeen(blocks[..i + 1], sig) == DomainsSeen(blocks[..i], sig) {
          DomainsSeenSnoc(blocks[..i], block, sig);
        }
      }
    }
    assert blocks[..|blocks|] == blocks;
    var resolved := Resolve(doms);
    ResolvedDomains(m, doms, resolved);
    dm := DomainMap(resolved, clocks, if |clocks| == 1 then Some(clocks[0]) else None);
  }

  ghost predicate PicksSingleton(doms: map<Signal, set<Option<Signal>>>, resolved: map<Signal, Option<Signal>>)
    requires resolved.Keys <= doms.Keys
  {
    forall sig :: sig in resolved ==>
      if |doms[sig]| == 1 then resolved[sig] in doms[sig] else resolved[sig] == None
  }

  lemma ResolvedDomains(m: Module, doms: map<Signal, set<Option<Signal>>>, resolved: map<Signal, Option<Signal>>)
    requires Collected(m.alwaysBlocks, doms)
    requires resolved.Keys == doms.Keys && PicksSingleton(doms, resolved)
    ensures forall sig :: sig in resolved <==> IsRegister(m, sig)
    ensures forall sig, c :: sig in resolved ==> (resolved[sig] == Some(c) <==> SoleClock(m, sig, c))
  {
    forall sig
      ensures sig in resolved <==> IsRegister(m, sig)
      ensures forall c :: sig in resolved ==> (resolved[sig] == Some(c) <==> SoleClock(m, sig, c))
    {
      if sig in doms { ResolvedMeaning(m, sig, doms[sig], resolved[sig]); }
      if IsRegister(m, sig) { RegisterSeen(m, sig); }
    }
  }

  lemma RegisterSeen(m: Module, sig: Signal)
    requires IsRegister(m, sig)
    ensures DomainsSeen(m.alwaysBlocks, sig) != {}
  {
    var rhs :| SeqDriver(m, sig, rhs);
    var b, d :| b in m.alwaysBlocks && b.kind == Clocked && d in b.drivers && d == Assign(sig, rhs);
    assert Drives(b, sig);
    assert BlockDomain(b) in DomainsSeen(m.alwaysBlocks, sig);
  }

  method Resolve(doms: map<Signal, set<Option<Signal>>>) returns (resolved: map<Signal, Option<Signal>>)
    ensures resolved.Keys == doms.Keys && PicksSingleton(doms, resolved)
  {
    resolved := map[];
    var todo := doms.Keys;
    while todo != {}
      invariant todo <= doms.Keys && resolved.Keys == doms.Keys - todo
      invariant PicksSingleton(doms, resolved)
      decreases |todo|
    {
      var sig :| sig in todo;
      var d: Option<Signal> := None;
      if |doms[sig]| == 1 { d :| d in doms[sig]; }
      resolved := resolved[sig := d];
      todo := todo - {sig};
    }
  }

  method AppendNew(clocks: seq<Signal>, sigs: seq<Signal>) returns (r: seq<Signal>)
    requires forall j, k :: 0 <= j < k < |clocks| ==> clocks[j] != clocks[k]
    ensures clocks <= r
    ensures forall j, k :: 0 <= j < k < |r| ==> r[j] != r[k]
    ensures forall c :: c in r <==> c in clocks || c in sigs
  {
    r := clocks;
    for i := 0 to |sigs|
      invariant clocks <= r
      invariant forall j, k :: 0 <= j < k < |r| ==> r[j] != r[k]
      invariant forall c :: c in r <==> c in clocks || c in sigs[..i]
    {
      if sigs[i] !in r { r := r + [sigs[i]]; }
    }
  }

  ghost predicate Added(doms: map<Signal, set<Option<Signal>>>, targets: set<Signal>, domain: Option<Signal>,
                        r: map<Signal, set<Option<Signal>>>)
  {
    && r.Keys == doms.Keys + targets
    && forall sig :: sig in r ==>
         r[sig] == (if sig in doms then doms[sig] else {}) + if sig in targets then {domain} else {}
  }

  lemma AddedStep(doms: map<Signal, set<Option<Signal>>>, targets: set<Signal>, domain: Option<Signal>,
                  r: map<Signal, set<Option<Signal>>>, lhs: Signal)
    requires Added(doms, targets, domain, r)
    ensures Added(doms, targets + {lhs}, domain, r[lhs := (if lhs in r then r[lhs] else {}) + {domain}])
  {
  }

  lemma TargetsSnoc(drivers: seq<Assign>, i: nat)
    requires i < |drivers|
    ensures Targets(drivers[..i + 1]) == Targets(drivers[..i]) + {drivers[i].lhs}
  {
    assert drivers[..i + 1] == drivers[..i] + [drivers[i]];
  }

  method AddDomain(doms: map<Signal, set<Option<Signal>>>, drivers: seq<Assign>, domain: Option<Signal>)
    returns (r: map<Signal, set<Option<Signal>>>)
    ensures Added(doms, Targets(drivers), domain, r)
  {
    r := doms;
    for i := 0 to |drivers|
      invariant Added(doms, Targets(drivers[..i]), domain, r)
    {
      var lhs := drivers[i].lhs;
      TargetsSnoc(drivers, i);
      AddedStep(doms, Targets(drivers[..i]), domain, r, lhs);
      r := r[lhs := (if lhs in r then r[lhs] else {}) + {domain}];
    }
    assert drivers[..|drivers|] == drivers;
  }
}
