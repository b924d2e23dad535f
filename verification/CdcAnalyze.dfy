/** The crossing search over a whole module (`analyze` in tools/cdc_checker/crossings.py). */
module CdcAnalyze {
  import opened Options
  import opened CdcModel
  import opened CdcGraph
  import opened CdcClocks
  import opened CdcCrossings
  import opened CdcTrace
  import opened Ordering

  // ---------------------------------------------------------------- the recursive search

  method TraceCone(sc: Scan, node: Signal, drivers: map<Signal, seq<Edge>>, driven: set<Signal>,
                   boundary: set<Signal>, analysis: Analysis, path: seq<Signal>)
    requires node in Names(sc.m)
    requires IsDriverMap(sc.m, drivers) && driven == drivers.Keys && boundary == Boundary(sc.m)
    modifies analysis
    ensures analysis.Findings() == old(analysis.Findings()).Then(Trace(sc, node, path))
    decreases Names(sc.m) - Elems(path), 0, 0
  {
    ghost var before := analysis.Findings();
    ThenNothing(before);
    if node in path { return; }
    var path' := path + [node];
    assert node !in Names(sc.m) - Elems(path') && node in Names(sc.m) - Elems(path);
    if node in boundary && node !in driven {
      analysis.AddHit(sc.dest, node);
      return;
    }
    var edges := if node in drivers then drivers[node] else [];
    assert edges == Edges(sc.m, node);
    if edges == [] {
      if node in sc.m.ports { return; }
      analysis.AddHit(sc.dest, node);
      return;
    }
    for i := 0 to |edges|
      invariant analysis.Findings() == before.Then(TraceEdges(sc, node, path', i))
    {
      forall x | x in edges[i].rhs ensures x in Names(sc.m) { NamesCover(sc.m, node, edges[i], x); }
      TraceDriver(sc, node, edges[i], drivers, driven, boundary, analysis, path');
      ThenAssoc(before, TraceEdges(sc, node, path', i), TraceEdge(sc, node, path', edges[i]));
    }
    ThenNothing(TraceEdges(sc, node, path', |edges|));
    if node in boundary {
      analysis.AddHit(sc.dest, node);
      ThenAssoc(before, TraceEdges(sc, node, path', |edges|), Hit(sc, node));
    }
  }

  /** One driver of `node`: a sequential one ends the walk, a transparent one is followed. */
  method TraceDriver(sc: Scan, node: Signal, e: Edge, drivers: map<Signal, seq<Edge>>, driven: set<Signal>,
                     boundary: set<Signal>, analysis: Analysis, path: seq<Signal>)
    requires Known(sc.m, e.rhs)
    requires IsDriverMap(sc.m, drivers) && driven == drivers.Keys && boundary == Boundary(sc.m)
    modifies analysis
    ensures analysis.Findings() == old(analysis.Findings()).Then(TraceEdge(sc, node, path, e))
    decreases Names(sc.m) - Elems(path), 2, 0
  {
    ThenNothing(analysis.Findings());
    if e.kind == Clocked {
      var src := sc.dm.Of(node);
      var reset := IsResetName(node) || exists p :: p in path && IsResetName(p);
      if src == None {
        analysis.AddHit(sc.dest, node);
      } else if src.value != sc.destDomain {
        analysis.AddCrossing(RawCrossing(node, src, sc.dest, sc.destDomain, Reverse(path), reset));
      }
    } else {
      TraceReferences(sc, e.rhs, drivers, driven, boundary, analysis, path);
    }
  }

  /** Follow every signal of a right-hand side. */
  method TraceReferences(sc: Scan, rhs: seq<Signal>, drivers: map<Signal, seq<Edge>>, driven: set<Signal>,
                         boundary: set<Signal>, analysis: Analysis, path: seq<Signal>)
    requires Known(sc.m, rhs)
    requires IsDriverMap(sc.m, drivers) && driven == drivers.Keys && boundary == Boundary(sc.m)
    modifies analysis
    ensures analysis.Findings() == old(analysis.Findings()).Then(TraceRefs(sc, path, rhs, |rhs|))
    decreases Names(sc.m) - Elems(path), 1, 0
  {
    ghost var before := analysis.Findings();
    ThenNothing(before);
    for j := 0 to |rhs|
      invariant analysis.Findings() == before.Then(TraceRefs(sc, path, rhs, j))
    {
      TraceCone(sc, rhs[j], drivers, driven, boundary, analysis, path);
      ThenAssoc(before, TraceRefs(sc, path, rhs, j), Trace(sc, rhs[j], path));
    }
  }

  method BoundaryOf(m: Module) returns (boundary: set<Signal>)
    ensures boundary == Boundary(m)
  {
    boundary := {};
    for i := 0 to |m.instances|
      invariant boundary == set inst, x | inst in m.instances[..i] && x in ActualsOf(inst) :: x
    {
      boundary := boundary + ActualsOf(m.instances[i]);
    }
  }

  // ---------------------------------------------------------------- the outer loops

  function ScanDriver(m: Module, dm: DomainMap, d: Assign): Found
    requires Known(m, d.rhsIds)
  {
    var dom := dm.Of(d.lhs);
    if dom == None then Found([], [(d.lhs, d.lhs)])
    else TraceRefs(Scan(m, dm, d.lhs, dom.value), [d.lhs], d.rhsIds, |d.rhsIds|)
  }

  function ScanDrivers(m: Module, dm: DomainMap, ds: seq<Assign>, n: nat): Found
    requires n <= |ds| && AllKnown(m, ds)
  {
    if n == 0 then Nothing else ScanDrivers(m, dm, ds, n - 1).Then(ScanDriver(m, dm, ds[n - 1]))
  }

  lemma ClockedNames(m: Module, b: AlwaysBlock)
    requires b in m.alwaysBlocks && b.kind == Clocked
    ensures AllKnown(m, b.drivers)
  {
    forall d, x | d in b.drivers && x in d.rhsIds ensures x in Names(m) {
      assert SeqDriver(m, d.lhs, d.rhsIds) by { assert d == Assign(d.lhs, d.rhsIds); }
      SeqEdges(m, d.lhs, d.rhsIds);
      NamesCover(m, d.lhs, Edge(Clocked, d.rhsIds), x);
    }
  }

  function ScanBlocks(m: Module, dm: DomainMap, n: nat): Found
    requires n <= |m.alwaysBlocks|
  {
    if n == 0 then Nothing else
    var b := m.alwaysBlocks[n - 1];
    var rest := ScanBlocks(m, dm, n - 1);
    if b.kind != Clocked then rest else
    ClockedNames(m, b);
    rest.Then(ScanDrivers(m, dm, b.drivers, |b.drivers|))
  }

  function Scanned(m: Module, dm: DomainMap): Found { ScanBlocks(m, dm, |m.alwaysBlocks|) }

  // ---------------------------------------------------------------- duplicate collapse

  ghost predicate SameEnds(c: RawCrossing, d: RawCrossing) { c.source == d.source && c.dest == d.dest }

  /** First crossing of every (source, destination) pair, in order of discovery. */
  ghost function FirstOfEach(cs: seq<RawCrossing>): seq<RawCrossing> {
    if cs == [] then [] else
    var init, last := FirstOfEach(cs[..|cs| - 1]), cs[|cs| - 1];
    if exists c :: c in cs[..|cs| - 1] && SameEnds(c, last) then init else init + [last]
  }

  method Collapse(cs: seq<RawCrossing>) returns (unique: seq<RawCrossing>)
    ensures unique == FirstOfEach(cs)
  {
    var seen: set<(Signal, Signal)> := {};
    unique := [];
    for i := 0 to |cs|
      invariant unique == FirstOfEach(cs[..i])
      invariant forall s, d :: (s, d) in seen <==> exists c :: c in cs[..i] && c.source == s && c.dest == d
    {
      var crossing := cs[i];
      assert cs[..i + 1][..i] == cs[..i];
      assert cs[..i + 1] == cs[..i] + [crossing];
      assert (crossing.source, crossing.dest) in seen <==> exists c :: c in cs[..i] && SameEnds(c, crossing) by {
        if (crossing.source, crossing.dest) in seen {
          var c :| c in cs[..i] && c.source == crossing.source && c.dest == crossing.dest;
          assert SameEnds(c, crossing);
        }
      }
      if (crossing.source, crossing.dest) !in seen {
        seen := seen + {(crossing.source, crossing.dest)};
        unique := unique + [crossing];
      }
    }
    assert cs[..|cs|] == cs;
  }

  /** `c` is in the list, and nothing with the same ends comes before it. */
  ghost predicate FirstWithEnds(cs: seq<RawCrossing>, c: RawCrossing) {
    exists i :: 0 <= i < |cs| && cs[i] == c && forall j :: 0 <= j < i ==> !SameEnds(cs[j], c)
  }

  /** Of each pair it is the first crossing that is kept. */
  lemma {:induction false} KeptIsFirst(cs: seq<RawCrossing>, c: RawCrossing)
    requires c in FirstOfEach(cs)
    ensures FirstWithEnds(cs, c)
  {
    var n := |cs| - 1;
    var init, last := cs[..n], cs[n];
    if c in FirstOfEach(init) {
      KeptIsFirst(init, c);
      var i :| 0 <= i < |init| && init[i] == c && forall j :: 0 <= j < i ==> !SameEnds(init[j], c);
      assert cs[i] == c && forall j :: 0 <= j < i ==> cs[j] == init[j];
    } else {
      assert c == last;
      forall j | 0 <= j < n ensures !SameEnds(cs[j], c) { assert cs[j] == init[j] && init[j] in init; }
      assert cs[n] == c;
    }
  }

  /** The collapse keeps only real crossings, one per pair, and forgets no pair. */
  lemma CollapseExact(cs: seq<RawCrossing>)
    ensures forall c :: c in FirstOfEach(cs) ==> c in cs
    ensures forall c :: c in FirstOfEach(cs) ==> c in cs
    ensures forall c :: c in cs ==> exists u :: u in FirstOfEach(cs) && SameEnds(u, c)
    ensures forall i, j :: 0 <= i < j < |FirstOfEach(cs)| ==> !SameEnds(FirstOfEach(cs)[i], FirstOfEach(cs)[j])
  {
    CollapseDistinct(cs);
    forall c | c in cs ensures exists u :: u in FirstOfEach(cs) && SameEnds(u, c) { var u := CollapseKeeps(cs, c); }
  }

  lemma {:induction false} CollapseSubset(cs: seq<RawCrossing>, c: RawCrossing)
    requires c in FirstOfEach(cs)
    ensures c in cs
  {
    var init := cs[..|cs| - 1];
    if c in FirstOfEach(init) { CollapseSubset(init, c); assert cs == init + [cs[|cs| - 1]]; }
  }

  lemma {:induction false} CollapseKeeps(cs: seq<RawCrossing>, c: RawCrossing) returns (u: RawCrossing)
    requires c in cs
    ensures u in FirstOfEach(cs) && SameEnds(u, c)
  {
    var init, last := cs[..|cs| - 1], cs[|cs| - 1];
    assert cs == init + [last];
    if c in init { u := CollapseKeeps(init, c); }
    else if x :| x in init && SameEnds(x, last) { u := CollapseKeeps(init, x); }
    else { u := last; }
  }

  lemma {:induction false} CollapseDistinct(cs: seq<RawCrossing>)
    ensures forall c :: c in FirstOfEach(cs) ==> c in cs
    ensures forall i, j :: 0 <= i < j < |FirstOfEach(cs)| ==> !SameEnds(FirstOfEach(cs)[i], FirstOfEach(cs)[j])
  {
    forall c | c in FirstOfEach(cs) ensures c in cs { CollapseSubset(cs, c); }
    if cs != [] {
      var init, u := cs[..|cs| - 1], FirstOfEach(cs);
      CollapseDistinct(init);
      forall i, j | 0 <= i < j < |u| ensures !SameEnds(u[i], u[j]) {
        if j == |FirstOfEach(init)| { assert u[i] in FirstOfEach(init); assert u[i] in init; }
      }
    }
  }

  // ---------------------------------------------------------------- analyze

  method Analyze(m: Module, dm: DomainMap) returns (analysis: Analysis)
    ensures fresh(analysis) && analysis.domains == dm
    ensures analysis.crossings == FirstOfEach(Scanned(m, dm).crossings)
    ensures analysis.unknownHits == SortUnique(PairLe, Scanned(m, dm).hits)
    ensures StrictlySorted(PairLe, analysis.unknownHits)
  {
    var drivers, driven := BuildDrivers(m);
    var boundary := BoundaryOf(m);
    analysis := new Analysis(dm);
    for i := 0 to |m.alwaysBlocks|
      invariant fresh(analysis) && analysis.domains == dm
      invariant analysis.Findings() == ScanBlocks(m, dm, i)
    {
      var block := m.alwaysBlocks[i];
      if block.kind == Clocked {
        ClockedNames(m, block);
        AnalyzeBlock(m, dm, block.drivers, drivers, driven, boundary, analysis);
      }
    }
    var unique := Collapse(analysis.crossings);
    analysis.crossings := unique;
    PairOrder();
    SortUniqueSorted(PairLe, analysis.unknownHits);
    analysis.unknownHits := SortUnique(PairLe, analysis.unknownHits);
  }

  method AnalyzeBlock(m: Module, dm: DomainMap, ds: seq<Assign>, drivers: map<Signal, seq<Edge>>,
                      driven: set<Signal>, boundary: set<Signal>, analysis: Analysis)
    requires AllKnown(m, ds)
    requires IsDriverMap(m, drivers) && driven == drivers.Keys && boundary == Boundary(m)
    modifies analysis
    ensures analysis.Findings() == old(analysis.Findings()).Then(ScanDrivers(m, dm, ds, |ds|))
  {
    ghost var before := analysis.Findings();
    ThenNothing(before);
    for j := 0 to |ds|
      invariant analysis.Findings() == before.Then(ScanDrivers(m, dm, ds, j))
    {
      AnalyzeDriver(m, dm, ds[j], drivers, driven, boundary, analysis);
      ThenAssoc(before, ScanDrivers(m, dm, ds, j), ScanDriver(m, dm, ds[j]));
    }
  }

  method AnalyzeDriver(m: Module, dm: DomainMap, driver: Assign, drivers: map<Signal, seq<Edge>>,
                       driven: set<Signal>, boundary: set<Signal>, analysis: Analysis)
    requires Known(m, driver.rhsIds)
    requires IsDriverMap(m, drivers) && driven == drivers.Keys && boundary == Boundary(m)
    modifies analysis
    ensures analysis.Findings() == old(analysis.Findings()).Then(ScanDriver(m, dm, driver))
  {
    var dest := driver.lhs;
    var destDomain := dm.Of(dest);
    if destDomain == None {
      analysis.AddHit(dest, dest);
    } else {
      TraceReferences(Scan(m, dm, dest, destDomain.value), driver.rhsIds, drivers, driven, boundary, analysis, [dest]);
    }
  }

  // ---------------------------------------------------------------- what analyze finds, exactly

  /** Some clocked right-hand side of `d` reaches `s` through transparent logic that does not
      pass through `d` itself. */
  ghost predicate Sampled(m: Module, d: Signal, s: Signal) {
    exists rhs, seed :: SeqDriver(m, d, rhs) && seed in rhs && Reach(m, seed, s, {d})
  }

  ghost predicate CrossingPair(m: Module, dm: DomainMap, s: Signal, d: Signal) {
    dm.Of(d).Some? && Sampled(m, d, s) && Foreign(Scan(m, dm, d, dm.Of(d).value), s)
  }

  ghost predicate UnknownPair(m: Module, dm: DomainMap, d: Signal, h: Signal) {
    IsRegister(m, d) &&
    if dm.Of(d) == None then h == d
    else Sampled(m, d, h) && Murky(Scan(m, dm, d, dm.Of(d).value), h)
  }

  ghost predicate PairReported(f: Found, s: Signal, d: Signal) {
    exists c :: c in f.crossings && c.source == s && c.dest == d
  }

  ghost predicate DriverSampled(m: Module, d: Assign, s: Signal) {
    exists seed :: seed in d.rhsIds && Reach(m, seed, s, {d.lhs})
  }

  ghost predicate DriverPair(m: Module, dm: DomainMap, a: Assign, s: Signal, d: Signal) {
    a.lhs == d && dm.Of(d).Some? && DriverSampled(m, a, s) && Foreign(Scan(m, dm, d, dm.Of(d).value), s)
  }

  ghost predicate DriverHit(m: Module, dm: DomainMap, a: Assign, d: Signal, h: Signal) {
    a.lhs == d &&
    if dm.Of(d) == None then h == d
    else DriverSampled(m, a, h) && Murky(Scan(m, dm, d, dm.Of(d).value), h)
  }

  lemma ThenPairs(a: Found, b: Found, s: Signal, d: Signal)
    ensures PairReported(a.Then(b), s, d) <==> PairReported(a, s, d) || PairReported(b, s, d)
  {
    if PairReported(a, s, d) || PairReported(b, s, d) {
      var c :| (c in a.crossings || c in b.crossings) && c.source == s && c.dest == d;
      assert c in a.Then(b).crossings;
    }
  }

  lemma ScanDriverExact(m: Module, dm: DomainMap, a: Assign, s: Signal, d: Signal)
    requires SeqDriver(m, a.lhs, a.rhsIds) && Known(m, a.rhsIds)
    ensures PairReported(ScanDriver(m, dm, a), s, d) <==> DriverPair(m, dm, a, s, d)
    ensures (d, s) in ScanDriver(m, dm, a).hits <==> DriverHit(m, dm, a, d, s)
    ensures forall c :: c in ScanDriver(m, dm, a).crossings ==>
              dm.Of(a.lhs).Some? && Backed(Scan(m, dm, a.lhs, dm.Of(a.lhs).value), c)
  {
    if dm.Of(a.lhs).Some? {
      var sc := Scan(m, dm, a.lhs, dm.Of(a.lhs).value);
      var f := ScanDriver(m, dm, a);
      TraceRefsExact(sc, [a.lhs], a.rhsIds, |a.rhsIds|, s);
      assert a.rhsIds[..|a.rhsIds|] == a.rhsIds && Elems([a.lhs]) == {a.lhs};
      forall c | c in f.crossings ensures Backed(sc, c) {
        assert Evidence(sc, [a.lhs]);
        forall x | x in a.rhsIds ensures Feeds(sc, a.lhs, x, 0) { }
        TraceRefsBacked(sc, [a.lhs], a.rhsIds, |a.rhsIds|, c);
      }
      TraceHitsDest(sc, [a.lhs], a.rhsIds, |a.rhsIds|);
      if Reports(f, s) { var c :| c in f.crossings && c.source == s; assert Backed(sc, c); }
    }
  }

  /** Every unknown hit names the destination being traced. */
  lemma {:induction false} TraceHitsDest(sc: Scan, path: seq<Signal>, rhs: seq<Signal>, n: nat)
    requires n <= |rhs| && Known(sc.m, rhs)
    ensures forall h :: h in TraceRefs(sc, path, rhs, n).hits ==> h.0 == sc.dest
    decreases Names(sc.m) - Elems(path), 1, n
  {
    if n > 0 {
      TraceHitsDest(sc, path, rhs, n - 1);
      var node := rhs[n - 1];
      var path' := path + [node];
      if node !in path && Edges(sc.m, node) != [] {
        assert node !in Names(sc.m) - Elems(path') && node in Names(sc.m) - Elems(path);
        TraceEdgesHitsDest(sc, node, path', |Edges(sc.m, node)|);
      }
    }
  }

  lemma {:induction false} TraceEdgesHitsDest(sc: Scan, node: Signal, path: seq<Signal>, n: nat)
    requires n <= |Edges(sc.m, node)|
    ensures forall h :: h in TraceEdges(sc, node, path, n).hits ==> h.0 == sc.dest
    decreases Names(sc.m) - Elems(path), 2, n
  {
    if n > 0 {
      TraceEdgesHitsDest(sc, node, path, n - 1);
      var e := Edges(sc.m, node)[n - 1];
      forall x | x in e.rhs ensures x in Names(sc.m) { NamesCover(sc.m, node, e, x); }
      if e.kind == Combinational { TraceHitsDest(sc, path, e.rhs, |e.rhs|); }
    }
  }

  ghost predicate CrossingBacked(m: Module, dm: DomainMap, c: RawCrossing) {
    dm.Of(c.dest).Some? && Backed(Scan(m, dm, c.dest, dm.Of(c.dest).value), c)
  }

  ghost predicate FoundBacked(m: Module, dm: DomainMap, f: Found) {
    forall c :: c in f.crossings ==> CrossingBacked(m, dm, c)
  }

  lemma ThenBacked(m: Module, dm: DomainMap, a: Found, b: Found)
    requires FoundBacked(m, dm, a) && FoundBacked(m, dm, b)
    ensures FoundBacked(m, dm, a.Then(b))
  {
  }

  lemma ScanDriverBacked(m: Module, dm: DomainMap, a: Assign)
    requires SeqDriver(m, a.lhs, a.rhsIds) && Known(m, a.rhsIds)
    ensures FoundBacked(m, dm, ScanDriver(m, dm, a))
  {
    ScanDriverExact(m, dm, a, "", "");
  }

  lemma {:induction false} ScanDriversBacked(m: Module, dm: DomainMap, ds: seq<Assign>, n: nat)
    requires n <= |ds| && AllKnown(m, ds)
    requires forall a :: a in ds ==> SeqDriver(m, a.lhs, a.rhsIds)
    ensures FoundBacked(m, dm, ScanDrivers(m, dm, ds, n))
  {
    if n > 0 {
      var k := n - 1;
      assert ds[k] in ds;
      ScanDriversBacked(m, dm, ds, k);
      ScanDriverBacked(m, dm, ds[k]);
      ThenBacked(m, dm, ScanDrivers(m, dm, ds, k), ScanDriver(m, dm, ds[k]));
    }
  }

  lemma {:induction false} ScanDriversExact(m: Module, dm: DomainMap, ds: seq<Assign>, n: nat, s: Signal, d: Signal)
    requires n <= |ds| && AllKnown(m, ds)
    requires forall a :: a in ds ==> SeqDriver(m, a.lhs, a.rhsIds)
    ensures PairReported(ScanDrivers(m, dm, ds, n), s, d) <==> exists i :: 0 <= i < n && DriverPair(m, dm, ds[i], s, d)
    ensures (d, s) in ScanDrivers(m, dm, ds, n).hits <==> exists i :: 0 <= i < n && DriverHit(m, dm, ds[i], d, s)
  {
    if n > 0 {
      var k := n - 1;
      assert ds[k] in ds;
      ScanDriversExact(m, dm, ds, k, s, d);
      ScanDriverExact(m, dm, ds[k], s, d);
      ThenPairs(ScanDrivers(m, dm, ds, k), ScanDriver(m, dm, ds[k]), s, d);
    }
  }

  lemma ClockedAssign(m: Module, b: AlwaysBlock)
    requires b in m.alwaysBlocks && b.kind == Clocked
    ensures forall a :: a in b.drivers ==> SeqDriver(m, a.lhs, a.rhsIds)
  {
    forall a | a in b.drivers ensures SeqDriver(m, a.lhs, a.rhsIds) { assert a == Assign(a.lhs, a.rhsIds); }
  }

  ghost predicate BlockPair(m: Module, dm: DomainMap, b: AlwaysBlock, s: Signal, d: Signal) {
    b.kind == Clocked && exists i :: 0 <= i < |b.drivers| && DriverPair(m, dm, b.drivers[i], s, d)
  }

  ghost predicate BlockHit(m: Module, dm: DomainMap, b: AlwaysBlock, d: Signal, h: Signal) {
    b.kind == Clocked && exists i :: 0 <= i < |b.drivers| && DriverHit(m, dm, b.drivers[i], d, h)
  }

  lemma {:induction false} ScanBlocksBacked(m: Module, dm: DomainMap, n: nat)
    requires n <= |m.alwaysBlocks|
    ensures FoundBacked(m, dm, ScanBlocks(m, dm, n))
  {
    if n > 0 {
      var k := n - 1;
      var b := m.alwaysBlocks[k];
      ScanBlocksBacked(m, dm, k);
      if b.kind == Clocked {
        ClockedNames(m, b);
        ClockedAssign(m, b);
        ScanDriversBacked(m, dm, b.drivers, |b.drivers|);
        ThenBacked(m, dm, ScanBlocks(m, dm, k), ScanDrivers(m, dm, b.drivers, |b.drivers|));
      }
    }
  }

  lemma {:induction false} ScanBlocksExact(m: Module, dm: DomainMap, n: nat, s: Signal, d: Signal)
    requires n <= |m.alwaysBlocks|
    ensures PairReported(ScanBlocks(m, dm, n), s, d) <==> exists k :: 0 <= k < n && BlockPair(m, dm, m.alwaysBlocks[k], s, d)
    ensures (d, s) in ScanBlocks(m, dm, n).hits <==> exists k :: 0 <= k < n && BlockHit(m, dm, m.alwaysBlocks[k], d, s)
  {
    if n > 0 {
      var last := n - 1;
      var b := m.alwaysBlocks[last];
      ScanBlocksExact(m, dm, last, s, d);
      if b.kind == Clocked {
        ClockedNames(m, b);
        ClockedAssign(m, b);
        ScanDriversExact(m, dm, b.drivers, |b.drivers|, s, d);
        ThenPairs(ScanBlocks(m, dm, last), ScanDrivers(m, dm, b.drivers, |b.drivers|), s, d);
      }
    }
  }

  lemma PairsByBlock(m: Module, dm: DomainMap, s: Signal, d: Signal)
    ensures (exists k :: 0 <= k < |m.alwaysBlocks| && BlockPair(m, dm, m.alwaysBlocks[k], s, d)) <==> CrossingPair(m, dm, s, d)
    ensures (exists k :: 0 <= k < |m.alwaysBlocks| && BlockHit(m, dm, m.alwaysBlocks[k], d, s)) <==> UnknownPair(m, dm, d, s)
  {
    forall k, i | 0 <= k < |m.alwaysBlocks| && m.alwaysBlocks[k].kind == Clocked &&
                  0 <= i < |m.alwaysBlocks[k].drivers|
      ensures DriverPair(m, dm, m.alwaysBlocks[k].drivers[i], s, d) ==> CrossingPair(m, dm, s, d)
      ensures DriverHit(m, dm, m.alwaysBlocks[k].drivers[i], d, s) ==> UnknownPair(m, dm, d, s)
    {
      var a := m.alwaysBlocks[k].drivers[i];
      ClockedAssign(m, m.alwaysBlocks[k]);
      assert a in m.alwaysBlocks[k].drivers;
      if DriverSampled(m, a, s) { var seed :| seed in a.rhsIds && Reach(m, seed, s, {a.lhs}); assert Sampled(m, a.lhs, s); }
    }
    forall rhs | SeqDriver(m, d, rhs)
      ensures DriverPair(m, dm, Assign(d, rhs), s, d) ==>
                exists k :: 0 <= k < |m.alwaysBlocks| && BlockPair(m, dm, m.alwaysBlocks[k], s, d)
      ensures DriverHit(m, dm, Assign(d, rhs), d, s) ==>
                exists k :: 0 <= k < |m.alwaysBlocks| && BlockHit(m, dm, m.alwaysBlocks[k], d, s)
    {
      var b, a :| b in m.alwaysBlocks && b.kind == Clocked && a in b.drivers && a == Assign(d, rhs);
      var k :| 0 <= k < |m.alwaysBlocks| && m.alwaysBlocks[k] == b;
      var i :| 0 <= i < |b.drivers| && b.drivers[i] == a;
    }
    if CrossingPair(m, dm, s, d) {
      var rhs, seed :| SeqDriver(m, d, rhs) && seed in rhs && Reach(m, seed, s, {d});
      assert DriverSampled(m, Assign(d, rhs), s);
      assert DriverPair(m, dm, Assign(d, rhs), s, d);
    }
    if UnknownPair(m, dm, d, s) {
      if dm.Of(d) == None {
        var rhs :| SeqDriver(m, d, rhs);
        assert DriverHit(m, dm, Assign(d, rhs), d, s);
      } else {
        var rhs, seed :| SeqDriver(m, d, rhs) && seed in rhs && Reach(m, seed, s, {d});
        assert DriverSampled(m, Assign(d, rhs), s);
        assert DriverHit(m, dm, Assign(d, rhs), d, s);
      }
    }
  }

  lemma PairExact(m: Module, dm: DomainMap, s: Signal, d: Signal)
    ensures PairReported(Scanned(m, dm), s, d) <==> CrossingPair(m, dm, s, d)
    ensures (d, s) in Scanned(m, dm).hits <==> UnknownPair(m, dm, d, s)
  {
    ScanBlocksExact(m, dm, |m.alwaysBlocks|, s, d);
    PairsByBlock(m, dm, s, d);
  }

  ghost predicate PairKept(cs: seq<RawCrossing>, s: Signal, d: Signal) {
    exists c :: c in cs && c.source == s && c.dest == d
  }

  lemma CollapsePairs(f: Found, s: Signal, d: Signal)
    ensures PairKept(FirstOfEach(f.crossings), s, d) <==> PairReported(f, s, d)
  {
    CollapseExact(f.crossings);
    if PairReported(f, s, d) {
      var c :| c in f.crossings && c.source == s && c.dest == d;
      var u :| u in FirstOfEach(f.crossings) && SameEnds(u, c);
    }
  }

  lemma AllBacked(m: Module, dm: DomainMap)
    ensures forall c :: c in FirstOfEach(Scanned(m, dm).crossings) ==> CrossingBacked(m, dm, c)
  {
    ScanBlocksBacked(m, dm, |m.alwaysBlocks|);
    forall c | c in FirstOfEach(Scanned(m, dm).crossings) ensures CrossingBacked(m, dm, c) {
      CollapseSubset(Scanned(m, dm).crossings, c);
    }
  }

  /** The analysis lists exactly one crossing for every (foreign register, destination) pair that
      transparent logic connects, each with genuine path evidence, and exactly the pairs about
      which nothing can be proved. */
  lemma AnalyzeExact(m: Module, dm: DomainMap)
    ensures forall s, d :: PairReported(Scanned(m, dm), s, d) <==> CrossingPair(m, dm, s, d)
    ensures forall s, d :: PairKept(FirstOfEach(Scanned(m, dm).crossings), s, d) <==> CrossingPair(m, dm, s, d)
    ensures forall c :: c in FirstOfEach(Scanned(m, dm).crossings) ==> CrossingBacked(m, dm, c)
    ensures forall d, h :: (d, h) in SortUnique(PairLe, Scanned(m, dm).hits) <==> UnknownPair(m, dm, d, h)
  {
    AllBacked(m, dm);
    var f := Scanned(m, dm);
    forall s, d
      ensures PairReported(f, s, d) <==> CrossingPair(m, dm, s, d)
      ensures PairKept(FirstOfEach(f.crossings), s, d) <==> CrossingPair(m, dm, s, d)
      ensures (d, s) in f.hits <==> UnknownPair(m, dm, d, s)
    {
      PairExact(m, dm, s, d);
      CollapsePairs(f, s, d);
    }
  }
}
