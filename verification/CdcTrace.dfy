/** What the recursive search `_trace_cone` reports, and its exact meaning in terms of
    reachability (tools/cdc_checker/crossings.py). */
module CdcTrace {
  import opened Options
  import opened CdcModel
  import opened CdcGraph
  import opened CdcClocks
  import opened CdcCrossings

  /** The arguments that stay fixed while one destination register is traced. */
  datatype Scan = Scan(m: Module, dm: DomainMap, dest: Signal, destDomain: Signal)

  function Elems(path: seq<Signal>): set<Signal> { set x | x in path }

  function Reverse<T>(s: seq<T>): (r: seq<T>)
    ensures |r| == |s| && forall i :: 0 <= i < |s| ==> r[i] == s[|s| - 1 - i]
  {
    if s == [] then [] else Reverse(s[1..]) + [s[0]]
  }

  function ActualsOf(inst: Instance): set<Signal> {
    set f, x | f in inst.connections && x in inst.connections[f] :: x
  }

  /** Every signal connected to some module instance. */
  function Boundary(m: Module): set<Signal> {
    set inst, x | inst in m.instances && x in ActualsOf(inst) :: x
  }

  function Hit(sc: Scan, node: Signal): Found { Found([], [(sc.dest, node)]) }

  /** A sequential driver met at the end of `path`. */
  function Report(sc: Scan, node: Signal, path: seq<Signal>): Found {
    var src := sc.dm.Of(node);
    if src == None then Hit(sc, node)
    else if src.value != sc.destDomain then
      Found([RawCrossing(node, src, sc.dest, sc.destDomain, Reverse(path),
                         IsResetName(node) || exists p :: p in path && IsResetName(p))], [])
    else Nothing
  }

  function Trace(sc: Scan, node: Signal, path: seq<Signal>): Found
    requires node in Names(sc.m)
    decreases Names(sc.m) - Elems(path), 0, 0
  {
    if node in path then Nothing else
    var path' := path + [node];
    var edges := Edges(sc.m, node);
    assert node !in Names(sc.m) - Elems(path') && node in Names(sc.m) - Elems(path);
    if edges == [] then
      if node in Boundary(sc.m) || node !in sc.m.ports then Hit(sc, node) else Nothing
    else
      TraceEdges(sc, node, path', |edges|).Then(if node in Boundary(sc.m) then Hit(sc, node) else Nothing)
  }

  /** The first `n` drivers of `node`. */
  function TraceEdges(sc: Scan, node: Signal, path: seq<Signal>, n: nat): Found
    requires n <= |Edges(sc.m, node)|
    decreases Names(sc.m) - Elems(path), 2, n
  {
    if n == 0 then Nothing else
    var e := Edges(sc.m, node)[n - 1];
    assert Known(sc.m, e.rhs) by {
      forall x | x in e.rhs ensures x in Names(sc.m) { NamesCover(sc.m, node, e, x); }
    }
    TraceEdges(sc, node, path, n - 1).Then(TraceEdge(sc, node, path, e))
  }

  function TraceEdge(sc: Scan, node: Signal, path: seq<Signal>, e: Edge): Found
    requires Known(sc.m, e.rhs)
    decreases Names(sc.m) - Elems(path), 1, |e.rhs| + 1
  {
    if e.kind == Clocked then Report(sc, node, path) else TraceRefs(sc, path, e.rhs, |e.rhs|)
  }

  /** The first `n` signals a right-hand side reads. */
  function TraceRefs(sc: Scan, path: seq<Signal>, rhs: seq<Signal>, n: nat): Found
    requires n <= |rhs| && Known(sc.m, rhs)
    decreases Names(sc.m) - Elems(path), 1, n
  {
    if n == 0 then Nothing else
    TraceRefs(sc, path, rhs, n - 1).Then(Trace(sc, rhs[n - 1], path))
  }

  // ---------------------------------------------------------------- what gets reported

  ghost predicate Reports(f: Found, s: Signal) { exists c :: c in f.crossings && c.source == s }
  ghost predicate Hits(f: Found, dest: Signal, h: Signal) { (dest, h) in f.hits }

  /** A register of another known clock domain. */
  ghost predicate Foreign(sc: Scan, s: Signal) {
    IsRegister(sc.m, s) && sc.dm.Of(s).Some? && sc.dm.Of(s).value != sc.destDomain
  }

  /** A signal about which nothing can be proved. */
  ghost predicate Murky(sc: Scan, h: Signal) {
    || h in Boundary(sc.m)
    || (Edges(sc.m, h) == [] && h !in sc.m.ports)
    || (IsRegister(sc.m, h) && sc.dm.Of(h) == None)
  }

  /** The two reported sets, as one statement about a single signal `s`. */
  ghost predicate Faithful(sc: Scan, f: Found, s: Signal, reached: bool) {
    && (Reports(f, s) <==> reached && Foreign(sc, s))
    && (Hits(f, sc.dest, s) <==> reached && Murky(sc, s))
  }

  lemma ThenReports(a: Found, b: Found, dest: Signal, s: Signal)
    ensures Reports(a.Then(b), s) <==> Reports(a, s) || Reports(b, s)
    ensures Hits(a.Then(b), dest, s) <==> Hits(a, dest, s) || Hits(b, dest, s)
  {
    if Reports(a, s) || Reports(b, s) {
      var c :| (c in a.crossings || c in b.crossings) && c.source == s;
      assert c in a.Then(b).crossings;
    }
  }

  /** The recursive search from `node` reports exactly the foreign registers, and exactly the
      unprovable signals, that are reachable without touching the path walked so far. */
  lemma {:induction false} TraceExact(sc: Scan, node: Signal, path: seq<Signal>, s: Signal)
    requires node in Names(sc.m)
    ensures Faithful(sc, Trace(sc, node, path), s, Reach(sc.m, node, s, Elems(path)))
    decreases Names(sc.m) - Elems(path), 0, 0
  {
    ReachUnfold(sc.m, node, s, Elems(path));
    if node in path { return; }
    var path' := path + [node];
    assert Elems(path') == Elems(path) + {node};
    var edges := Edges(sc.m, node);
    if edges == [] {
      assert !IsRegister(sc.m, node) by {
        if IsRegister(sc.m, node) { var rhs :| SeqDriver(sc.m, node, rhs); SeqEdges(sc.m, node, rhs); }
      }
      assert forall c :: !Comb(sc.m, node, c);
    } else {
      assert node !in Names(sc.m) - Elems(path') && node in Names(sc.m) - Elems(path);
      TraceEdgesExact(sc, node, path', |edges|, s);
      AllEdges(sc, node, path', s);
      ThenReports(TraceEdges(sc, node, path', |edges|),
                  if node in Boundary(sc.m) then Hit(sc, node) else Nothing, sc.dest, s);
    }
  }

  /** `s` is behind one of the first `n` transparent drivers of `node`. */
  ghost predicate BehindEdges(sc: Scan, node: Signal, path: seq<Signal>, n: nat, s: Signal)
    requires n <= |Edges(sc.m, node)|
  {
    exists j :: 0 <= j < n && BehindEdge(sc, Edges(sc.m, node)[j], path, s)
  }

  ghost predicate BehindEdge(sc: Scan, e: Edge, path: seq<Signal>, s: Signal) {
    e.kind == Combinational && exists x :: x in e.rhs && Reach(sc.m, x, s, Elems(path))
  }

  ghost predicate ClockedEdge(sc: Scan, node: Signal, n: nat)
    requires n <= |Edges(sc.m, node)|
  {
    exists j :: 0 <= j < n && Edges(sc.m, node)[j].kind == Clocked
  }

  /** Findings of a driver loop: what lies behind it, plus the node itself once a sequential
      driver was met. */
  ghost predicate LoopFaithful(sc: Scan, f: Found, node: Signal, s: Signal, behind: bool, clocked: bool) {
    && (Reports(f, s) <==> (behind && Foreign(sc, s)) || (clocked && s == node && Foreign(sc, s)))
    && (Hits(f, sc.dest, s) <==> (behind && Murky(sc, s)) || (clocked && s == node && sc.dm.Of(s) == None))
  }

  lemma AllEdges(sc: Scan, node: Signal, path: seq<Signal>, s: Signal)
    ensures BehindEdges(sc, node, path, |Edges(sc.m, node)|, s) <==>
            exists c :: Comb(sc.m, node, c) && Reach(sc.m, c, s, Elems(path))
    ensures ClockedEdge(sc, node, |Edges(sc.m, node)|) <==> IsRegister(sc.m, node)
  {
    var edges := Edges(sc.m, node);
    if c :| Comb(sc.m, node, c) && Reach(sc.m, c, s, Elems(path)) {
      var e :| e in edges && e.kind == Combinational && c in e.rhs;
      var j :| 0 <= j < |edges| && edges[j] == e;
      assert BehindEdge(sc, edges[j], path, s);
    }
    if BehindEdges(sc, node, path, |edges|, s) {
      var j :| 0 <= j < |edges| && BehindEdge(sc, edges[j], path, s);
      var x :| x in edges[j].rhs && Reach(sc.m, x, s, Elems(path));
      assert edges[j] in edges && Comb(sc.m, node, x);
    }
    if IsRegister(sc.m, node) {
      var rhs :| SeqDriver(sc.m, node, rhs);
      SeqEdges(sc.m, node, rhs);
      var j :| 0 <= j < |edges| && edges[j] == Edge(Clocked, rhs);
    }
    if ClockedEdge(sc, node, |edges|) {
      var j :| 0 <= j < |edges| && edges[j].kind == Clocked;
      assert edges[j] == Edge(Clocked, edges[j].rhs);
      SeqEdges(sc.m, node, edges[j].rhs);
    }
  }

  lemma {:induction false} TraceEdgesExact(sc: Scan, node: Signal, path: seq<Signal>, n: nat, s: Signal)
    requires n <= |Edges(sc.m, node)|
    ensures LoopFaithful(sc, TraceEdges(sc, node, path, n), node, s,
                         BehindEdges(sc, node, path, n, s), ClockedEdge(sc, node, n))
    decreases Names(sc.m) - Elems(path), 2, n
  {
    if n == 0 { return; }
    var e := Edges(sc.m, node)[n - 1];
    forall x | x in e.rhs ensures x in Names(sc.m) { NamesCover(sc.m, node, e, x); }
    TraceEdgesExact(sc, node, path, n - 1, s);
    var init := TraceEdges(sc, node, path, n - 1);
    assert BehindEdges(sc, node, path, n, s) <==>
           BehindEdges(sc, node, path, n - 1, s) || BehindEdge(sc, e, path, s);
    assert ClockedEdge(sc, node, n) <==> ClockedEdge(sc, node, n - 1) || e.kind == Clocked;
    if e.kind == Clocked {
      assert e == Edge(Clocked, e.rhs) && e in Edges(sc.m, node);
      SeqEdges(sc.m, node, e.rhs);
      ReportExact(sc, node, path, s);
      ThenReports(init, Report(sc, node, path), sc.dest, s);
    } else {
      TraceRefsExact(sc, path, e.rhs, |e.rhs|, s);
      assert e.rhs[..|e.rhs|] == e.rhs;
      ThenReports(init, TraceRefs(sc, path, e.rhs, |e.rhs|), sc.dest, s);
    }
  }

  lemma ReportExact(sc: Scan, node: Signal, path: seq<Signal>, s: Signal)
    requires IsRegister(sc.m, node)
    ensures LoopFaithful(sc, Report(sc, node, path), node, s, false, true)
  {
    var f := Report(sc, node, path);
    if Foreign(sc, node) { assert f.crossings[0].source == node && f.crossings[0] in f.crossings; }
  }

  lemma {:induction false} TraceRefsExact(sc: Scan, path: seq<Signal>, rhs: seq<Signal>, n: nat, s: Signal)
    requires n <= |rhs| && Known(sc.m, rhs)
    ensures Faithful(sc, TraceRefs(sc, path, rhs, n), s,
                     exists x :: x in rhs[..n] && Reach(sc.m, x, s, Elems(path)))
    decreases Names(sc.m) - Elems(path), 1, n
  {
    if n == 0 { return; }
    TraceRefsExact(sc, path, rhs, n - 1, s);
    TraceExact(sc, rhs[n - 1], path, s);
    assert rhs[..n] == rhs[..n - 1] + [rhs[n - 1]];
    ThenReports(TraceRefs(sc, path, rhs, n - 1), Trace(sc, rhs[n - 1], path), sc.dest, s);
  }

  // ---------------------------------------------------------------- the evidence is genuine

  /** A repetition-free backward walk that starts at the destination register, enters through one
      of its clocked right-hand sides and then follows transparent drivers. */
  ghost predicate Evidence(sc: Scan, q: seq<Signal>) {
    && q != [] && q[0] == sc.dest
    && (forall i, j :: 0 <= i < j < |q| ==> q[i] != q[j])
    && forall i :: 0 <= i < |q| - 1 ==> Feeds(sc, q[i], q[i + 1], i)
  }

  ghost predicate Feeds(sc: Scan, a: Signal, b: Signal, depth: nat) {
    if depth == 0 then exists rhs :: SeqDriver(sc.m, a, rhs) && b in rhs else Comb(sc.m, a, b)
  }

  ghost predicate Backed(sc: Scan, c: RawCrossing) {
    && c.dest == sc.dest && c.destDomain == sc.destDomain
    && c.sourceDomain == sc.dm.Of(c.source)
    && (c.resetInvolved <==> exists p :: p in c.path && IsResetName(p))
    && exists q :: Evidence(sc, q) && c.path == Reverse(q) && q[|q| - 1] == c.source
  }

  /** Every reported crossing carries a real path from its source to its destination. */
  lemma {:induction false} TraceBacked(sc: Scan, node: Signal, path: seq<Signal>, c: RawCrossing)
    requires node in Names(sc.m) && Evidence(sc, path)
    requires Feeds(sc, path[|path| - 1], node, |path| - 1)
    requires c in Trace(sc, node, path).crossings
    ensures Backed(sc, c)
    decreases Names(sc.m) - Elems(path), 0, 0
  {
    if node !in path {
      var path' := path + [node];
      assert node !in Names(sc.m) - Elems(path') && node in Names(sc.m) - Elems(path);
      forall i | 0 <= i < |path'| - 1 ensures Feeds(sc, path'[i], path'[i + 1], i) {
        if i < |path| - 1 { assert path'[i] == path[i] && path'[i + 1] == path[i + 1]; }
      }
      assert Evidence(sc, path');
      TraceEdgesBacked(sc, node, path', |Edges(sc.m, node)|, c);
    }
  }

  lemma {:induction false} TraceEdgesBacked(sc: Scan, node: Signal, path: seq<Signal>, n: nat, c: RawCrossing)
    requires n <= |Edges(sc.m, node)| && Evidence(sc, path) && |path| > 1 && path[|path| - 1] == node
    requires c in TraceEdges(sc, node, path, n).crossings
    ensures Backed(sc, c)
    decreases Names(sc.m) - Elems(path), 2, n
  {
    var e := Edges(sc.m, node)[n - 1];
    forall x | x in e.rhs ensures x in Names(sc.m) { NamesCover(sc.m, node, e, x); }
    if c in TraceEdges(sc, node, path, n - 1).crossings {
      TraceEdgesBacked(sc, node, path, n - 1, c);
    } else if e.kind == Clocked {
      assert c in Report(sc, node, path).crossings;
      ReverseElems(path);
      assert node in path;
    } else {
      assert e in Edges(sc.m, node);
      assert forall x :: x in e.rhs ==> Comb(sc.m, node, x);
      TraceRefsBacked(sc, path, e.rhs, |e.rhs|, c);
    }
  }

  lemma {:induction false} TraceRefsBacked(sc: Scan, path: seq<Signal>, rhs: seq<Signal>, n: nat, c: RawCrossing)
    requires n <= |rhs| && Known(sc.m, rhs) && Evidence(sc, path)
    requires forall x :: x in rhs ==> Feeds(sc, path[|path| - 1], x, |path| - 1)
    requires c in TraceRefs(sc, path, rhs, n).crossings
    ensures Backed(sc, c)
    decreases Names(sc.m) - Elems(path), 1, n
  {
    if c in TraceRefs(sc, path, rhs, n - 1).crossings {
      TraceRefsBacked(sc, path, rhs, n - 1, c);
    } else {
      assert rhs[n - 1] in rhs;
      TraceBacked(sc, rhs[n - 1], path, c);
    }
  }

  lemma ReverseElems<T>(s: seq<T>)
    ensures forall x :: x in Reverse(s) <==> x in s
  {
    var r := Reverse(s);
    forall x | x in s ensures x in r {
      var i :| 0 <= i < |s| && s[i] == x;
      assert r[|s| - 1 - i] == x;
    }
  }
}
