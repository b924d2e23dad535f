/** Crossing detection (tools/cdc_checker/crossings.py): the driver map, the worklist cone search,
    the recursive simple-path search and the duplicate collapse. */
module CdcCrossings {
  import opened Chars
  import opened Options
  import opened CdcModel
  import opened CdcGraph
  import opened CdcClocks
  import opened Ordering
  import opened Sequences

  datatype RawCrossing = RawCrossing(
    source: Signal, sourceDomain: Option<Signal>, dest: Signal, destDomain: Signal,
    path: seq<Signal>, resetInvolved: bool)

  /** Findings in the order the search appends them. */
  datatype Found = Found(crossings: seq<RawCrossing>, hits: seq<(Signal, Signal)>)
  {
    function Then(next: Found): Found { Found(crossings + next.crossings, hits + next.hits) }
  }

  const Nothing := Found([], [])

  lemma ThenAssoc(a: Found, b: Found, c: Found)
    ensures a.Then(b).Then(c) == a.Then(b.Then(c))
  {
    assert a.crossings + b.crossings + c.crossings == a.crossings + (b.crossings + c.crossings);
    assert a.hits + b.hits + c.hits == a.hits + (b.hits + c.hits);
  }

  lemma ThenNothing(a: Found)
    ensures a.Then(Nothing) == a && Nothing.Then(a) == a
  {
  }

  class Analysis {
    var crossings: seq<RawCrossing>
    var unknownHits: seq<(Signal, Signal)>
    const domains: DomainMap

    function Findings(): Found
      reads this
    {
      Found(crossings, unknownHits)
    }

    method AddHit(dest: Signal, node: Signal)
      modifies this
      ensures Findings() == old(Findings()).Then(Found([], [(dest, node)]))
    {
      unknownHits := unknownHits + [(dest, node)];
    }

    method AddCrossing(c: RawCrossing)
      modifies this
      ensures Findings() == old(Findings()).Then(Found([c], []))
    {
      crossings := crossings + [c];
    }

    constructor (dm: DomainMap)
      ensures crossings == [] && unknownHits == [] && domains == dm
    {
      crossings, unknownHits, domains := [], [], dm;
    }
  }

  // ---------------------------------------------------------------- reset names

  function Lower(s: string): (r: string)
    ensures |r| == |s|
  {
    seq(|s|, i requires 0 <= i < |s| => if 'A' <= s[i] <= 'Z' then s[i] + ('a' - 'A') else s[i])
  }

  /** A name that starts with rst, reset or arst in any case and is made of word characters. */
  predicate IsResetName(name: Signal) {
    var low := Lower(name);
    ("rst" <= low || "reset" <= low || "arst" <= low) && forall c :: c in name ==> Word(c)
  }

  lemma LowerJoins(a: string, b: string)
    ensures Lower(a + b) == Lower(a) + Lower(b)
  {
  }

  /** rst, reset or arst, in any letter case, with anything that is a word after it. */
  lemma ResetNames(head: string, tail: string)
    requires Lower(head) in {"rst", "reset", "arst"} && (forall c :: c in head ==> Word(c)) && forall c :: c in tail ==> Word(c)
    ensures IsResetName(head + tail)
  {
    LowerJoins(head, tail);
    assert Lower(head) <= Lower(head + tail);
  }

  /** And no other name. */
  lemma OnlyResetNames(name: string) returns (head: string, tail: string)
    requires IsResetName(name)
    ensures name == head + tail && Lower(head) in {"rst", "reset", "arst"} && forall c :: c in name ==> Word(c)
  {
    var low := Lower(name);
    var n := if "rst" <= low then 3 else if "reset" <= low then 5 else 4;
    head, tail := name[..n], name[n..];
    assert name == head + tail && Lower(head) == low[..n];
    assert low[..n] == if "rst" <= low then "rst" else if "reset" <= low then "reset" else "arst";
  }

  // ---------------------------------------------------------------- driver map

  ghost predicate IsDriverMap(m: Module, drivers: map<Signal, seq<Edge>>) {
    IsEdgeMap(Wires(m), drivers)
  }

  ghost predicate IsEdgeMap(ws: seq<Wire>, drivers: map<Signal, seq<Edge>>) {
    forall sig :: (if sig in drivers then drivers[sig] else []) == EdgesIn(ws, sig) &&
                  (sig in drivers ==> drivers[sig] != [])
  }

  lemma EdgeMapStep(ws: seq<Wire>, drivers: map<Signal, seq<Edge>>, w: Wire)
    requires IsEdgeMap(ws, drivers)
    ensures IsEdgeMap(ws + [w], WithEdge(drivers, w.lhs, w.edge))
  {
    var ws' := ws + [w];
    assert ws'[..|ws'| - 1] == ws;
    forall sig ensures EdgesIn(ws', sig) == EdgesIn(ws, sig) + if w.lhs == sig then [w.edge] else [] { }
  }

  lemma AssignWiresSnoc(assigns: seq<Assign>, i: nat, kind: BlockKind)
    requires i < |assigns|
    ensures AssignWires(assigns[..i + 1], kind) ==
            AssignWires(assigns[..i], kind) + [Wire(assigns[i].lhs, Edge(kind, assigns[i].rhsIds))]
  {
  }

  lemma BlockWiresSnoc(blocks: seq<AlwaysBlock>, i: nat)
    requires i < |blocks|
    ensures BlockWires(blocks[..i + 1]) == BlockWires(blocks[..i]) + AssignWires(blocks[i].drivers, blocks[i].kind)
  {
    assert blocks[..i + 1][..i] == blocks[..i];
  }

  /** `drivers.setdefault(lhs, []).append(edge)`. */
  function WithEdge(drivers: map<Signal, seq<Edge>>, lhs: Signal, edge: Edge): map<Signal, seq<Edge>> {
    drivers[lhs := (if lhs in drivers then drivers[lhs] else []) + [edge]]
  }

  lemma AddStep(ws: seq<Wire>, front: seq<Wire>, more: seq<Wire>, w: Wire, drivers: map<Signal, seq<Edge>>)
    requires IsEdgeMap(ws + front, drivers) && more == front + [w]
    ensures IsEdgeMap(ws + more, WithEdge(drivers, w.lhs, w.edge))
  {
    EdgeMapStep(ws + front, drivers, w);
    Assoc(ws, front, [w]);
  }

  method AddAll(drivers: map<Signal, seq<Edge>>, driven: set<Signal>, assigns: seq<Assign>, kind: BlockKind,
                ghost ws: seq<Wire>)
    returns (drivers': map<Signal, seq<Edge>>, driven': set<Signal>)
    requires IsEdgeMap(ws, drivers) && driven == drivers.Keys
    ensures IsEdgeMap(ws + AssignWires(assigns, kind), drivers') && driven' == drivers'.Keys
  {
    drivers', driven' := drivers, driven;
    assert ws + AssignWires(assigns[..0], kind) == ws;
    for i := 0 to |assigns|
      invariant IsEdgeMap(ws + AssignWires(assigns[..i], kind), drivers') && driven' == drivers'.Keys
    {
      AssignWiresSnoc(assigns, i, kind);
      AddStep(ws, AssignWires(assigns[..i], kind), AssignWires(assigns[..i + 1], kind),
              Wire(assigns[i].lhs, Edge(kind, assigns[i].rhsIds)), drivers');
      drivers' := WithEdge(drivers', assigns[i].lhs, Edge(kind, assigns[i].rhsIds));
      driven' := driven' + {assigns[i].lhs};
    }
    assert assigns[..|assigns|] == assigns;
  }

  method BuildDrivers(m: Module) returns (drivers: map<Signal, seq<Edge>>, driven: set<Signal>)
    ensures IsDriverMap(m, drivers)
    ensures driven == drivers.Keys
  {
    drivers, driven := AddAll(map[], {}, m.assigns, Combinational, []);
    ghost var base := AssignWires(m.assigns, Combinational);
    assert [] + base == base == base + BlockWires(m.alwaysBlocks[..0]);
    for i := 0 to |m.alwaysBlocks|
      invariant IsEdgeMap(base + BlockWires(m.alwaysBlocks[..i]), drivers) && driven == drivers.Keys
    {
      var block := m.alwaysBlocks[i];
      BlockWiresSnoc(m.alwaysBlocks, i);
      drivers, driven := AddAll(drivers, driven, block.drivers, block.kind, base + BlockWires(m.alwaysBlocks[..i]));
      assert base + BlockWires(m.alwaysBlocks[..i]) + AssignWires(block.drivers, block.kind)
          == base + BlockWires(m.alwaysBlocks[..i + 1]);
    }
    assert m.alwaysBlocks[..|m.alwaysBlocks|] == m.alwaysBlocks;
  }

  // ---------------------------------------------------------------- worklist cone search

  /** Everything met so far is fed by some seed, and nothing fed by a visited node is forgotten. */
  ghost predicate InFlight(m: Module, seeds: seq<Signal>, visited: set<Signal>, stack: seq<Signal>) {
    && (forall s :: s in seeds ==> s in visited || s in stack)
    && (forall n :: n in visited || n in stack ==> Fed(m, seeds, n))
    && (forall a, b :: a in visited && Comb(m, a, b) ==> b in visited || b in stack)
  }

  /** The worklist search terminates on every driver graph, loops included, and returns exactly
      the endpoints of the cone. */
  method CombCone(m: Module, seeds: seq<Signal>) returns (found: set<Signal>)
    ensures found == Cone(m, seeds)
  {
    var drivers, _ := BuildDrivers(m);
    found := {};
    var stack := seeds;
    var visited: set<Signal> := {};
    ghost var universe := Universe(m, seeds);
    forall s | s in seeds ensures Fed(m, seeds, s) { ReachSelf(m, s, {}); }
    while stack != []
      invariant InFlight(m, seeds, visited, stack)
      invariant forall n :: n in found <==> n in visited && Endpoint(m, n)
      decreases universe - visited, |stack|
    {
      var node := stack[|stack| - 1];
      ghost var before := stack;
      PopLast(stack);
      stack := stack[..|stack| - 1];
      assert Fed(m, seeds, node);
      if node in visited {
        DropVisited(m, seeds, visited, before, node, stack);
      } else {
        FedInUniverse(m, seeds, node);
        var stack', isEnd := Expand(m, node, if node in drivers then drivers[node] else [], stack);
        ExpandKeeps(m, seeds, visited, before, node, stack, stack');
        stack := stack';
        visited := visited + {node};
        if isEnd { found := found + {node}; }
      }
    }
    ConeComplete(m, seeds, visited, found);
  }

  lemma PopLast<T>(s: seq<T>)
    requires s != []
    ensures s == s[..|s| - 1] + [s[|s| - 1]] && s[|s| - 1] in s
  {
  }

  lemma DropVisited(m: Module, seeds: seq<Signal>, visited: set<Signal>, before: seq<Signal>,
                    node: Signal, stack: seq<Signal>)
    requires InFlight(m, seeds, visited, before) && before == stack + [node] && node in visited
    ensures InFlight(m, seeds, visited, stack)
  {
    forall x | x in before && x != node ensures x in stack { }
    forall x | x in stack ensures x in before { }
  }

  /** The inner loop over one node's drivers: push what transparent drivers read, and say whether
      a sequential driver makes the node an endpoint. */
  method Expand(m: Module, node: Signal, edges: seq<Edge>, stack: seq<Signal>) returns (stack': seq<Signal>, isEnd: bool)
    requires edges == Edges(m, node)
    ensures stack <= stack'
    ensures forall x :: x in stack' <==> x in stack || Comb(m, node, x)
    ensures isEnd <==> Endpoint(m, node)
  {
    stack', isEnd := stack, edges == [];
    for i := 0 to |edges|
      invariant stack <= stack'
      invariant forall x :: x in stack' <==>
                  x in stack || exists j :: 0 <= j < i && edges[j].kind == Combinational && x in edges[j].rhs
      invariant isEnd <==> edges == [] || exists j :: 0 <= j < i && edges[j].kind == Clocked
    {
      if edges[i].kind == Clocked { isEnd := true; } else { stack' := stack' + edges[i].rhs; }
    }
    forall x ensures x in stack' <==> x in stack || Comb(m, node, x) {
      if Comb(m, node, x) {
        var e :| e in Edges(m, node) && e.kind == Combinational && x in e.rhs;
        var j :| 0 <= j < |edges| && edges[j] == e;
      }
    }
    if isEnd && edges != [] {
      var j :| 0 <= j < |edges| && edges[j].kind == Clocked;
      assert edges[j] == Edge(Clocked, edges[j].rhs);
      SeqEdges(m, node, edges[j].rhs);
    }
    if IsRegister(m, node) {
      var rhs :| SeqDriver(m, node, rhs);
      SeqEdges(m, node, rhs);
      var j :| 0 <= j < |edges| && edges[j] == Edge(Clocked, rhs);
    }
  }

  lemma ExpandKeeps(m: Module, seeds: seq<Signal>, visited: set<Signal>, before: seq<Signal>,
                    node: Signal, stack: seq<Signal>, stack': seq<Signal>)
    requires InFlight(m, seeds, visited, before) && before == stack + [node]
    requires stack <= stack'
    requires forall x :: x in stack' <==> x in stack || Comb(m, node, x)
    ensures InFlight(m, seeds, visited + {node}, stack')
  {
    assert Fed(m, seeds, node) by { assert node in before; }
    forall x | x in stack' ensures Fed(m, seeds, x) {
      if Comb(m, node, x) { FedStep(m, seeds, node, x); } else { assert x in before; }
    }
    forall x | x in before && x != node ensures x in stack' { assert x in stack; }
  }

  lemma FedStep(m: Module, seeds: seq<Signal>, a: Signal, b: Signal)
    requires Fed(m, seeds, a) && Comb(m, a, b)
    ensures Fed(m, seeds, b)
  {
    var s :| s in seeds && Reach(m, s, a, {});
    ReachExtend(m, s, a, b);
  }

  lemma ReachExtend(m: Module, a: Signal, b: Signal, c: Signal)
    requires Reach(m, a, b, {}) && Comb(m, b, c)
    ensures Reach(m, a, c, {})
  {
    var p :| Walk(m, a, b, {}, p);
    var q := p + [c];
    forall i | 0 <= i < |q| - 1 ensures Comb(m, q[i], q[i + 1]) {
      if i < |p| - 1 { assert q[i] == p[i] && q[i + 1] == p[i + 1]; }
    }
    assert Walk(m, a, c, {}, q);
  }

  lemma ConeComplete(m: Module, seeds: seq<Signal>, visited: set<Signal>, found: set<Signal>)
    requires InFlight(m, seeds, visited, [])
    requires forall n :: n in found <==> n in visited && Endpoint(m, n)
    ensures found == Cone(m, seeds)
  {
    forall n ensures n in found <==> n in Cone(m, seeds) {
      if Endpoint(m, n) && Fed(m, seeds, n) {
        var s :| s in seeds && Reach(m, s, n, {});
        var p :| Walk(m, s, n, {}, p);
        ClosedUnderReach(m, visited, p);
      }
    }
  }
}
