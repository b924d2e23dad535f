/** The parsed design record the clock-domain-crossing checker works on, and the
    driver graph it induces (tools/cdc_checker/parser.py, crossings.py). */
module CdcModel {
  import opened Options
  type Signal = string

  datatype Port = Port(name: Signal, direction: string, width: int)
  datatype Assign = Assign(lhs: Signal, rhsIds: seq<Signal>)
  datatype BlockKind = Clocked | Combinational
  datatype Clock = Clock(edge: string, sig: Signal)
  datatype AlwaysBlock = AlwaysBlock(kind: BlockKind, clocks: seq<Clock>, drivers: seq<Assign>)
  datatype Instance = Instance(modName: string, name: string, connections: map<Signal, seq<Signal>>)

  datatype Module = Module(
    name: string,
    ports: map<Signal, Port>,
    widths: map<Signal, int>,
    assigns: seq<Assign>,
    alwaysBlocks: seq<AlwaysBlock>,
    instances: seq<Instance>)

  /** One entry of a signal's driver list: a transparent or a sequential right-hand side. */
  datatype Edge = Edge(kind: BlockKind, rhs: seq<Signal>)
  datatype Wire = Wire(lhs: Signal, edge: Edge)

  function AssignWires(assigns: seq<Assign>, kind: BlockKind): seq<Wire> {
    seq(|assigns|, i requires 0 <= i < |assigns| => Wire(assigns[i].lhs, Edge(kind, assigns[i].rhsIds)))
  }

  function BlockWires(blocks: seq<AlwaysBlock>): seq<Wire> {
    if blocks == [] then [] else
    var last := blocks[|blocks| - 1];
    BlockWires(blocks[..|blocks| - 1]) + AssignWires(last.drivers, last.kind)
  }

  /** Every driver of the module in source order: assigns first, then always blocks. */
  function Wires(m: Module): seq<Wire> {
    AssignWires(m.assigns, Combinational) + BlockWires(m.alwaysBlocks)
  }

  /** The driver list of one signal, in source order. */
  function EdgesIn(ws: seq<Wire>, sig: Signal): seq<Edge> {
    if ws == [] then [] else
    var last := ws[|ws| - 1];
    EdgesIn(ws[..|ws| - 1], sig) + if last.lhs == sig then [last.edge] else []
  }

  function Edges(m: Module, sig: Signal): seq<Edge> {
    EdgesIn(Wires(m), sig)
  }

  /** `r` is assigned by a clocked block from the right-hand side `rhs`. */
  ghost predicate SeqDriver(m: Module, r: Signal, rhs: seq<Signal>) {
    exists b, d :: b in m.alwaysBlocks && b.kind == Clocked && d in b.drivers && d == Assign(r, rhs)
  }

  ghost predicate IsRegister(m: Module, r: Signal) {
    exists rhs :: SeqDriver(m, r, rhs)
  }

  lemma {:induction false} EdgesInMember(ws: seq<Wire>, sig: Signal, e: Edge)
    ensures e in EdgesIn(ws, sig) <==> Wire(sig, e) in ws
  {
    if ws != [] {
      EdgesInMember(ws[..|ws| - 1], sig, e);
      assert ws == ws[..|ws| - 1] + [ws[|ws| - 1]];
    }
  }

  lemma {:induction false} BlockWiresMember(blocks: seq<AlwaysBlock>, w: Wire)
    ensures w in BlockWires(blocks) <==>
            exists b :: b in blocks && b.kind == w.edge.kind && Assign(w.lhs, w.edge.rhs) in b.drivers
  {
    if blocks != [] {
      var init, last := blocks[..|blocks| - 1], blocks[|blocks| - 1];
      BlockWiresMember(init, w);
      assert blocks == init + [last];
      AssignWiresMember(last.drivers, last.kind, w);
    }
  }

  lemma AssignWiresMember(assigns: seq<Assign>, kind: BlockKind, w: Wire)
    ensures w in AssignWires(assigns, kind) <==> w.edge.kind == kind && Assign(w.lhs, w.edge.rhs) in assigns
  {
    var ws := AssignWires(assigns, kind);
    if w.edge.kind == kind && Assign(w.lhs, w.edge.rhs) in assigns {
      var i :| 0 <= i < |assigns| && assigns[i] == Assign(w.lhs, w.edge.rhs);
      assert ws[i] == w;
    }
  }

  /** The driver list says exactly which clocked right-hand sides a signal has. */
  lemma SeqEdges(m: Module, sig: Signal, rhs: seq<Signal>)
    ensures Edge(Clocked, rhs) in Edges(m, sig) <==> SeqDriver(m, sig, rhs)
  {
    EdgesInMember(Wires(m), sig, Edge(Clocked, rhs));
    AssignWiresMember(m.assigns, Combinational, Wire(sig, Edge(Clocked, rhs)));
    BlockWiresMember(m.alwaysBlocks, Wire(sig, Edge(Clocked, rhs)));
  }

  /** All names that some driver reads: the finite universe of the backward search. */
  function NamesIn(ws: seq<Wire>): set<Signal> {
    set w, x | w in ws && x in w.edge.rhs :: x
  }

  function Names(m: Module): set<Signal> { NamesIn(Wires(m)) }

  ghost predicate Known(m: Module, rhs: seq<Signal>) {
    forall x :: x in rhs ==> x in Names(m)
  }

  ghost predicate AllKnown(m: Module, ds: seq<Assign>) {
    forall d :: d in ds ==> Known(m, d.rhsIds)
  }

  lemma NamesCover(m: Module, sig: Signal, e: Edge, x: Signal)
    requires e in Edges(m, sig) && x in e.rhs
    ensures x in Names(m)
  {
    EdgesInMember(Wires(m), sig, e);
    assert Wire(sig, e) in Wires(m);
  }
}
