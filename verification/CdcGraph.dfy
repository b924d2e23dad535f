/** Reachability through combinational drivers: the yardstick the two searches of
    tools/cdc_checker/crossings.py are measured against. */
module CdcGraph {
  import opened CdcModel

  /** One backward step: `b` feeds `a` through a transparent driver of `a`. */
  ghost predicate Comb(m: Module, a: Signal, b: Signal) {
    exists e :: e in Edges(m, a) && e.kind == Combinational && b in e.rhs
  }

  ghost predicate IsCombPath(m: Module, p: seq<Signal>) {
    p != [] && forall i :: 0 <= i < |p| - 1 ==> Comb(m, p[i], p[i + 1])
  }

  /** `p` walks backwards from `a` to `b` without touching `avoid`. */
  ghost predicate Walk(m: Module, a: Signal, b: Signal, avoid: set<Signal>, p: seq<Signal>) {
    IsCombPath(m, p) && p[0] == a && p[|p| - 1] == b && forall x :: x in p ==> x !in avoid
  }

  ghost predicate Reach(m: Module, a: Signal, b: Signal, avoid: set<Signal>) {
    exists p :: Walk(m, a, b, avoid, p)
  }

  lemma ReachSelf(m: Module, a: Signal, avoid: set<Signal>)
    requires a !in avoid
    ensures Reach(m, a, a, avoid)
  {
    assert Walk(m, a, a, avoid, [a]);
  }

  lemma ReachStep(m: Module, a: Signal, b: Signal, c: Signal, avoid: set<Signal>)
    requires a !in avoid && Comb(m, a, b) && Reach(m, b, c, avoid)
    ensures Reach(m, a, c, avoid)
  {
    var p :| Walk(m, b, c, avoid, p);
    var q := [a] + p;
    assert forall i :: 0 <= i < |q| - 1 ==> Comb(m, q[i], q[i + 1]) by {
      forall i | 0 <= i < |q| - 1 ensures Comb(m, q[i], q[i + 1]) {
        if i > 0 { assert q[i] == p[i - 1] && q[i + 1] == p[i]; }
      }
    }
    assert Walk(m, a, c, avoid, q);
  }

  lemma ReachMono(m: Module, a: Signal, b: Signal, avoid: set<Signal>, more: set<Signal>)
    requires avoid <= more && Reach(m, a, b, more)
    ensures Reach(m, a, b, avoid)
  {
    var p :| Walk(m, a, b, more, p);
    assert Walk(m, a, b, avoid, p);
  }

  /** The recurrence a search that never revisits a node of its own path relies on: after
      leaving `a`, a target can still be reached without coming back through `a`. */
  lemma ReachUnfold(m: Module, a: Signal, b: Signal, avoid: set<Signal>)
    ensures Reach(m, a, b, avoid) <==>
            a !in avoid && (a == b || exists c :: Comb(m, a, c) && Reach(m, c, b, avoid + {a}))
  {
    if Reach(m, a, b, avoid) {
      var p :| Walk(m, a, b, avoid, p);
      assert a in p;
      if a != b { LeaveForGood(m, a, b, avoid, p); }
    }
    if a !in avoid && a == b { ReachSelf(m, a, avoid); }
    if a !in avoid && exists c :: Comb(m, a, c) && Reach(m, c, b, avoid + {a}) {
      var c :| Comb(m, a, c) && Reach(m, c, b, avoid + {a});
      ReachMono(m, c, b, avoid, avoid + {a});
      ReachStep(m, a, c, b, avoid);
    }
  }

  /** Cut a walk at its last visit to `a`. */
  lemma {:induction false} LeaveForGood(m: Module, a: Signal, b: Signal, avoid: set<Signal>, p: seq<Signal>)
    requires IsCombPath(m, p) && p[|p| - 1] == b && (forall x :: x in p ==> x !in avoid)
    requires a in p && a != b
    ensures exists c :: Comb(m, a, c) && Reach(m, c, b, avoid + {a})
    decreases |p|
  {
    var rest := p[1..];
    assert |p| > 1;
    if a in rest {
      LeaveForGood(m, a, b, avoid, rest);
    } else {
      assert p[0] == a;
      assert Comb(m, p[0], p[1]);
      assert Walk(m, p[1], b, avoid + {a}, rest);
    }
  }

  /** A set closed under backward steps contains everything reachable from it. */
  lemma {:induction false} ClosedUnderReach(m: Module, s: set<Signal>, p: seq<Signal>)
    requires IsCombPath(m, p) && p[0] in s
    requires forall a, b :: a in s && Comb(m, a, b) ==> b in s
    ensures p[|p| - 1] in s
  {
    if |p| > 1 {
      assert Comb(m, p[0], p[1]);
      ClosedUnderReach(m, s, p[1..]);
    }
  }

  lemma {:induction false} ReachInNames(m: Module, a: Signal, b: Signal, p: seq<Signal>)
    requires Walk(m, a, b, {}, p)
    ensures b == a || b in Names(m)
  {
    if |p| > 1 {
      var k := |p| - 2;
      assert Comb(m, p[k], p[k + 1]);
      var e :| e in Edges(m, p[k]) && e.kind == Combinational && p[k + 1] in e.rhs;
      NamesCover(m, p[k], e, p[k + 1]);
    }
  }

  /** Where backward traversal stops: undriven nets and sequentially driven signals. */
  ghost predicate Endpoint(m: Module, n: Signal) {
    Edges(m, n) == [] || IsRegister(m, n)
  }

  /** `n` feeds one of `seeds` through transparent drivers only. */
  ghost predicate Fed(m: Module, seeds: seq<Signal>, n: Signal) {
    exists s :: s in seeds && Reach(m, s, n, {})
  }

  ghost function Universe(m: Module, seeds: seq<Signal>): set<Signal> {
    Names(m) + set s | s in seeds
  }

  lemma FedInUniverse(m: Module, seeds: seq<Signal>, n: Signal)
    requires Fed(m, seeds, n)
    ensures n in Universe(m, seeds)
  {
    var s :| s in seeds && Reach(m, s, n, {});
    var p :| Walk(m, s, n, {}, p);
    ReachInNames(m, s, n, p);
  }

  /** The fan-in cone of `seeds`: every endpoint that feeds one of them through
      combinational drivers only. */
  ghost function Cone(m: Module, seeds: seq<Signal>): (c: set<Signal>)
    ensures forall n :: n in c <==> Endpoint(m, n) && Fed(m, seeds, n)
  {
    forall n | Fed(m, seeds, n) ensures n in Universe(m, seeds) { FedInUniverse(m, seeds, n); }
    set n | n in Universe(m, seeds) && Endpoint(m, n) && Fed(m, seeds, n)
  }
}
