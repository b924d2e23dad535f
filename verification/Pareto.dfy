/** The power, performance and area frontier (`PPAOptimizer` in src/mind3/core/driver.py). */
module Pareto {
  import opened Options

  datatype Point = Point(
    turn: int, frequency: real, setupSlack: real, power: Option<real>, area: Option<real>,
    passesTiming: bool, passesPhysical: bool)
  {
    predicate Valid() { passesTiming && passesPhysical }
  }

  /** A missing power or area counts as infinite. */
  predicate AtMost(a: Option<real>, b: Option<real>) { b.None? || (a.Some? && a.value <= b.value) }

  predicate Below(a: Option<real>, b: Option<real>) { a.Some? && (b.None? || a.value < b.value) }

  predicate NoWorse(q: Point, p: Point) {
    q.frequency >= p.frequency && AtMost(q.power, p.power) && AtMost(q.area, p.area)
  }

  predicate Dominates(q: Point, p: Point) {
    NoWorse(q, p) && (q.frequency > p.frequency || Below(q.power, p.power) || Below(q.area, p.area))
  }

  function ValidOnes(points: seq<Point>): seq<Point> {
    if points == [] then [] else
    var last := points[|points| - 1];
    ValidOnes(points[..|points| - 1]) + if last.Valid() then [last] else []
  }

  ghost predicate DominatedIn(p: Point, among: seq<Point>) {
    exists j :: 0 <= j < |among| && Dominates(among[j], p)
  }

  /** The points of `some` that nothing among `all` dominates, in order. */
  ghost function Undominated(some: seq<Point>, all: seq<Point>): seq<Point> {
    if some == [] then [] else
    var last := some[|some| - 1];
    Undominated(some[..|some| - 1], all) + if DominatedIn(last, all) then [] else [last]
  }

  ghost function Frontier(points: seq<Point>): seq<Point> { Undominated(ValidOnes(points), ValidOnes(points)) }

  class Optimizer {
    var points: seq<Point>

    constructor ()
      ensures points == []
    {
      points := [];
    }

    method RecordPoint(p: Point)
      modifies this
      ensures points == old(points) + [p]
    {
      points := points + [p];
    }

    /** The nested loops of the source: the first dominating point ends the inner one, a point equal to the
        candidate is skipped. */
    method GetParetoFrontier() returns (frontier: seq<Point>)
      ensures frontier == Frontier(points)
    {
      var valid := [];
      for i := 0 to |points|
        invariant valid == ValidOnes(points[..i])
      {
        assert points[..i + 1][..i] == points[..i];
        if points[i].Valid() { valid := valid + [points[i]]; }
      }
      assert points[..|points|] == points;
      frontier := [];
      for i := 0 to |valid|
        invariant frontier == Undominated(valid[..i], valid)
      {
        assert valid[..i + 1][..i] == valid[..i];
        var dominated := false;
        for j := 0 to |valid|
          invariant !dominated
          invariant forall k :: 0 <= k < j ==> !Dominates(valid[k], valid[i])
        {
          if valid[j] == valid[i] { continue; }
          if Dominates(valid[j], valid[i]) {
            dominated := true;
            break;
          }
        }
        if !dominated { frontier := frontier + [valid[i]]; }
      }
      assert valid[..|valid|] == valid;
    }
  }

  // ---------------------------------------------------------------- dominance is a strict order

  lemma NoWorseTransitive(a: Point, b: Point, c: Point)
    requires NoWorse(a, b) && NoWorse(b, c)
    ensures NoWorse(a, c)
    ensures Dominates(a, b) || Dominates(b, c) ==> Dominates(a, c)
  {
  }

  /** It is no worse on every count, and the other way round that does not hold. */
  lemma DominatesExactly(q: Point, p: Point)
    ensures Dominates(q, p) <==> NoWorse(q, p) && !NoWorse(p, q)
  {
  }

  // ---------------------------------------------------------------- what the frontier is

  lemma {:induction false} InValidOnes(points: seq<Point>, p: Point)
    ensures p in ValidOnes(points) <==> p in points && p.Valid()
  {
    if points != [] {
      var n := |points| - 1;
      InValidOnes(points[..n], p);
      assert points == points[..n] + [points[n]];
    }
  }

  lemma {:induction false} InUndominated(some: seq<Point>, all: seq<Point>, p: Point)
    ensures p in Undominated(some, all) <==> p in some && !DominatedIn(p, all)
  {
    if some != [] {
      var n := |some| - 1;
      InUndominated(some[..n], all, p);
      assert some == some[..n] + [some[n]];
    }
  }

  /** Exactly the valid points that no valid point dominates. */
  lemma FrontierExactly(points: seq<Point>, p: Point)
    ensures p in Frontier(points) <==>
            p in points && p.Valid() && forall q :: q in points && q.Valid() ==> !Dominates(q, p)
  {
    var valid := ValidOnes(points);
    InValidOnes(points, p);
    InUndominated(valid, valid, p);
    forall q ensures q in valid <==> q in points && q.Valid() { InValidOnes(points, q); }
    if forall q :: q in points && q.Valid() ==> !Dominates(q, p) {
      forall j | 0 <= j < |valid| ensures !Dominates(valid[j], p) { assert valid[j] in valid; }
    }
  }

  /** In recording order, with repetitions kept: the frontier picks increasing positions. */
  ghost predicate Picks(frontier: seq<Point>, points: seq<Point>, at: seq<nat>) {
    && |at| == |frontier|
    && (forall i :: 0 <= i < |at| ==> at[i] < |points| && points[at[i]] == frontier[i])
    && (forall i, j :: 0 <= i < j < |at| ==> at[i] < at[j])
  }

  ghost predicate Misses(some: seq<Point>, all: seq<Point>, at: seq<nat>) {
    exists i :: 0 <= i < |some| && !DominatedIn(some[i], all) && i !in at
  }

  /** The frontier is the valid points at some increasing positions, and misses no undominated position. */
  lemma {:induction false} InRecordingOrder(some: seq<Point>, all: seq<Point>) returns (at: seq<nat>)
    ensures Picks(Undominated(some, all), some, at) && !Misses(some, all, at)
  {
    if some == [] {
      at := [];
    } else {
      var n := |some| - 1;
      var before := InRecordingOrder(some[..n], all);
      at := before + if DominatedIn(some[n], all) then [] else [n];
      PickMore(Undominated(some[..n], all), some, before);
      forall i | 0 <= i < |some| && !DominatedIn(some[i], all) ensures i in at {
        if i < n { assert some[..n][i] == some[i] && i in before; }
      }
    }
  }

  lemma PickMore(frontier: seq<Point>, some: seq<Point>, at: seq<nat>)
    requires some != [] && Picks(frontier, some[..|some| - 1], at)
    ensures Picks(frontier, some, at) && Picks(frontier + [some[|some| - 1]], some, at + [|some| - 1])
  {
  }

  // ---------------------------------------------------------------- every valid point is covered

  ghost function Dominators(valid: seq<Point>, p: Point): set<Point> {
    set q | q in valid && Dominates(q, p)
  }

  lemma {:induction false} Covered(valid: seq<Point>, p: Point) returns (q: Point)
    requires p in valid
    ensures q in valid && NoWorse(q, p) && !DominatedIn(q, valid)
    decreases |Dominators(valid, p)|
  {
    if DominatedIn(p, valid) {
      var j :| 0 <= j < |valid| && Dominates(valid[j], p);
      var better := valid[j];
      FewerDominators(valid, better, p);
      q := Covered(valid, better);
      NoWorseTransitive(q, better, p);
    } else {
      q := p;
    }
  }

  lemma FewerDominators(valid: seq<Point>, better: Point, p: Point)
    requires better in valid && Dominates(better, p)
    ensures |Dominators(valid, better)| < |Dominators(valid, p)|
  {
    forall q | q in Dominators(valid, better) ensures q in Dominators(valid, p) { NoWorseTransitive(q, better, p); }
    assert better in Dominators(valid, p) && better !in Dominators(valid, better);
    SmallerSet(Dominators(valid, better), Dominators(valid, p));
  }

  lemma SmallerSet(a: set<Point>, b: set<Point>)
    requires a < b
    ensures |a| < |b|
  {
    assert b == a + (b - a);
  }

  /** Every valid point is matched or beaten on all three counts by a point of the frontier; so the frontier is
      empty only when there is no valid point. */
  lemma FrontierCovers(points: seq<Point>, p: Point) returns (q: Point)
    requires p in points && p.Valid()
    ensures q in Frontier(points) && NoWorse(q, p)
  {
    var valid := ValidOnes(points);
    InValidOnes(points, p);
    q := Covered(valid, p);
    InUndominated(valid, valid, q);
  }

  /** Taking the frontier again changes nothing. */
  lemma FrontierStable(points: seq<Point>)
    ensures Frontier(Frontier(points)) == Frontier(points)
  {
    var f, valid := Frontier(points), ValidOnes(points);
    forall i | 0 <= i < |f| ensures f[i].Valid() && !DominatedIn(f[i], f) {
      assert f[i] in f;
      InUndominated(valid, valid, f[i]);
      InValidOnes(points, f[i]);
      forall j | 0 <= j < |f| ensures !Dominates(f[j], f[i]) {
        assert f[j] in f;
        InUndominated(valid, valid, f[j]);
      }
    }
    AllValid(f);
    AllUndominated(f, f);
  }

  lemma {:induction false} AllValid(points: seq<Point>)
    requires forall i :: 0 <= i < |points| ==> points[i].Valid()
    ensures ValidOnes(points) == points
  {
    if points != [] {
      var n := |points| - 1;
      AllValid(points[..n]);
      assert points == points[..n] + [points[n]];
    }
  }

  lemma {:induction false} AllUndominated(some: seq<Point>, all: seq<Point>)
    requires forall i :: 0 <= i < |some| ==> !DominatedIn(some[i], all)
    ensures Undominated(some, all) == some
  {
    if some != [] {
      var n := |some| - 1;
      AllUndominated(some[..n], all);
      assert some == some[..n] + [some[n]];
    }
  }
}
