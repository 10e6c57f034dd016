/** Points of the objective space, weak dominance and Pareto fronts. */
module Pareto {

  /** One value for each objective; every objective is minimised. */
  type Point = seq<nat>

  /** `pareto::dominates`: weak dominance between points of the same space. */
  predicate Dominates(a: Point, b: Point) {
    |a| == |b| && forall i | 0 <= i < |a| :: a[i] <= b[i]
  }

  /** Some point of `s` weakly dominates `p`. */
  ghost predicate Covered(s: set<Point>, p: Point) {
    exists y | y in s :: Dominates(y, p)
  }

  ghost predicate CoversAll(s: set<Point>, feasible: set<Point>) {
    forall p {:trigger Covered(s, p)} | p in feasible :: Covered(s, p)
  }

  ghost predicate Antichain(s: set<Point>) {
    forall p, q | p in s && q in s && Dominates(p, q) :: p == q
  }

  /** The points of `s` that no other point of `s` dominates. */
  ghost function ParetoFront(s: set<Point>): set<Point> {
    set p | p in s && forall q | q in s && Dominates(q, p) :: q == p
  }

  lemma DominatesTransitive(a: Point, b: Point, c: Point)
    requires Dominates(a, b) && Dominates(b, c)
    ensures Dominates(a, c)
  {
  }

  lemma DominatesAntisymmetric(a: Point, b: Point)
    requires Dominates(a, b) && Dominates(b, a)
    ensures a == b
  {
  }

  lemma CoveredBelow(s: set<Point>, p: Point, q: Point)
    requires Covered(s, p) && Dominates(p, q)
    ensures Covered(s, q)
  {
    var y :| y in s && Dominates(y, p);
    DominatesTransitive(y, p, q);
  }

  /** A cover of the feasible points made of feasible points has exactly their Pareto front. */
  lemma CoverHasTheFront(s: set<Point>, feasible: set<Point>)
    requires s <= feasible && CoversAll(s, feasible)
    ensures ParetoFront(s) == ParetoFront(feasible)
  {
    forall p | p in ParetoFront(s)
      ensures p in ParetoFront(feasible)
    {
      forall q | q in feasible && Dominates(q, p)
        ensures q == p
      {
        assert Covered(s, q);
        var y :| y in s && Dominates(y, q);
        DominatesTransitive(y, q, p);
        DominatesAntisymmetric(p, q);
      }
    }
    forall p | p in ParetoFront(feasible)
      ensures p in ParetoFront(s)
    {
      assert Covered(s, p);
      var y :| y in s && Dominates(y, p);
    }
  }

  /** A mutually non-dominated cover made of feasible points is the Pareto front itself. */
  lemma AntichainCoverIsTheFront(s: set<Point>, feasible: set<Point>)
    requires s <= feasible && CoversAll(s, feasible) && Antichain(s)
    ensures s == ParetoFront(feasible)
  {
    assert ParetoFront(s) == s;
    CoverHasTheFront(s, feasible);
  }

  function Below(feasible: set<Point>, q: Point): set<Point> {
    set y | y in feasible && Dominates(y, q)
  }

  /** The Pareto front of a finite set covers the set. */
  lemma {:induction false} FrontCovers(feasible: set<Point>, q: Point)
    requires q in feasible
    ensures Covered(ParetoFront(feasible), q)
    decreases Below(feasible, q)
  {
    if q in ParetoFront(feasible) {
      assert Dominates(q, q);
    } else {
      var y :| y in feasible && Dominates(y, q) && y != q;
      forall z | z in Below(feasible, y)
        ensures Dominates(z, q) && z != q
      {
        DominatesTransitive(z, y, q);
        if z == q {
          DominatesAntisymmetric(y, q);
        }
      }
      assert q in Below(feasible, q) && q !in Below(feasible, y);
      FrontCovers(feasible, y);
      CoveredBelow(ParetoFront(feasible), y, q);
    }
  }
}
