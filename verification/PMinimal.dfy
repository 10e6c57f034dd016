/** Sequential P-minimal: descend below the last solution until nothing dominates it, then look elsewhere. */
module PMinimal {
  import opened Cnf
  import opened Pareto
  import opened Encoding
  import opened ParallelMO
  import opened Archive

  /** The last found point is Pareto-optimal once the region that dominates it is refuted. */
  lemma LastIsOptimal(p: Problem, db: Db, conflict: Clause, before: set<Point>, ul: Point)
    requires Valid(p) && Blocked(p, db, before + {ul}) && !Covered(before, ul)
    requires Entails(db, conflict) && Negates(conflict, BelowLits(p.roots, ul))
    ensures ul in ParetoFront(FeasiblePoints(p))
  {
    BlockedIsSound(p, db, before + {ul});
    var _ := FeasiblePoint(p, ul);
    forall q | q in FeasiblePoints(p) && Dominates(q, ul)
      ensures q == ul
    {
      RefutedRegionIsCovered(p, before + {ul}, db, conflict, ul, q);
      var t :| t in before + {ul} && Dominates(t, q);
      DominatesTransitive(t, q, ul);
      DominatesAntisymmetric(q, ul);
    }
  }

  /** What the database holds: the formula, and the blocks of the found points. */
  lemma DatabaseHolds(p: Problem, db: Db, found: set<Point>)
    requires Blocked(p, db, found)
    ensures forall a: Assignment | SatDb(db, a) :: SatDb(p.hard, a)
    ensures forall y | y in found :: db + {BlockClause(p.roots, y)} == db
  {
  }

  /** Nothing is left to find once the database is refuted without assumptions. */
  lemma NothingLeft(p: Problem, db: Db, conflict: Clause, found: set<Point>, points: set<Point>)
    requires Valid(p) && Blocked(p, db, found) && Fronts(found, points)
    requires Entails(db, conflict) && Negates(conflict, {})
    ensures points == ParetoFront(FeasiblePoints(p)) <= found
    ensures points == {} ==> FeasiblePoints(p) == {}
  {
    NegatesNothing(conflict);
    BlockedIsSound(p, db, found);
    EmptyConflictCovers(p, found, db);
    FinalFront(found, points, FeasiblePoints(p));
    if q :| q in FeasiblePoints(p) {
      assert Covered(points, q);
    }
  }

  /** A search from a dominating point is over for the point it left. */
  lemma LeftBehind(p: Problem, above: Point, y: Point)
    requires y in FeasiblePoints(p) && Dominates(y, above) && y != above
    ensures above !in ParetoFront(FeasiblePoints(p))
  {
  }

  /** Exactly the Pareto-optimal points found so far are reported, apart from a pending one. */
  ghost predicate Reported(front: set<Point>, found: set<Point>, optimal: set<Point>, pending: set<Point>) {
    optimal <= front && forall y | y in found && y in front :: y in optimal || y in pending
  }

  lemma FewerThanFeasible(a: set<Point>, b: set<Point>)
    requires a <= b
    ensures |a| <= |b|
  {
    if a != {} {
      var x :| x in a;
      FewerThanFeasible(a - {x}, b - {x});
    }
  }

  datatype Answer = Unknown | Optimum | Unsatisfiable

  class Search {
    const p: Problem
    const solver: Solver
    const solution: Solution
    var assumptions: set<Lit>
    var ul: Point
    var answer: Answer
    var optimal: set<Point>
    var nbSatisfiable: nat
    var patience: nat
    ghost var found: set<Point>

    /** `patience` is how often the search retries an exhausted budget before it is told to stop. */
    constructor (p: Problem, solver: Solver, solution: Solution, patience: nat)
      ensures this.p == p && this.solver == solver && this.solution == solution && this.patience == patience
      ensures nbSatisfiable == 0 && found == {} && optimal == {} && answer == Unknown
    {
      this.p, this.solver, this.solution, this.patience := p, solver, solution, patience;
      assumptions, ul, answer, nbSatisfiable, found, optimal := {}, [], Unknown, 0, {}, {};
    }

    ghost predicate Inv()
      reads this, solver, solution
    {
      && Valid(p) && solver.Valid() && p.base <= solver.nVars
      && Blocked(p, solver.clauses, found) && Fronts(found, Points(solution.entries))
      && nbSatisfiable == |found|
    }

    ghost predicate Outcome(sat: Cnf.Outcome, assumed: set<Lit>)
      reads solver
    {
      && (sat == Sat ==> SatDb(solver.clauses, solver.model) && AllHold(assumed, solver.model))
      && (sat == Unsat ==> Entails(solver.clauses, solver.conflict) && Negates(solver.conflict, assumed))
    }

    /** Every call that gave up has cost a retry, and the search only stops when none is left. */
    ghost predicate Patient(patience0: nat, gaveUp0: nat, sat: Cnf.Outcome)
      reads this, solver
    {
      && solver.gaveUp + patience == gaveUp0 + patience0 + (if sat == Undef then 1 else 0)
      && (sat == Undef ==> patience == 0)
    }

    /** `solve`, again after every exhausted budget; `Undef` means the search was told to stop, after all
        retries. */
    method SolveRetrying() returns (sat: Cnf.Outcome)
      requires Inv() && LitsBelow(assumptions, solver.nVars)
      modifies this`patience, solver`model, solver`conflict, solver`gaveUp
      ensures Inv() && Outcome(sat, assumptions) && Patient(old(patience), old(solver.gaveUp), sat)
    {
      sat := solver.Solve(assumptions, true);
      while sat == Undef && patience > 0
        invariant Inv() && Outcome(sat, assumptions)
        invariant solver.gaveUp + patience == old(solver.gaveUp + patience) + if sat == Undef then 1 else 0
        decreases patience
      {
        patience := patience - 1;
        sat := solver.Solve(assumptions, true);
      }
    }

    /** Take in a model: it enters the archive, and its dominated region is blocked. */
    method Accept()
      requires Inv() && SatDb(solver.clauses, solver.model)
      modifies this`ul, this`nbSatisfiable, this`found, solver`clauses, solution
      ensures Inv() && ul == Eval(p, solver.model) && ul in FeasiblePoints(p) && |ul| == |p.roots|
      ensures !Covered(old(found), ul) && ul !in old(found) && found == old(found) + {ul}
    {
      hide FeasiblePoints, Valid, Antichain, Points, Blocks, BlockClause, SatDb, Covered;
      var y := Eval(p, solver.model);
      ModelIsNew(p, solver.clauses, found, Points(solution.entries), solver.model);
      var _ := FeasiblePoint(p, y);
      FrontsGrow(found, solution.entries, solver.model, y);
      BlockedGrows(p, solver.clauses, found, y);
      var added := solution.PushSafe(solver.model, y);
      ul := solution.entries[|solution.entries| - 1].point;
      nbSatisfiable := nbSatisfiable + 1;
      BlockDominatedRegion(solver, p, p.roots, ul);
      found := found + {ul};
    }

    /** Solve below `ul`: a model dominates it, and a refutation makes it Pareto-optimal. */
    method SolveBelow(ghost before: set<Point>) returns (sat: Cnf.Outcome)
      requires Inv() && found == before + {ul} && !Covered(before, ul)
      modifies this`patience, this`assumptions, solver`model, solver`conflict, solver`gaveUp
      ensures Inv() && Outcome(sat, assumptions) && Patient(old(patience), old(solver.gaveUp), sat)
      ensures sat == Sat ==> Dominates(Eval(p, solver.model), ul)
      ensures sat == Unsat ==> ul in ParetoFront(FeasiblePoints(p))
    {
      hide FeasiblePoints, Valid, Antichain, CoversAll, Points, Blocks, BlockClause, SatDb, Covered;
      var _ := FeasiblePoint(p, ul);
      assumptions := {};
      assumptions := AssumeDominatingRegion(p.roots, ul, assumptions);
      ClausesBelowBase(p, ul);
      sat := SolveRetrying();
      if sat == Unsat {
        LastIsOptimal(p, solver.clauses, solver.conflict, before, ul);
      } else if sat == Sat {
        DatabaseHolds(p, solver.clauses, found);
        BelowMeaning(p, ul, solver.model);
      }
    }

    /** Accept the model and follow models below it until there is none: the last point is
        Pareto-optimal, and all others that were found on the way are not. */
    method Descend() returns (sat: Cnf.Outcome)
      requires Inv() && SatDb(solver.clauses, solver.model) && |found| <= |FeasiblePoints(p)|
      requires Reported(ParetoFront(FeasiblePoints(p)), found, optimal, {})
      modifies this`patience, this`assumptions, this`ul, this`nbSatisfiable, this`found, solver`clauses, solver`model,
          solver`conflict, solver`gaveUp, solution
      ensures Inv() && |found| <= |FeasiblePoints(p)| && old(found) < found && ul in found
      ensures sat != Sat && Patient(old(patience), old(solver.gaveUp), sat)
      ensures Reported(ParetoFront(FeasiblePoints(p)), found, optimal, {ul})
      ensures sat == Unsat ==> ul in ParetoFront(FeasiblePoints(p))
    {
      hide FeasiblePoints, ParetoFront, Valid, Antichain, CoversAll, Blocks, BlockClause, SatDb, Covered, AllHold,
           Dominates, Entails, Negates;
      sat := Sat;
      ghost var before := found;
      while sat == Sat
        invariant Inv() && (sat == Sat ==> SatDb(solver.clauses, solver.model))
        invariant |found| <= |FeasiblePoints(p)|
        invariant Patient(old(patience), old(solver.gaveUp), sat)
        invariant Reported(ParetoFront(FeasiblePoints(p)), found, optimal, if found == before then {} else {ul})
        invariant if found == before then sat == Sat else ul in found && before < found
        invariant found != before && sat == Sat ==> Dominates(Eval(p, solver.model), ul)
        invariant found != before && sat == Unsat ==> ul in ParetoFront(FeasiblePoints(p))
        decreases FeasiblePoints(p) - found, sat == Sat
      {
        ghost var above, last := ul, found;
        Accept();
        if last != before {
          LeftBehind(p, above, ul);
        }
        FewerThanFeasible(found, FeasiblePoints(p));
        assert ul !in before && Reported(ParetoFront(FeasiblePoints(p)), found, optimal, {ul});
        sat := SolveBelow(last);
      }
    }

    /** `searchPMinimalMO`. It ends without an answer only after more exhausted budgets than it has
        patience for. Otherwise the archive it leaves is the Pareto front and exactly its points were reported
        optimal; in any case the reported points are Pareto-optimal and every satisfiable call found another
        feasible point. */
    method Run() returns (any: bool)
      requires Inv() && found == {} && optimal == {} && answer == Unknown
      modifies this, solver, solution
      ensures Inv() && optimal <= ParetoFront(FeasiblePoints(p))
      ensures nbSatisfiable <= |FeasiblePoints(p)|
      ensures answer == Optimum ==> Points(solution.entries) == optimal == ParetoFront(FeasiblePoints(p)) != {}
      ensures answer == Unsatisfiable ==> FeasiblePoints(p) == {}
      ensures any <==> answer == Optimum
      ensures answer == Unknown ==> solver.gaveUp - old(solver.gaveUp) > old(patience)
    {
      hide FeasiblePoints, ParetoFront, Valid, Antichain, CoversAll, Blocks, BlockClause, SatDb, Covered, AllHold,
           Dominates, Entails, Negates;
      FewerThanFeasible(found, FeasiblePoints(p));
      any := false;
      assumptions := {};
      var sat := SolveRetrying();
      while sat == Sat
        invariant Inv() && Reported(ParetoFront(FeasiblePoints(p)), found, optimal, {}) && Outcome(sat, {}) &&
            answer == Unknown && !any
        invariant Patient(old(patience), old(solver.gaveUp), sat)
        invariant |found| <= |FeasiblePoints(p)|
        decreases FeasiblePoints(p) - found, sat == Sat
      {
        sat := Descend();
        if sat == Undef {
          return;
        }
        assumptions := {};
        optimal := optimal + {ul};
        var _ := FeasiblePoint(p, ul);
        DatabaseHolds(p, solver.clauses, found);
        BlockDominatedRegion(solver, p, p.roots, ul);
        sat := SolveRetrying();
      }
      if sat == Undef {
        return;
      }
      NothingLeft(p, solver.clauses, solver.conflict, found, Points(solution.entries));
      if |solution.entries| == 0 {
        answer := Unsatisfiable;
      } else {
        assert solution.entries[0].point in Points(solution.entries);
        answer := Optimum;
        any := true;
      }
    }
  }
}
