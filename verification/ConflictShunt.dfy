/** A master that runs the drill-and-slide server under a conflict budget and takes over its solutions. */
module ConflictShunt {
  import opened Cnf
  import opened Pareto
  import opened Encoding
  import opened Archive
  import opened SlideDrill

  /** Taking over the archive of a search takes over everything that the search found. */
  lemma HandedOver(before: set<Point>, finds: set<Point>, taken: set<Point>, points: set<Point>)
    requires Fronts(finds, taken) && Fronts(before + taken, points)
    ensures Fronts(before + finds, points)
  {
    forall q | q in finds
      ensures Covered(points, q)
    {
      assert Covered(taken, q);
      var t :| t in taken && Dominates(t, q);
      assert Covered(points, t);
      CoveredBelow(points, t, q);
    }
  }

  lemma TakenOne(before: set<Point>, es: seq<Entry>, n: nat)
    requires n < |es|
    ensures before + Points(es[n..]) == before + Points(es[n + 1..]) + {es[n].point}
  {
    assert es[n..] == [es[n]] + es[n + 1..];
  }

  lemma NothingTaken(before: set<Point>, es: seq<Entry>)
    ensures before + Points(es[|es|..]) == before
  {
  }

  lemma EntryPoint(p: Problem, es: seq<Entry>, e: Entry)
    requires Candidates(p, es) && e in es
    ensures e.point == Eval(p, e.model)
  {
  }

  lemma NoCandidates(p: Problem)
    ensures Candidates(p, [])
  {
  }

  lemma NotEmpty(es: seq<Entry>, y: Point)
    requires Covered(Points(es), y)
    ensures es != []
  {
  }

  class Master {
    const search: Search
    const solution: Solution

    constructor (search: Search, solution: Solution)
      ensures this.search == search && this.solution == solution
    {
      this.search, this.solution := search, solution;
    }

    /** The server can resume, and the master's archive has what it took over so far. */
    ghost predicate Ready()
      reads this, search, search.solver, search.solution, solution
    {
      search.Resumable() && solution != search.solution && Fronts(search.handed, Points(solution.entries))
    }

    /** `incorporate_approx`: the server's solutions, last one first, are evaluated again and pushed. */
    method IncorporateApprox()
      requires Ready()
      modifies solution, search.solution, search`finds, search`handed
      ensures Ready() && search.solution.entries == [] && search.Here().found == old(search.Here().found)
      ensures search.finds == {} && search.handed == old(search.handed + search.finds)
    {
      hide Valid, Inv, Fronts, SatDb, Eval, Points, Kept, Candidates, Covered;
      ghost var before, es := search.handed, search.solution.entries;
      ghost var n := |es|;
      NothingTaken(before, es);
      while |search.solution.entries| > 0
        invariant n == |search.solution.entries| <= |es| && search.solution.entries == es[..n]
        invariant Fronts(before + Points(es[n..]), Points(solution.entries))
        modifies solution, search.solution
      {
        var e := search.solution.Pop();
        n := n - 1;
        assert e == es[n];
        EntryPoint(search.p, es, e);
        var y := Eval(search.p, e.model);
        TakenOne(before, es, n);
        PushedStaysFront(before + Points(es[n + 1..]), solution.entries, e.model, y);
        var _ := solution.PushSafe(e.model, y);
      }
      assert es[0..] == es;
      HandedOver(before, search.finds, Points(es), Points(solution.entries));
      NoCandidates(search.p);
      NothingPushed();
      ghost var y := {Eval(search.p, search.first)};
      assert before + search.finds + y == before + search.finds + {} + y;
      search.handed, search.finds := search.handed + search.finds, {};
      assert search.Here() == old(search.Here());
    }

    /** `consolidateSolution`: the first solution is pushed too, so the archive is not empty. */
    method Consolidate()
      requires Ready() && search.finds == {} && CoversAll(search.Here().found, FeasiblePoints(search.p))
      modifies solution, search`answer
      ensures search.answer == Optimum && Points(solution.entries) == ParetoFront(FeasiblePoints(search.p))
    {
      hide Valid, Inv, Fronts, SatDb, Eval, Kept, Candidates, Covered, CoversAll, FeasiblePoints;
      var y := Eval(search.p, search.first);
      FoundIsFeasible(search.p, search.Here(), {});
      PushedStaysFront(search.handed, solution.entries, search.first, y);
      var _ := solution.PushSafe(search.first, y);
      assert search.handed + {} + {y} == search.handed + {y};
      FinalFront(search.handed + {y}, Points(solution.entries), FeasiblePoints(search.p));
      NotEmpty(solution.entries, y);
      search.answer := if |solution.entries| == 0 then Unsatisfiable else Optimum;
    }

    /** `searchConflictShuntMO` and what follows it in `search_MO`, with at most `calls` calls of the
        server: whichever calls ran out of budget, a search that ends by itself leaves exactly the
        Pareto front in the master's archive. */
    method SearchMO(calls: nat)
      requires Ready()
      modifies search, search.solver, search.solution, solution
      ensures !search.stop && search.answer == Optimum ==>
          Points(solution.entries) == ParetoFront(FeasiblePoints(search.p))
      ensures !search.stop && search.answer != Optimum ==> search.answer == Unknown && Ready()
      ensures search.Outside(old(search.stop))
      ensures !search.stop && search.answer == Unknown ==> search.solver.gaveUp == old(search.solver.gaveUp) + calls
    {
      hide Valid, Inv, Fronts, SatDb, Eval, Points, Kept, Candidates, Covered, CoversAll, FeasiblePoints;
      search.answer := Unknown;
      var n := 0;
      while n < calls
        invariant Ready() && n <= calls && search.answer == Unknown && search.Outside(old(search.stop))
        invariant search.solver.gaveUp == old(search.solver.gaveUp) + n
        modifies search, search.solver, search.solution, solution
      {
        search.SearchAgain();
        if search.stop {
          return;
        }
        IncorporateApprox();
        if search.answer != Budget {
          Consolidate();
          return;
        }
        search.answer := Unknown;
        n := n + 1;
      }
    }
  }
}
