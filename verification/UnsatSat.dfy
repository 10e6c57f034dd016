/** Sequential core-guided search: harvest everything below one fence, then raise the objectives
    that the shrunk core names. */
module UnsatSat {
  import opened Cnf
  import opened Pareto
  import opened Encoding
  import opened ParallelMO
  import opened Archive
  import opened Fences

  /** Below the fence `u`, the archive is exactly the Pareto front. */
  ghost predicate ExactBelow(points: set<Point>, feasible: set<Point>, u: Point) {
    forall q | Dominates(q, u) :: q in points <==> q in ParetoFront(feasible)
  }

  lemma RefutedFenceIsExact(p: Problem, found: set<Point>, points: set<Point>, db: Db, conflict: Clause, u: Point)
    requires Valid(p) && Sound(p, found, db) && found <= FeasiblePoints(p) && Fronts(found, points)
    requires |u| == |p.roots| && Entails(db, conflict) && Negates(conflict, BelowLits(p.roots, u))
    ensures ExactBelow(points, FeasiblePoints(p), u)
  {
    forall q | q in FeasiblePoints(p) && Dominates(q, u)
      ensures Covered(points, q)
    {
      RefutedRegionIsCovered(p, found, db, conflict, u, q);
      var y :| y in found && Dominates(y, q);
      assert Covered(points, y);
      CoveredBelow(points, y, q);
    }
    CoveredBelowIsExact(points, FeasiblePoints(p), u);
  }

  lemma CoveredBelowIsExact(points: set<Point>, feasible: set<Point>, u: Point)
    requires points <= feasible && Antichain(points)
    requires forall q {:trigger Covered(points, q)} | q in feasible && Dominates(q, u) :: Covered(points, q)
    ensures ExactBelow(points, feasible, u)
  {
    forall q | Dominates(q, u)
      ensures q in points <==> q in ParetoFront(feasible)
    {
      if q in ParetoFront(feasible) {
        assert Covered(points, q);
        var y :| y in points && Dominates(y, q);
      }
      if q in points {
        forall r | r in feasible && Dominates(r, q)
          ensures r == q
        {
          DominatesTransitive(r, q, u);
          assert Covered(points, r);
          var y :| y in points && Dominates(y, r);
          DominatesTransitive(y, r, q);
          DominatesAntisymmetric(r, q);
        }
      }
    }
  }

  /** A core that raises no objective leaves nothing uncovered. */
  lemma NothingToRaise(p: Problem, found: set<Point>, points: set<Point>, db: Db, conflict: Clause, u: Point)
    requires Valid(p) && OwnRoots(p) && Sound(p, found, db) && found <= FeasiblePoints(p) && Fronts(found, points)
    requires |u| == |p.roots| && Entails(db, conflict) && Negates(conflict, BelowLits(p.roots, u))
    requires forall k | 0 <= k < |u| :: !Extendable(p, conflict, u, k)
    ensures CoversAll(points, FeasiblePoints(p)) && points == ParetoFront(FeasiblePoints(p))
  {
    forall q | q in FeasiblePoints(p)
      ensures Covered(found, q)
    {
      if !Covered(found, q) {
        var i := UncoveredPointExtends(p, found, db, conflict, u, q);
      }
    }
    FinalFront(found, points, FeasiblePoints(p));
  }

  // ---------------------------------------------------------------- termination

  /** The feasible points that the blocks still leave open. */
  ghost function Open(feasible: set<Point>, blocked: set<Point>): set<Point> {
    set q | q in feasible && !Covered(blocked, q)
  }

  lemma OpenShrinks(feasible: set<Point>, blocked: set<Point>, more: set<Point>, y: Point)
    requires blocked <= more && y in feasible && !Covered(blocked, y) && Covered(more, y)
    ensures Open(feasible, more) < Open(feasible, blocked)
  {
    forall q | q in feasible && Covered(blocked, q)
      ensures Covered(more, q)
    {
      CoverGrows(blocked, more, q);
    }
    assert y in Open(feasible, blocked) && y !in Open(feasible, more);
  }

  /** How much the fence can still rise. */
  function Room(u: Point, max: Point): nat
    requires |u| == |max|
  {
    if u == [] then 0 else (if u[0] < max[0] then max[0] - u[0] else 0) + Room(u[1..], max[1..])
  }

  lemma {:induction false} RoomShrinks(u: Point, v: Point, max: Point)
    requires |u| == |v| == |max| && forall i | 0 <= i < |u| :: v[i] == u[i] || u[i] < v[i] <= max[i]
    ensures Room(v, max) <= Room(u, max) && (u != v ==> Room(v, max) < Room(u, max))
  {
    if u != [] {
      RoomShrinks(u[1..], v[1..], max[1..]);
      assert u == [u[0]] + u[1..] && v == [v[0]] + v[1..];
    }
  }

  // ---------------------------------------------------------------- shrinking a core

  /** Every literal of `needed` is one without which the core does not follow from `base`. */
  ghost predicate Needed(base: Db, core: Clause, needed: set<Lit>) {
    forall l | l in needed && l in core :: !Entails(base, core - {l})
  }

  lemma NeededInSmaller(base: Db, core: Clause, smaller: Clause, needed: set<Lit>)
    requires Needed(base, core, needed) && smaller <= core
    ensures Needed(base, smaller, needed)
  {
    forall l | l in needed && l in smaller
      ensures !Entails(base, smaller - {l})
    {
      var a: Assignment :| SatDb(base, a) && !SatClause(core - {l}, a);
      assert !SatClause(smaller - {l}, a);
    }
  }

  /** The assumptions that leave out the literal at position `i` of the core. */
  function AllBut(core: seq<Lit>, i: nat): set<Lit> {
    set j | 0 <= j < |core| && j != i :: core[j].Not()
  }

  lemma ModelNeedsLiteral(base: Db, db: Db, core: seq<Lit>, i: nat, a: Assignment)
    requires base <= db && i < |core| && Distinct(core) && SatDb(db, a) && AllHold(AllBut(core, i), a)
    ensures !Entails(base, LitSet(core) - {core[i]})
  {
    forall l | l in LitSet(core) - {core[i]}
      ensures !Holds(l, a)
    {
      var j :| 0 <= j < |core| && core[j] == l;
      assert l.Not() in AllBut(core, i);
    }
    assert !SatClause(LitSet(core) - {core[i]}, a);
  }

  lemma ConflictIsSmaller(core: seq<Lit>, i: nat, conflict: Clause)
    requires i < |core| && Distinct(core) && Negates(conflict, AllBut(core, i))
    ensures conflict <= LitSet(core) - {core[i]}
  {
    forall l | l in conflict
      ensures l in LitSet(core) && l != core[i]
    {
      var j :| 0 <= j < |core| && j != i && l.Not() == core[j].Not();
      assert core[j] == l;
    }
  }

  /** `copyTo`: the literals of a clause as a list. */
  method ToList(c: Clause) returns (ls: seq<Lit>)
    ensures Distinct(ls) && LitSet(ls) == c
  {
    ls := [];
    var rest := c;
    while rest != {}
      invariant Distinct(ls) && LitSet(ls) + rest == c && LitSet(ls) !! rest
      decreases rest
    {
      var l :| l in rest;
      assert LitSet(ls + [l]) == LitSet(ls) + {l};
      assert forall i | 0 <= i < |ls| :: ls[i] in LitSet(ls);
      ls, rest := ls + [l], rest - {l};
    }
  }

  lemma EntailsWithMore(db: Db, more: Db, c: Clause)
    requires db <= more && Entails(db, c)
    ensures Entails(more, c)
  {
  }

  lemma NegatesFewer(c: Clause, d: Clause, ls: set<Lit>)
    requires c <= d && Negates(d, ls)
    ensures Negates(c, ls)
  {
  }

  lemma AllButBelow(core: seq<Lit>, i: nat, n: nat)
    requires LitsBelow(LitSet(core), n)
    ensures LitsBelow(AllBut(core, i), n)
  {
    forall l | l in AllBut(core, i)
      ensures l.v < n
    {
      var j :| 0 <= j < |core| && j != i && l == core[j].Not();
      assert core[j] in LitSet(core);
    }
  }

  /** The literals of a core of the fence are literals of the formula. */
  lemma CoreBelow(c: Clause, ls: set<Lit>, n: nat)
    requires Negates(c, ls) && LitsBelow(ls, n)
    ensures LitsBelow(c, n)
  {
    forall l | l in c
      ensures l.v < n
    {
      assert l.Not() in ls;
    }
  }

  lemma NothingNeeded(base: Db, core: Clause)
    ensures Needed(base, core, {})
  {
  }

  /** The new fence: extendable objectives rise within their maximum, the others stay. */
  lemma RaisedFence(p: Problem, u: Point, conflict: Clause, objv: seq<nat>, objix: seq<nat>, raised: seq<nat>)
    requires Valid(p) && |u| == |p.roots| == |objv| == |objix| == |raised|
    requires forall k | 0 <= k < |u| :: objv[k] == u[k] + 1 && objix[k] == KeyIndex(p.roots[k], u[k] + 1)
    requires forall k | 0 <= k < |u| :: raised[k] == RaisedValue(p, conflict, objv, objix, k)
    ensures forall k | 0 <= k < |u| ::
              if Extendable(p, conflict, u, k) then u[k] + 1 < raised[k] <= p.max[k] + 1 else raised[k] == u[k] + 1
  {
    forall k | 0 <= k < |u| && Extendable(p, conflict, u, k)
      ensures u[k] + 1 < raised[k] <= p.max[k] + 1
    {
      NextKeyIsLarger(p, u, k);
      assert EncodesObjective(p, k);
    }
  }

  lemma EntrySizes(p: Problem, found: set<Point>, es: seq<Entry>)
    requires found <= FeasiblePoints(p) && Fronts(found, Points(es)) && Valid(p)
    ensures forall e | e in es :: |e.point| == |p.roots|
  {
    forall e | e in es
      ensures |e.point| == |p.roots|
    {
      assert e.point in Points(es);
      var _ := FeasiblePoint(p, e.point);
    }
  }

  lemma CoverIsInhabited(points: set<Point>, feasible: set<Point>)
    requires CoversAll(points, feasible)
    ensures feasible != {} ==> points != {}
  {
    if q :| q in feasible {
      assert Covered(points, q);
    }
  }

  lemma CoveredBySelf(s: set<Point>, y: Point)
    requires y in s
    ensures Covered(s, y)
  {
    DominatesItself(y);
  }

  datatype Answer = Unknown | Optimum | Unsatisfiable | Budget

  class Search {
    const p: Problem
    const solver: Solver
    const solution: Solution
    /** `_block`: whether points found while shrinking a core are blocked. */
    const blockInCore: bool
    const coreBudget: bool
    /** Whether another thread may ask the search to stop. */
    const interruptible: bool
    var stop: bool
    var answer: Answer
    ghost var found: set<Point>
    ghost var blocked: set<Point>

    constructor (p: Problem, solver: Solver, solution: Solution, blockInCore: bool, coreBudget: bool,
        interruptible: bool)
      ensures this.p == p && this.solver == solver && this.solution == solution
      ensures !stop && answer == Unknown && found == {} && blocked == {}
    {
      this.p, this.solver, this.solution := p, solver, solution;
      this.blockInCore, this.coreBudget, this.interruptible := blockInCore, coreBudget, interruptible;
      stop, answer, found, blocked := false, Unknown, {}, {};
    }

    ghost predicate Inv()
      reads this, solver, solution
    {
      && Valid(p) && OwnRoots(p) && solver.Valid() && p.base <= solver.nVars
      && Blocked(p, solver.clauses, blocked)
      && blocked <= found <= FeasiblePoints(p) && Fronts(found, Points(solution.entries))
    }

    /** The flag stays raised once it is, and only somebody else raises it. */
    predicate Outside(before: bool)
      reads this`stop
    {
      (before ==> stop) && (stop ==> before || interruptible)
    }

    /** `getStopSearchFlag`: another thread may raise the flag at any time. */
    method StopRequested() returns (b: bool)
      modifies this`stop
      ensures b == stop && Outside(old(stop))
    {
      if interruptible {
        if * {
          stop := true;
        }
      }
      b := stop;
    }

    lemma DatabaseIsSound()
      requires Inv()
      ensures Sound(p, found, solver.clauses) && Sound(p, blocked, solver.clauses)
    {
      hide FeasiblePoints, Valid, Blocked, OwnRoots, Fronts, Sound;
      BlockedIsSound(p, solver.clauses, blocked);
      forall q | Covered(blocked, q)
        ensures Covered(found, q)
      {
        CoverGrows(blocked, found, q);
      }
      SoundGrows(p, blocked, found, solver.clauses);
    }

    /** `pushSafe` of the model just found. */
    method Record() returns (added: bool, y: Point)
      requires Inv() && SatDb(solver.clauses, solver.model)
      modifies this`found, solution
      ensures Inv() && y == Eval(p, solver.model) && y in FeasiblePoints(p) && !Covered(blocked, y)
      ensures found == old(found) + {y} && Covered(Points(solution.entries), y)
    {
      hide FeasiblePoints, Valid, OwnRoots, Antichain, Points, Blocks, BlockClause, SatDb, Covered, CoversAll;
      y := Eval(p, solver.model);
      ModelIsOpen(p, solver.clauses, blocked, solver.model);
      PushedStaysFront(found, solution.entries, solver.model, y);
      added := solution.PushSafe(solver.model, y);
      found := found + {y};
    }

    /** `blockStep`. */
    method Block(y: Point)
      requires Inv() && y in found
      modifies this`blocked, solver`clauses
      ensures Inv() && blocked == old(blocked) + {y} && old(solver.clauses) <= solver.clauses
    {
      hide FeasiblePoints, Valid, OwnRoots, Fronts, Points, Blocks, BlockClause;
      BlockedGrows(p, solver.clauses, blocked, y);
      var _ := FeasiblePoint(p, y);
      BlockDominatedRegion(solver, p, p.roots, y);
      blocked := blocked + {y};
    }

    /** The harvest loop of `rootedSearch`. When it is not told to stop it ends with a core, and
        the archive below the fence is exactly the Pareto front below the fence. */
    method Harvest(ul: Point) returns (stopped: bool)
      requires Inv() && |ul| == |p.roots|
      modifies this`stop, this`found, this`blocked, solver`clauses, solver`model, solver`conflict, solver`gaveUp,
          solution
      ensures Inv() && (stopped ==> stop) && Outside(old(stop))
      ensures !stopped ==> ExactBelow(Points(solution.entries), FeasiblePoints(p), ul)
      ensures !stopped ==> Entails(solver.clauses, solver.conflict) && Negates(solver.conflict, BelowLits(p.roots, ul))
    {
      hide FeasiblePoints, Valid, OwnRoots, Blocked, Fronts, Points, BelowLits, SatDb, Covered, Open, Sound,
           ExactBelow;
      var assumptions := AssumeDominatingRegion(p.roots, ul, {});
      ClausesBelowBase(p, ul);
      stopped := StopRequested();
      if stopped {
        return;
      }
      var sat := solver.Solve(assumptions, false);
      while sat == Sat
        invariant Inv() && sat != Undef && Outside(old(stop)) && !stopped
        invariant sat == Sat ==> SatDb(solver.clauses, solver.model)
        invariant sat == Unsat ==>
            Entails(solver.clauses, solver.conflict) && Negates(solver.conflict, BelowLits(p.roots, ul))
        decreases Open(FeasiblePoints(p), blocked), sat == Sat
      {
        stopped := StopRequested();
        if stopped {
          return;
        }
        ghost var before := blocked;
        var added, y := Record();
        if added {
          Block(y);
          CoveredBySelf(blocked, y);
        } else {
          BlockDominators(y);
        }
        OpenShrinks(FeasiblePoints(p), before, blocked, y);
        sat := solver.Solve(assumptions, false);
      }
      stopped := StopRequested();
      DatabaseIsSound();
      RefutedFenceIsExact(p, found, Points(solution.entries), solver.clauses, solver.conflict, ul);
    }

    /** Block every solution that dominates a model the archive did not take. */
    method BlockDominators(y: Point)
      requires Inv() && Covered(Points(solution.entries), y)
      modifies this`blocked, solver`clauses
      ensures Inv() && old(blocked) <= blocked && Covered(blocked, y)
    {
      hide FeasiblePoints, Valid, OwnRoots, Blocked, Antichain, CoversAll;
      var es := solution.entries;
      for i := 0 to |es|
        invariant Inv() && es == solution.entries && old(blocked) <= blocked
        invariant forall j | 0 <= j < i && Dominates(es[j].point, y) :: es[j].point in blocked
      {
        if Dominates(es[i].point, y) {
          assert es[i].point in Points(es);
          Block(es[i].point);
        }
      }
    }

    /** `optimize_core_destructive`: drop literals that the core does not need. It always leaves a
        core; run to its end, it leaves one of which no literal can be dropped for the database
        that the shrinking started from. */
    method OptimizeCore(core0: seq<Lit>, done0: set<Lit>, ghost base: Db)
        returns (core: seq<Lit>, done: set<Lit>, ok: bool)
      requires Inv() && Distinct(core0) && Entails(solver.clauses, LitSet(core0)) &&
          LitsBelow(LitSet(core0), solver.nVars)
      requires base <= solver.clauses && Needed(base, LitSet(core0), done0)
      modifies this`stop, this`answer, this`found, this`blocked, solver`clauses, solver`model, solver`conflict,
          solver`gaveUp, solution
      ensures Inv() && Outside(old(stop))
      ensures Distinct(core) && LitSet(core) <= LitSet(core0) && Entails(solver.clauses, LitSet(core))
      ensures ok ==> Needed(base, LitSet(core), LitSet(core))
      ensures !ok ==> stop || (answer == Budget && coreBudget && solver.gaveUp > old(solver.gaveUp))
      decreases LitSet(core0)
    {
      hide FeasiblePoints, Valid, OwnRoots, Blocked, Fronts, Points, SatDb, Entails, Covered;
      core, done, ok := core0, done0, false;
      for i := 0 to |core|
        invariant Inv() && Outside(old(stop)) && core == core0
        invariant Entails(solver.clauses, LitSet(core)) && base <= solver.clauses && solver.nVars == old(solver.nVars)
        invariant solver.gaveUp >= old(solver.gaveUp)
        invariant Needed(base, LitSet(core), done) && forall j | 0 <= j < i :: core[j] in done
      {
        if core[i] !in done {
          var assumptions := AllBut(core, i);
          AllButBelow(core, i, solver.nVars);
          var stopped := StopRequested();
          if stopped {
            return;
          }
          ghost var db := solver.clauses;
          var sat := solver.Solve(assumptions, coreBudget);
          if sat == Sat {
            stopped := StopRequested();
            if stopped {
              return;
            }
            ModelNeedsLiteral(base, solver.clauses, core, i, solver.model);
            done := done + {core[i]};
            var added, y := Record();
            if added && blockInCore {
              Block(y);
              EntailsWithMore(db, solver.clauses, LitSet(core));
            }
          } else if sat == Undef {
            answer := Budget;
            return;
          } else {
            ConflictIsSmaller(core, i, solver.conflict);
            NeededInSmaller(base, LitSet(core), solver.conflict, done);
            assert core[i] in LitSet(core);
            var smaller := ToList(solver.conflict);
            core, done, ok := OptimizeCore(smaller, done, base);
            return;
          }
        }
      }
      ok := true;
    }

    /** `extendUL`: each objective that the shrunk core names rises to one below its next key. */
    method ExtendUL(ul: Point) returns (extend: bool, next: Point, ghost core: Clause)
      requires Inv() && |ul| == |p.roots|
      requires Entails(solver.clauses, solver.conflict) && Negates(solver.conflict, BelowLits(p.roots, ul))
      modifies this`stop, this`answer, this`found, this`blocked, solver`clauses, solver`model, solver`conflict,
          solver`gaveUp, solution
      ensures Inv() && Outside(old(stop))
      ensures core <= old(solver.conflict) && Entails(solver.clauses, core) && RisesToKeys(p, core, ul, next)
      ensures Needed(old(solver.clauses), core, core) || stop || (coreBudget && solver.gaveUp > old(solver.gaveUp))
      ensures |next| == |ul| && (forall k | 0 <= k < |ul| :: next[k] == ul[k] || ul[k] < next[k] <= p.max[k])
      ensures extend ==> next != ul
      ensures !extend ==> CoversAll(Points(solution.entries), FeasiblePoints(p))
      ensures !extend ==> Points(solution.entries) == ParetoFront(FeasiblePoints(p))
    {
      hide FeasiblePoints, OwnRoots, Blocked, Fronts, Points, BelowLits, SatDb, Entails, Negates, Covered, CoversAll,
           ParetoFront, LitSet, Sound, RisesToKeys, Needed;
      var conflict := ToList(solver.conflict);
      ghost var core0 := solver.conflict;
      ClausesBelowBase(p, ul);
      CoreBelow(core0, BelowLits(p.roots, ul), p.base);
      var done, ok;
      NothingNeeded(solver.clauses, LitSet(conflict));
      conflict, done, ok := OptimizeCore(conflict, {}, solver.clauses);
      NegatesFewer(LitSet(conflict), core0, BelowLits(p.roots, ul));
      CoreNamesOnce(p, ul, conflict);
      var objv := seq(|ul|, i requires 0 <= i < |ul| => ul[i] + 1);
      var objix := EvalToIndex(p.roots, ul);
      var upperObjv;
      extend, upperObjv := Fences.ExtendUL(p, conflict, objv, objix);
      RaisedFence(p, ul, LitSet(conflict), objv, objix, upperObjv);
      next := seq(|ul|, i requires 0 <= i < |ul| => upperObjv[i] - 1);
      core := LitSet(conflict);
      ExtendedRises(p, core, ul, objv, objix, next);
      if extend {
        var k :| 0 <= k < |ul| && Extendable(p, LitSet(conflict), ul, k);
        assert next[k] > ul[k];
      } else {
        DatabaseIsSound();
        NothingToRaise(p, found, Points(solution.entries), solver.clauses, LitSet(conflict), ul);
      }
    }

    /** `rootedSearch`: harvest and extend until no objective can be raised. */
    method RootedSearch(yp: Point) returns (complete: bool)
      requires Inv() && |yp| == |p.roots|
      modifies this`stop, this`answer, this`found, this`blocked, solver`clauses, solver`model, solver`conflict,
          solver`gaveUp, solution
      ensures Inv() && Outside(old(stop)) && (!complete ==> stop)
      ensures complete ==> CoversAll(Points(solution.entries), FeasiblePoints(p))
      ensures complete ==> Points(solution.entries) == ParetoFront(FeasiblePoints(p))
    {
      hide FeasiblePoints, Valid, OwnRoots, Blocked, Fronts, Points, BelowLits, Entails, Negates, ExactBelow,
           CoversAll, ParetoFront, Room;
      SameSize(p);
      var ul := yp;
      var stopped := Harvest(ul);
      while !stopped
        invariant Inv() && Outside(old(stop)) && (stopped ==> stop) && |ul| == |p.roots|
        invariant !stopped ==>
            Entails(solver.clauses, solver.conflict) && Negates(solver.conflict, BelowLits(p.roots, ul))
        decreases Room(ul, p.max), !stopped
      {
        var extend, next, core := ExtendUL(ul);
        if !extend {
          return true;
        }
        RoomShrinks(ul, next, p.max);
        ul := next;
        stopped := Harvest(ul);
      }
      complete := false;
    }

    /** `searchUnsatSatMO`: a search that ends by itself leaves exactly the Pareto front. */
    method Run() returns (r: bool)
      requires Inv()
      modifies this`stop, this`answer, this`found, this`blocked, solver`clauses, solver`model, solver`conflict,
          solver`gaveUp, solution
      ensures Inv() && Outside(old(stop)) && (!r ==> stop || answer == Unsatisfiable)
      ensures r ==> answer == Optimum && Points(solution.entries) == ParetoFront(FeasiblePoints(p)) != {}
      ensures !stop && answer == Unsatisfiable ==> FeasiblePoints(p) == {}
    {
      hide FeasiblePoints, OwnRoots, Valid, Blocked, Fronts;
      SameSize(p);
      EntrySizes(p, found, solution.entries);
      var ul := Dominator(solution.entries, |p.roots|);
      var complete := RootedSearch(ul);
      var stopped := StopRequested();
      if stopped {
        return false;
      }
      if |solution.entries| == 0 {
        answer := Unsatisfiable;
        CoverIsInhabited(Points(solution.entries), FeasiblePoints(p));
        r := false;
      } else {
        assert solution.entries[0].point in Points(solution.entries);
        answer := Optimum;
        r := true;
      }
    }

    /** `consolidateSolution`: the first solution changes nothing once the search is complete. */
    method Consolidate(first: Assignment)
      requires Inv() && SatDb(p.hard, first)
      modifies solution, this`found
      ensures Inv() && Covered(Points(solution.entries), Eval(p, first))
      ensures old(CoversAll(Points(solution.entries), FeasiblePoints(p))) ==> solution.entries == old(solution.entries)
    {
      hide FeasiblePoints, OwnRoots, Valid, Points, Antichain;
      var y := Eval(p, first);
      ModelIsFeasible(p, first);
      PushedStaysFront(found, solution.entries, first, y);
      if Covered(Points(solution.entries), y) {
        BarredChangesNothing(solution.entries, y);
      }
      var added := solution.PushSafe(first, y);
      found := found + {y};
    }
  }
}
