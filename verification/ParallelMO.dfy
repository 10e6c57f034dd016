/** What all parallel searches share: solutions, block clauses and learnt clauses. */
module ParallelMO {
  import opened Cnf
  import opened Pareto
  import opened Encoding

  function Blocks(p: Problem, ys: set<Point>): Db {
    set y | y in ys :: BlockClause(p.roots, y)
  }

  lemma OneBlock(p: Problem, y: Point)
    ensures Blocks(p, {y}) == {BlockClause(p.roots, y)}
  {
  }

  /** `Solution::pushSafe` on points: what `y` strictly dominates goes, `y` enters. */
  function PushSafe(ys: set<Point>, y: Point): set<Point> {
    (set t | t in ys && !(t != y && Dominates(y, t))) + {y}
  }

  /** An assignment of the formula outside the regions that the found points dominate. */
  ghost predicate OpenModel(p: Problem, found: set<Point>, a: Assignment) {
    SatDb(p.hard, a) && !Covered(found, Eval(p, a))
  }

  /** Every clause is entailed by the formula and the blocks of the found points. */
  ghost predicate Sound(p: Problem, found: set<Point>, db: Db) {
    forall a: Assignment | OpenModel(p, found, a) :: SatDb(db, a)
  }

  lemma DominatesItself(y: Point)
    ensures Dominates(y, y)
  {
  }

  lemma CoverGrows(s: set<Point>, t: set<Point>, q: Point)
    requires s <= t && Covered(s, q)
    ensures Covered(t, q)
  {
  }

  lemma CoverAllMore(s: set<Point>, t: set<Point>, feasible: set<Point>)
    requires CoversAll(s, feasible) && s <= t
    ensures CoversAll(t, feasible)
  {
    forall q | q in feasible
      ensures Covered(t, q)
    {
      assert Covered(s, q);
      CoverGrows(s, t, q);
    }
  }

  lemma PushSafeCovers(ys: set<Point>, y: Point, q: Point)
    requires Covered(ys + {y}, q)
    ensures Covered(PushSafe(ys, y), q)
  {
    var t :| t in ys + {y} && Dominates(t, q);
    if t !in PushSafe(ys, y) {
      DominatesTransitive(y, t, q);
    }
  }

  lemma SoundGrows(p: Problem, found: set<Point>, more: set<Point>, db: Db)
    requires Sound(p, found, db)
    requires forall q | Covered(found, q) :: Covered(more, q)
    ensures Sound(p, more, db)
  {
    forall a: Assignment | OpenModel(p, more, a)
      ensures OpenModel(p, found, a)
    {
    }
  }

  lemma SoundBlocks(p: Problem, found: set<Point>, db: Db, ys: set<Point>)
    requires Valid(p) && Sound(p, found, db) && ys <= FeasiblePoints(p)
    requires forall y | y in ys :: Covered(found, y)
    ensures Sound(p, found, db + Blocks(p, ys))
  {
    forall a: Assignment, c | OpenModel(p, found, a) && c in Blocks(p, ys)
      ensures SatClause(c, a)
    {
      var y :| y in ys && c == BlockClause(p.roots, y);
      var _ := FeasiblePoint(p, y);
      BlockMeaning(p, y, a);
      if Dominates(y, Eval(p, a)) {
        CoveredBelow(found, y, Eval(p, a));
      }
    }
  }

  lemma SoundLearnt(p: Problem, found: set<Point>, db: Db, from: Db, c: Clause)
    requires Sound(p, found, db) && Sound(p, found, from) && Entails(from, c)
    ensures Sound(p, found, db + {c})
  {
  }

  /** A refutation of the region that dominates `u`: every feasible point of it is covered. */
  lemma RefutedRegionIsCovered(p: Problem, found: set<Point>, db: Db, conflict: Clause, u: Point, q: Point)
    requires Valid(p) && Sound(p, found, db) && |u| == |p.roots|
    requires Entails(db, conflict) && Negates(conflict, BelowLits(p.roots, u))
    requires q in FeasiblePoints(p) && Dominates(q, u)
    ensures Covered(found, q)
  {
    var a := FeasiblePoint(p, q);
    if !Covered(found, q) {
      BelowComplete(p, u, a);
      ConflictRefutes(db, conflict, BelowLits(p.roots, u), a);
    }
  }

  /** A refutation without assumptions: everything feasible is covered. */
  lemma EmptyConflictCovers(p: Problem, found: set<Point>, db: Db)
    requires Valid(p) && Sound(p, found, db) && Entails(db, {})
    ensures CoversAll(found, FeasiblePoints(p))
  {
    forall q | q in FeasiblePoints(p)
      ensures Covered(found, q)
    {
      var a := FeasiblePoint(p, q);
      assert !SatClause({}, a);
    }
  }

  // ---------------------------------------------------------------- what a database rejects

  /** No model of the database has a point that `y` weakly dominates. */
  ghost predicate Rejects(p: Problem, db: Db, y: Point) {
    forall a: Assignment | SatDb(p.hard, a) && SatDb(db, a) :: !Dominates(y, Eval(p, a))
  }

  lemma RejectsMore(p: Problem, db: Db, more: Db, y: Point)
    requires Rejects(p, db, y) && db <= more
    ensures Rejects(p, more, y)
  {
    forall a: Assignment | SatDb(p.hard, a) && SatDb(more, a)
      ensures SatDb(db, a)
    {
    }
  }

  lemma BlockRejects(p: Problem, db: Db, y: Point)
    requires Valid(p) && |y| == |p.roots| && BlockClause(p.roots, y) in db
    ensures Rejects(p, db, y)
  {
    forall a: Assignment | SatDb(p.hard, a) && SatDb(db, a)
      ensures !Dominates(y, Eval(p, a))
    {
      BlockMeaning(p, y, a);
    }
  }

  /** The feasible points that the database does not reject yet. */
  ghost function Unrejected(p: Problem, db: Db): set<Point> {
    set q | q in FeasiblePoints(p) && !Rejects(p, db, q)
  }

  lemma UnrejectedShrinks(p: Problem, db: Db, more: Db)
    requires db <= more
    ensures Unrejected(p, more) <= Unrejected(p, db) && |Unrejected(p, more)| <= |Unrejected(p, db)|
  {
    hide FeasiblePoints, Rejects;
    forall q | q in Unrejected(p, more)
      ensures !Rejects(p, db, q)
    {
      if Rejects(p, db, q) {
        RejectsMore(p, db, more, q);
      }
    }
    SmallerSet(Unrejected(p, more), Unrejected(p, db));
  }

  /** A database does not reject the point of a model of its own. */
  lemma ModelNotRejected(p: Problem, db: Db, a: Assignment)
    requires SatDb(p.hard, a) && SatDb(db, a)
    ensures !Rejects(p, db, Eval(p, a))
  {
    DominatesItself(Eval(p, a));
  }

  lemma NewlyRejected(p: Problem, db: Db, more: Db, a: Assignment)
    requires Valid(p) && SatDb(p.hard, a) && SatDb(db, a) && db <= more && Rejects(p, more, Eval(p, a))
    ensures |Unrejected(p, more)| < |Unrejected(p, db)|
  {
    hide FeasiblePoints, Rejects, Eval, Valid;
    ModelIsFeasible(p, a);
    ModelNotRejected(p, db, a);
    UnrejectedShrinks(p, db, more);
    assert Eval(p, a) in Unrejected(p, db) && Eval(p, a) !in Unrejected(p, more);
    SmallerSet(Unrejected(p, more), Unrejected(p, db));
  }

  // ---------------------------------------------------------------- how many are at work

  function CountIf<T>(busy: T -> bool, ts: seq<T>): nat {
    if ts == [] then 0 else CountIf(busy, ts[1..]) + if busy(ts[0]) then 1 else 0
  }

  lemma CountUpdate<T>(busy: T -> bool, ts: seq<T>, i: nat, t: T)
    requires i < |ts|
    ensures CountIf(busy, ts[i := t]) == CountIf(busy, ts) + (if busy(t) then 1 else 0) - if busy(ts[i]) then 1 else 0
  {
    if i > 0 {
      CountUpdate(busy, ts[1..], i - 1, t);
      assert ts[i := t][1..] == ts[1..][i - 1 := t];
    }
  }

  lemma NoneCounted<T>(busy: T -> bool, ts: seq<T>)
    requires CountIf(busy, ts) == 0
    ensures forall t | t in ts :: !busy(t)
  {
    if ts != [] {
      NoneCounted(busy, ts[1..]);
    }
  }

  // ---------------------------------------------------------------- how much is left to do

  /** The sum of what the elements cost. */
  function SumOf<T>(cost: T -> nat, ts: seq<T>): nat {
    if ts == [] then 0 else cost(ts[0]) + SumOf(cost, ts[1..])
  }

  lemma {:induction false} SumUpdate<T>(cost: T -> nat, ts: seq<T>, i: nat, t: T)
    requires i < |ts|
    ensures SumOf(cost, ts[i := t]) == SumOf(cost, ts) + cost(t) - cost(ts[i])
  {
    if i > 0 {
      SumUpdate(cost, ts[1..], i - 1, t);
      assert ts[i := t][1..] == ts[1..][i - 1 := t];
    }
  }

  /** An oracle that does not give up always has an answer: a model or a conflict. */
  lemma OracleAnswers(db: Db, ls: set<Lit>) returns (sat: bool, a: Assignment, conflict: Clause)
    ensures sat ==> SatDb(db, a) && AllHold(ls, a)
    ensures !sat ==> Entails(db, conflict) && Negates(conflict, ls)
  {
    sat := exists b: Assignment :: SatDb(db, b) && AllHold(ls, b);
    a, conflict := {}, {};
    if sat {
      a :| SatDb(db, a) && AllHold(ls, a);
    } else {
      conflict := set l | l in ls :: l.Not();
      forall b: Assignment | SatDb(db, b)
        ensures SatClause(conflict, b)
      {
        var l :| l in ls && !Holds(l, b);
        assert l.Not() in conflict && Holds(l.Not(), b);
      }
    }
  }
}
