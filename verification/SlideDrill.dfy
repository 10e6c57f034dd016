/** Sequential slide-and-drill: drill below waiting points, and slide below the drilled point,
    guarding what each find takes away, with budgets that run out and searches that resume. */
module SlideDrill {
  import opened Cnf
  import opened Pareto
  import opened Encoding
  import opened ParallelMO
  import opened Archive

  /** What the invariants speak of: the solver's database, the waiting list with everything it
      ever saw, the unfinished slides, and the point of each guard variable. */
  datatype Board = Board(
    db: Db, nVars: nat, waiting: multiset<Point>, seen: set<Point>,
    mem: map<Point, set<nat>>, slideMap: map<nat, Point>, found: set<Point>, finalized: set<nat>)

  function Deps(mem: map<Point, set<nat>>, c: Point): set<nat> {
    if c in mem then mem[c] else {}
  }

  /** The assumptions of a drill or slide from `c`. */
  function Assumed(p: Problem, mem: map<Point, set<nat>>, c: Point): set<Lit> {
    BelowLits(p.roots, c) + set v | v in Deps(mem, c) :: Lit(v, true)
  }

  function GuardClauses(p: Problem, slideMap: map<nat, Point>): Db {
    set v | v in slideMap :: GuardClause(p.roots, slideMap[v], Lit(v, false))
  }

  function Units(vs: set<nat>): Db {
    set v | v in vs :: {Lit(v, false)}
  }

  /** The database is the formula, the blocks, the guarded clauses and the finalized guards. */
  ghost predicate Stored(p: Problem, b: Board) {
    && b.db == p.hard + Blocks(p, b.found) + GuardClauses(p, b.slideMap) + Units(b.finalized)
    && b.found <= FeasiblePoints(p) && b.finalized <= b.slideMap.Keys && p.base <= b.nVars
    && forall v | v in b.slideMap :: p.base <= v < b.nVars && b.slideMap[v] in b.found
  }

  /** The guards of unfinished slides are known, not finalized, and of one slide only. */
  ghost predicate Guarded(b: Board) {
    && (forall c, v | c in b.mem && v in b.mem[c] :: v in b.slideMap && v !in b.finalized)
    && forall c, e, v | c in b.mem && e in b.mem && v in b.mem[c] && v in b.mem[e] :: c == e
  }

  /** Everything ever inserted is reached by keys, and is no point that can still be found. */
  ghost predicate Listed(p: Problem, b: Board) {
    && (forall c | c in b.waiting :: c in b.seen) && b.mem.Keys <= b.seen
    && forall d | d in b.seen :: Keyed(p, d) && (Covered(b.found, d) || d !in FeasiblePoints(p))
  }

  /** `q` is outside what the finds of the slide from `c` took away. */
  ghost predicate Clear(b: Board, c: Point, q: Point) {
    forall v | v in Deps(b.mem, c) && v in b.slideMap :: !Dominates(q, b.slideMap[v])
  }

  /** A waiting point, or the one being searched, still owns `q` on behalf of `d`. */
  ghost predicate Owner(b: Board, held: set<Point>, q: Point, d: Point, c: Point) {
    (c in b.waiting || c in held) && Dominates(q, c) && Dominates(c, d) && Clear(b, c, q)
  }

  ghost predicate Owned(b: Board, held: set<Point>, q: Point, d: Point) {
    exists c :: Owner(b, held, q, d, c)
  }

  /** Every feasible point below anything ever inserted is covered or still owned. */
  ghost predicate Coverage(p: Problem, b: Board, held: set<Point>) {
    forall q, d {:trigger Owned(b, held, q, d)} | q in FeasiblePoints(p) && d in b.seen && Dominates(q, d) ::
        Covered(b.found, q) || Owned(b, held, q, d)
  }

  ghost predicate Inv(p: Problem, b: Board, held: set<Point>) {
    Stored(p, b) && Guarded(b) && Listed(p, b) && Coverage(p, b, held) && p.max in b.seen && held <= b.seen
  }

  // ---------------------------------------------------------------- what an oracle answer means

  /** A feasible model outside the found regions extends to one of the database in which exactly
      the guards of one slide are false. */
  lemma GuardExtension(p: Problem, b: Board, c: Point, a: Assignment) returns (e: Assignment)
    requires Valid(p) && Stored(p, b) && Guarded(b)
    requires SatDb(p.hard, a) && !Covered(b.found, Eval(p, a)) && Clear(b, c, Eval(p, a))
    ensures SatDb(b.db, e) && Agree(a, e, p.base) && forall v | v in Deps(b.mem, c) :: v !in e
  {
    hide FeasiblePoints, Valid, BlockClause, GuardClause, Covered, Eval, Blocks, GuardClauses, Units, SatDb, Dominates;
    e := (set v | v in a && v < p.base) + (b.slideMap.Keys - Deps(b.mem, c));
    HardBelowBase(p);
    SatDbAgree(p.hard, a, e, p.base);
    EvalAgree(p, a, e);
    BlocksHold(p, b.found, e);
    forall v | v in b.slideMap
      ensures SatClause(GuardClause(p.roots, b.slideMap[v], Lit(v, false)), e)
    {
      GuardClauseHolds(p, b, c, e, v);
    }
    GuardsHold(p, b, e);
    SatUnion(p.hard, Blocks(p, b.found), e);
    SatUnion(p.hard + Blocks(p, b.found), GuardClauses(p, b.slideMap), e);
    SatUnion(p.hard + Blocks(p, b.found) + GuardClauses(p, b.slideMap), Units(b.finalized), e);
  }

  lemma BlocksHold(p: Problem, found: set<Point>, e: Assignment)
    requires Valid(p) && found <= FeasiblePoints(p) && SatDb(p.hard, e) && !Covered(found, Eval(p, e))
    ensures SatDb(Blocks(p, found), e)
  {
    hide FeasiblePoints, Valid, BlockClause;
    forall y | y in found
      ensures SatClause(BlockClause(p.roots, y), e)
    {
      var _ := FeasiblePoint(p, y);
      BlockMeaning(p, y, e) by { SameSize(p); }
    }
  }

  lemma GuardsHold(p: Problem, b: Board, e: Assignment)
    requires forall v | v in b.slideMap :: SatClause(GuardClause(p.roots, b.slideMap[v], Lit(v, false)), e)
    requires forall v | v in b.finalized :: v in e
    ensures SatDb(GuardClauses(p, b.slideMap), e) && SatDb(Units(b.finalized), e)
  {
    hide GuardClause;
    forall v | v in b.finalized
      ensures SatClause({Lit(v, false)}, e)
    {
      assert Lit(v, false) in {Lit(v, false)} && Holds(Lit(v, false), e);
    }
  }

  lemma GuardClauseHolds(p: Problem, b: Board, c: Point, e: Assignment, v: nat)
    requires Valid(p) && Stored(p, b) && v in b.slideMap && SatDb(p.hard, e)
    requires Clear(b, c, Eval(p, e)) && (v in Deps(b.mem, c) || v in e)
    ensures SatClause(GuardClause(p.roots, b.slideMap[v], Lit(v, false)), e)
  {
    hide FeasiblePoints, Blocks, GuardClauses, Units, GuardClause, Valid, Eval;
    var _ := FeasiblePoint(p, b.slideMap[v]);
    GuardMeaning(p, b.slideMap[v], Lit(v, false), e);
  }

  /** A refutation below `c` with the guards of its slide: what `c` still owns is covered. */
  lemma RefutationCovers(p: Problem, b: Board, c: Point, conflict: Clause, q: Point)
    requires Valid(p) && Stored(p, b) && Guarded(b) && |c| == |p.roots|
    requires Entails(b.db, conflict) && Negates(conflict, Assumed(p, b.mem, c))
    requires q in FeasiblePoints(p) && Dominates(q, c) && Clear(b, c, q)
    ensures Covered(b.found, q)
  {
    hide FeasiblePoints, Valid, Stored, Guarded, Covered, Dominates, Clear, SatDb, Entails, Negates, BelowLits;
    if !Covered(b.found, q) {
      var a := FeasiblePoint(p, q);
      var e := GuardExtension(p, b, c, a);
      SatDbAgree(p.hard, a, e, p.base) by { HardBelowBase(p); }
      EvalAgree(p, a, e);
      BelowComplete(p, c, e) by { SameSize(p); }
      ConflictRefutes(b.db, conflict, Assumed(p, b.mem, c), e);
    }
  }

  /** A model below `c` is a point that was neither found nor inserted before, and no find dominates it. */
  lemma ModelIsNewBelow(p: Problem, b: Board, held: set<Point>, c: Point, a: Assignment)
    requires Valid(p) && Inv(p, b, held) && c in held && SatDb(b.db, a) && AllHold(BelowLits(p.roots, c), a)
    ensures var y := Eval(p, a);
            SatDb(p.hard, a) && y in FeasiblePoints(p) && !Covered(b.found, y) && Dominates(y, c) && y !in b.seen &&
                Keyed(p, y)
  {
    hide FeasiblePoints, Valid, Coverage, Guarded, GuardClauses, Units, BelowLits, AllHold;
    var y := Eval(p, a);
    forall t | t in b.found
      ensures !Dominates(t, y)
    {
      assert BlockClause(p.roots, t) in b.db;
      var _ := FeasiblePoint(p, t);
      BlockMeaning(p, t, a) by { SameSize(p); }
    }
    ModelIsFeasible(p, a);
    ModelPointIsKeyed(p, a);
    BelowMeaning(p, c, a);
  }

  // ---------------------------------------------------------------- the steps

  function Popped(b: Board, c: Point): Board {
    b.(waiting := b.waiting - multiset{c})
  }

  lemma PopKeepsInv(p: Problem, b: Board, c: Point)
    requires Inv(p, b, {}) && c in b.waiting
    ensures Inv(p, Popped(b, c), {c})
  {
    hide FeasiblePoints, Dominates, Covered;
    var b' := Popped(b, c);
    forall q, d | q in FeasiblePoints(p) && d in b.seen && Dominates(q, d)
      ensures Covered(b.found, q) || Owned(b', {c}, q, d)
    {
      if !Covered(b.found, q) {
        assert Owned(b, {}, q, d);
        var e :| Owner(b, {}, q, d, e);
        assert Owner(b', {c}, q, d, e);
      }
    }
  }

  lemma UnpopKeepsInv(p: Problem, b: Board, c: Point)
    requires Inv(p, b, {c})
    ensures Inv(p, b.(waiting := b.waiting + multiset{c}), {})
  {
    hide FeasiblePoints, Dominates, Covered;
    var b' := b.(waiting := b.waiting + multiset{c});
    forall q, d | q in FeasiblePoints(p) && d in b.seen && Dominates(q, d)
      ensures Covered(b.found, q) || Owned(b', {}, q, d)
    {
      if !Covered(b.found, q) {
        assert Owned(b, {c}, q, d);
        var e :| Owner(b, {c}, q, d, e);
        assert Owner(b', {}, q, d, e);
      }
    }
  }

  /** A refuted point can be dropped. */
  lemma RefutedKeepsInv(p: Problem, b: Board, c: Point, conflict: Clause)
    requires Valid(p) && Inv(p, b, {c})
    requires Entails(b.db, conflict) && Negates(conflict, Assumed(p, b.mem, c))
    ensures Inv(p, b, {})
    ensures conflict == {} ==> CoversAll(b.found, FeasiblePoints(p))
  {
    hide FeasiblePoints, Dominates, Covered, Valid, Stored, Guarded, Entails, Negates, Clear, Keyed;
    assert |c| == |p.roots| by { KeyedSize(p, c); }
    forall q, d | q in FeasiblePoints(p) && d in b.seen && Dominates(q, d)
      ensures Covered(b.found, q) || Owned(b, {}, q, d)
    {
      if !Covered(b.found, q) {
        assert Owned(b, {c}, q, d);
        var e :| Owner(b, {c}, q, d, e);
        if e !in b.waiting {
          RefutationCovers(p, b, c, conflict, q);
        }
        assert Owner(b, {}, q, d, e);
      }
    }
    if conflict == {} {
      forall q | q in FeasiblePoints(p)
        ensures Covered(b.found, q)
      {
        EmptyRefutationCovers(p, b, q);
      }
    }
  }

  lemma KeyedSize(p: Problem, c: Point)
    requires Keyed(p, c)
    ensures |c| == |p.roots|
  {
  }

  lemma EmptyRefutationCovers(p: Problem, b: Board, q: Point)
    requires Valid(p) && Stored(p, b) && Guarded(b) && Entails(b.db, {}) && q in FeasiblePoints(p)
    ensures Covered(b.found, q)
  {
    hide FeasiblePoints, Valid, Stored, Guarded, Covered;
    if !Covered(b.found, q) {
      var a := FeasiblePoint(p, q);
      // with no unfinished slide in the way
      var all := b.(mem := map[]);
      assert Stored(p, all) && Guarded(all) by { WithoutSlides(p, b); }
      NoModels(b.db);
      var e := GuardExtension(p, all, [], a);
    }
  }

  lemma NoModels(db: Db)
    requires Entails(db, {})
    ensures forall a: Assignment :: !SatDb(db, a)
  {
    assert forall a: Assignment :: !SatClause({}, a);
  }

  lemma WithoutSlides(p: Problem, b: Board)
    requires Stored(p, b)
    ensures Stored(p, b.(mem := map[])) && Guarded(b.(mem := map[]))
  {
    hide FeasiblePoints, Blocks, GuardClauses, Units;
  }

  /** The board once the slide from `c` has recorded the point `y`. */
  function Recorded(p: Problem, b: Board, c: Point, y: Point): Board {
    Board(b.db + {BlockClause(p.roots, y)} + {GuardClause(p.roots, y, Lit(b.nVars, false))}, b.nVars + 1,
      b.waiting + multiset{y}, b.seen + {y}, b.mem[c := Deps(b.mem, c) + {b.nVars}], b.slideMap[b.nVars := y],
      b.found + {y}, b.finalized)
  }

  lemma RecordedIsStored(p: Problem, b: Board, c: Point, y: Point)
    requires Stored(p, b) && y in FeasiblePoints(p)
    ensures Stored(p, Recorded(p, b, c, y))
  {
    hide FeasiblePoints, BlockClause, GuardClause;
    var b' := Recorded(p, b, c, y);
    assert Blocks(p, b'.found) == Blocks(p, b.found) + {BlockClause(p.roots, y)};
    assert b.nVars !in b.slideMap;
    assert GuardClauses(p, b'.slideMap) == GuardClauses(p, b.slideMap) + {GuardClause(p.roots, y, Lit(b.nVars, false))};
  }

  lemma RecordedOwner(p: Problem, b: Board, c: Point, y: Point, q: Point, d: Point)
    requires Stored(p, b) && Guarded(b) && Listed(p, b) && c in b.seen && y !in b.seen && Dominates(y, c)
    requires Owned(b, {c}, q, d)
    ensures Owned(Recorded(p, b, c, y), {c}, q, d)
  {
    hide FeasiblePoints, Blocks, GuardClauses, Units, BlockClause, GuardClause, Covered, Keyed;
    var b' := Recorded(p, b, c, y);
    var e :| Owner(b, {c}, q, d, e);
    assert b.nVars !in b.slideMap;
    if e == c && Dominates(q, y) {
      DominatesTransitive(y, c, d);
      NewPointOwns(p, b, c, y, q, d);
    } else {
      assert Clear(b', e, q);
      assert Owner(b', {c}, q, d, e);
    }
  }

  /** A new find owns everything below it. */
  lemma NewPointOwns(p: Problem, b: Board, c: Point, y: Point, q: Point, d: Point)
    requires Listed(p, b) && c in b.seen && y !in b.seen && Dominates(q, y) && Dominates(y, d)
    ensures Owned(Recorded(p, b, c, y), {c}, q, d)
  {
    hide FeasiblePoints, BlockClause, GuardClause, Covered, Keyed;
    var b' := Recorded(p, b, c, y);
    assert y !in b'.mem;
    assert Owner(b', {c}, q, d, y);
  }

  lemma RecordKeepsInv(p: Problem, b: Board, c: Point, y: Point)
    requires Inv(p, b, {c}) && y in FeasiblePoints(p) && y !in b.seen && Dominates(y, c) && Keyed(p, y)
    ensures Inv(p, Recorded(p, b, c, y), {c})
  {
    hide FeasiblePoints, Stored, Dominates, Covered, BlockClause, GuardClause, Keyed;
    var b' := Recorded(p, b, c, y);
    RecordedIsStored(p, b, c, y);
    CoversMore(b.found, y);
    DominatesItself(y);
    RecordedIsGuarded(p, b, c, y);
    forall q, d | q in FeasiblePoints(p) && d in b'.seen && Dominates(q, d)
      ensures Covered(b'.found, q) || Owned(b', {c}, q, d)
    {
      if d == y {
        NewPointOwns(p, b, c, y, q, d);
      } else if !Covered(b.found, q) {
        assert Owned(b, {c}, q, d);
        RecordedOwner(p, b, c, y, q, d);
      }
    }
    assert forall d {:trigger Keyed(p, d)} | d in b'.seen ::
        Keyed(p, d) && (Covered(b'.found, d) || d !in FeasiblePoints(p));
  }

  lemma RecordedIsGuarded(p: Problem, b: Board, c: Point, y: Point)
    requires Stored(p, b) && Guarded(b)
    ensures Guarded(Recorded(p, b, c, y))
  {
    hide FeasiblePoints, Blocks, GuardClauses, Units, BlockClause, GuardClause;
    assert b.nVars !in b.slideMap;
  }

  lemma CoversMore(found: set<Point>, y: Point)
    ensures forall q {:trigger Covered(found, q)} | Covered(found, q) :: Covered(found + {y}, q)
    ensures Covered(found + {y}, y)
  {
    DominatesItself(y);
    forall q | Covered(found, q)
      ensures Covered(found + {y}, q)
    {
      CoverGrows(found, found + {y}, q);
    }
  }

  /** A finished slide: its guards become true and are forgotten. */
  function Finished(b: Board, c: Point): Board {
    b.(db := b.db + Units(Deps(b.mem, c)), mem := b.mem - {c}, finalized := b.finalized + Deps(b.mem, c))
  }

  lemma FinishKeepsInv(p: Problem, b: Board, c: Point)
    requires Inv(p, b, {})
    ensures Inv(p, Finished(b, c), {})
  {
    hide FeasiblePoints, Dominates, Covered, Blocks, GuardClauses, Keyed;
    var b' := Finished(b, c);
    assert Units(b'.finalized) == Units(b.finalized) + Units(Deps(b.mem, c));
    forall q, d | q in FeasiblePoints(p) && d in b'.seen && Dominates(q, d)
      ensures Covered(b'.found, q) || Owned(b', {}, q, d)
    {
      if !Covered(b.found, q) {
        assert Owned(b, {}, q, d);
        var e :| Owner(b, {}, q, d, e);
        assert Clear(b', e, q);
        assert Owner(b', {}, q, d, e);
      }
    }
  }

  /** With nothing waiting and nothing held, everything feasible is covered. */
  lemma EmptyListCovers(p: Problem, b: Board)
    requires Valid(p) && Inv(p, b, {}) && b.waiting == multiset{}
    ensures CoversAll(b.found, FeasiblePoints(p))
  {
    hide Stored, Guarded, Valid, FeasiblePoints, Dominates;
    forall q | q in FeasiblePoints(p)
      ensures Covered(b.found, q)
    {
      var _ := FeasiblePoint(p, q);
      assert !Owned(b, {}, q, p.max);
    }
  }

  /** The board after the first solution was blocked and the upper bounds were inserted. */
  function Start(p: Problem, first: Point, nVars: nat): Board {
    Board(p.hard + {BlockClause(p.roots, first)}, nVars, multiset{p.max}, {p.max}, map[], map[], {first}, {})
  }

  lemma StartInv(p: Problem, first: Point, nVars: nat)
    requires Valid(p) && first in FeasiblePoints(p) && p.base <= nVars
    ensures Inv(p, Start(p, first, nVars), {})
  {
    hide FeasiblePoints, BlockClause, Valid;
    var b := Start(p, first, nVars);
    assert Blocks(p, {first}) == {BlockClause(p.roots, first)};
    assert GuardClauses(p, map[]) == {} && Units({}) == {};
    var _ := FeasiblePoint(p, first);
    KeyedAbove(p, first, p.max);
    forall q, d | q in FeasiblePoints(p) && d in b.seen && Dominates(q, d)
      ensures Owned(b, {}, q, d)
    {
      DominatesItself(d);
      assert Owner(b, {}, q, d, d);
    }
  }

  /** Starting a slide from a point that has none. */
  lemma OpenedKeepsInv(p: Problem, b: Board, c: Point)
    requires Inv(p, b, {c})
    ensures Inv(p, b.(mem := b.mem[c := Deps(b.mem, c)]), {c})
  {
    hide FeasiblePoints, Dominates, Covered, Blocks, GuardClauses, Units, Keyed;
    var b' := b.(mem := b.mem[c := Deps(b.mem, c)]);
    forall q, d | q in FeasiblePoints(p) && d in b.seen && Dominates(q, d)
      ensures Covered(b.found, q) || Owned(b', {c}, q, d)
    {
      if !Covered(b.found, q) {
        assert Owned(b, {c}, q, d);
        var e :| Owner(b, {c}, q, d, e);
        assert Deps(b'.mem, e) == Deps(b.mem, e);
        assert Owner(b', {c}, q, d, e);
      }
    }
  }

  // ---------------------------------------------------------------- small facts for the search

  /** The assumptions for a held point are literals of the solver. */
  lemma AssumedBelow(p: Problem, b: Board, c: Point)
    requires Valid(p) && Inv(p, b, {c})
    ensures |c| == |p.roots| && LitsBelow(Assumed(p, b.mem, c), b.nVars)
    ensures forall v | v in Deps(b.mem, c) :: v < b.nVars
  {
    hide FeasiblePoints, Blocks, GuardClauses, Units, Coverage, Valid, BelowLits, Covered;
    assert Keyed(p, c);
    ClausesBelowBase(p, c);
    forall v | v in Deps(b.mem, c)
      ensures v < b.nVars
    {
      assert v in b.mem[c] && v in b.slideMap;
    }
  }

  lemma AssumedIs(p: Problem, mem: map<Point, set<nat>>, c: Point)
    ensures Assumed(p, mem, c) == BelowLits(p.roots, c) + if c in mem then set v | v in mem[c] :: Lit(v, true) else {}
  {
    hide BelowLits;
  }

  lemma AssumedSplit(p: Problem, mem: map<Point, set<nat>>, c: Point)
    ensures forall a: Assignment | AllHold(Assumed(p, mem, c), a) :: AllHold(BelowLits(p.roots, c), a)
  {
  }

  lemma FoundIsFeasible(p: Problem, b: Board, held: set<Point>)
    requires Inv(p, b, held)
    ensures b.found <= FeasiblePoints(p)
  {
  }

  lemma SeenIsListed(p: Problem, b: Board, c: Point)
    requires Inv(p, b, {c})
    ensures c in b.seen
  {
  }

  lemma NewIsUncovered(p: Problem, found: set<Point>, finds: set<Point>, points: set<Point>, first: Assignment,
      y: Point)
    requires finds + {Eval(p, first)} <= found && Fronts(finds, points) && !Covered(found, y) && |y| == |p.objs|
    ensures !Covered(points, y) && y !in found && y != []
  {
    DominatesItself(y);
    assert Dominates(Eval(p, first), y) || y != [];
  }

  lemma StoredBelow(p: Problem, b: Board, held: set<Point>)
    requires Inv(p, b, held)
    ensures p.base <= b.nVars && b.nVars !in b.slideMap
  {
  }

  // ---------------------------------------------------------------- the search

  datatype Answer = Unknown | Optimum | Unsatisfiable | Budget | Interrupted

  class Search {
    const p: Problem
    const solver: Solver
    const solution: Solution
    const first: Assignment
    /** Whether there is a conflict limit. */
    const budgeted: bool
    /** Whether another thread may ask the search to stop. */
    const interruptible: bool
    var waiting: multiset<Point>
    var seen: set<Point>
    var popped: Point
    var mem: map<Point, set<nat>>
    var slideMap: map<nat, Point>
    var drillMarker: Point
    var assumptions: set<Lit>
    var answer: Answer
    var stop: bool
    // The points of the archive's solutions, and those that a master took over before.
    ghost var finds: set<Point>
    ghost var handed: set<Point>
    ghost var finalized: set<nat>

    constructor (p: Problem, solver: Solver, solution: Solution, first: Assignment, budgeted: bool,
        interruptible: bool)
      ensures this.p == p && this.solver == solver && this.solution == solution && this.first == first
      ensures this.budgeted == budgeted && this.interruptible == interruptible
      ensures waiting == multiset{} && seen == {} && mem == map[] && slideMap == map[]
      ensures finds == {} && handed == {} && finalized == {} && answer == Unknown && !stop
    {
      this.p, this.solver, this.solution, this.first := p, solver, solution, first;
      this.budgeted, this.interruptible := budgeted, interruptible;
      waiting, seen, popped, drillMarker := multiset{}, {}, [], [];
      mem, slideMap, assumptions, answer, stop := map[], map[], {}, Unknown, false;
      finds, handed, finalized := {}, {}, {};
    }

    /** `search_MO` up to the search: block the first solution, insert the upper bounds. */
    method Begin()
      requires Valid(p) && solver.Valid() && p.base <= solver.nVars && solver.clauses == p.hard
      requires SatDb(p.hard, first) && solution.entries == []
      requires waiting == multiset{} && seen == {} && mem == map[] && slideMap == map[] && finds == {} &&
          handed == {} && finalized == {}
      modifies this`waiting, this`seen, solver`clauses
      ensures Resumable()
    {
      hide Valid, FeasiblePoints, SatDb, Inv, BlockClause, CoversAll, DbBelow, LitsBelow, Keyed, Eval, Dominates,
           Covered;
      ModelIsFeasible(p, first);
      ghost var y := Eval(p, first);
      var _ := FeasiblePoint(p, y);
      KeyedSize(p, y);
      BlockDominatedRegion(solver, p, p.roots, Eval(p, first));
      Insert(p.max);
      StartInv(p, y, solver.nVars);
      NothingPushed();
      assert Here() == Start(p, y, solver.nVars);
    }

    ghost function Here(): Board
      reads this, solver
    {
      Board(solver.clauses, solver.nVars, waiting, seen, mem, slideMap, handed + finds + {Eval(p, first)}, finalized)
    }

    /** The state between two steps, with the point taken from the list. */
    ghost predicate Holding(held: set<Point>)
      reads this, solver, solution
    {
      && Valid(p) && SatDb(p.hard, first) && solver.Valid()
      && Inv(p, Here(), held) && Fronts(finds, Points(solution.entries)) && Candidates(p, solution.entries)
    }

    /** No point is taken: this is the state from which a search that ran out of budget resumes. */
    ghost predicate Resumable()
      reads this, solver, solution
    {
      Holding({})
    }

    /** The flag stays raised once it is, and only somebody else raises it. */
    predicate Outside(before: bool)
      reads this`stop
    {
      (before ==> stop) && (stop ==> before || interruptible)
    }

    method StopRequested() returns (b: bool)
      modifies this`stop
      ensures b == stop && Outside(old(stop))
    {
      if interruptible {
        if * {
          stop := true;
        }
      }
      b := stop;
    }

    /** `insert`: refused for a point that was ever inserted. */
    method Insert(y: Point)
      modifies this`waiting, this`seen
      ensures seen == old(seen) + {y}
      ensures waiting == if y in old(seen) then old(waiting) else old(waiting) + multiset{y}
    {
      if y !in seen {
        waiting := waiting + multiset{y};
      }
      seen := seen + {y};
    }

    method Pop() returns (y: Point)
      requires waiting != multiset{}
      modifies this`waiting, this`popped
      ensures y in old(waiting) && waiting == old(waiting) - multiset{y} && popped == y
    {
      y :| y in waiting;
      waiting := waiting - multiset{y};
      popped := y;
    }

    /** `unpop`: the last popped point goes back, seen or not. */
    method Unpop()
      modifies this`waiting, this`seen
      ensures waiting == old(waiting) + multiset{popped} && seen == old(seen) + {popped}
    {
      waiting := waiting + multiset{popped};
      seen := seen + {popped};
    }

    method Take() returns (yp: Point)
      requires Resumable() && waiting != multiset{}
      modifies this`waiting, this`popped
      ensures Holding({yp}) && popped == yp && |waiting| < |old(waiting)|
    {
      hide Inv, Valid, FeasiblePoints, Fronts, Points, Candidates, SatDb, DbBelow, LitsBelow, Eval;
      ghost var b := Here();
      yp := Pop();
      PopKeepsInv(p, b, yp);
      assert Here() == Popped(b, yp);
    }

    /** The start of a round of `drill`: take a waiting point, and assume the region below it
        without what an unfinished slide from it already took away. */
    method Focus() returns (yp: Point)
      requires Resumable() && waiting != multiset{}
      modifies this`waiting, this`popped, this`drillMarker, this`assumptions
      ensures Holding({yp}) && popped == yp && |waiting| < |old(waiting)|
      ensures assumptions == Assumed(p, mem, yp) && LitsBelow(assumptions, solver.nVars)
    {
      hide Inv, Valid, FeasiblePoints, Fronts, Points, Candidates, SatDb, AllHold, BelowLits, Entails, Negates,
           Covered, CoversAll, DbBelow, LitsBelow, Eval, Assumed;
      yp := Take();
      AssumedBelow(p, Here(), yp);
      var lits := AssumeDominatingRegion(p.roots, yp, {});
      AssumedIs(p, mem, yp);
      if yp in mem {
        drillMarker := yp;
        lits := lits + set v | v in mem[yp] :: Lit(v, true);
      }
      assumptions := lits;
    }

    /** One call has given up, or none. */
    ghost predicate GaveUp(before: nat, once: bool)
      reads solver
    {
      (once ==> budgeted) && solver.gaveUp == before + if once then 1 else 0
    }

    /** An oracle call below the held point, which may exhaust its budget. */
    method SolveHeld(ghost c: Point) returns (sat: Outcome)
      requires Holding({c}) && assumptions == Assumed(p, mem, c)
      modifies solver`model, solver`conflict, solver`gaveUp
      ensures Holding({c}) && (sat == Sat ==> ModelBelow(c)) && GaveUp(old(solver.gaveUp), sat == Undef)
      ensures sat == Unsat ==> Entails(solver.clauses, solver.conflict) && Negates(solver.conflict, Assumed(p, mem, c))
    {
      hide Inv, Valid, FeasiblePoints, Fronts, Points, Candidates, SatDb, AllHold, BelowLits, Entails, Negates,
           Covered, CoversAll, DbBelow, LitsBelow, Eval, Assumed;
      AssumedBelow(p, Here(), c);
      AssumedSplit(p, mem, c);
      sat := solver.Solve(assumptions, budgeted);
    }

    /** The point whose budget ran out goes back to the list. */
    method GiveBack(ghost c: Point)
      requires Holding({c}) && popped == c
      modifies this`waiting, this`seen, this`answer
      ensures Resumable() && answer == Budget && Here().found == old(Here().found)
    {
      hide Inv, Valid, FeasiblePoints, Fronts, Points, Candidates, SatDb, AllHold, BelowLits, Entails, Negates,
           Covered, CoversAll, DbBelow, LitsBelow, Eval, Assumed;
      ghost var b := Here();
      UnpopKeepsInv(p, b, c);
      SeenIsListed(p, b, c);
      Unpop();
      answer := Budget;
      assert Here() == b.(waiting := b.waiting + multiset{c});
    }

    /** One round of `drill`: an oracle call below a waiting point, unless the search is told to stop. */
    method DrillOnce() returns (yp: Point, stopped: bool, sat: Outcome)
      requires Resumable() && waiting != multiset{}
      modifies this`waiting, this`popped, this`drillMarker, this`assumptions, this`stop, solver`model, solver`conflict,
          solver`gaveUp
      ensures Outside(old(stop)) && (stopped ==> stop)
      ensures Holding({yp}) && popped == yp && |waiting| < |old(waiting)|
      ensures !stopped && sat == Sat ==> ModelBelow(yp)
      ensures GaveUp(old(solver.gaveUp), !stopped && sat == Undef)
      ensures !stopped && sat == Unsat ==>
          Entails(solver.clauses, solver.conflict) && Negates(solver.conflict, Assumed(p, mem, yp))
    {
      hide Inv, Valid, FeasiblePoints, Fronts, Points, Candidates, SatDb, AllHold, BelowLits, Entails, Negates,
           Covered, CoversAll, DbBelow, LitsBelow, Eval, Assumed;
      yp := Focus();
      sat := Undef;
      stopped := StopRequested();
      if !stopped {
        sat := SolveHeld(yp);
      }
    }

    lemma Dropped(yp: Point)
      requires Holding({yp}) && Entails(solver.clauses, solver.conflict)
      requires Negates(solver.conflict, Assumed(p, mem, yp))
      ensures Resumable() && (solver.conflict == {} ==> CoversAll(Here().found, FeasiblePoints(p)))
    {
      hide Inv, Valid, FeasiblePoints, Fronts, Points, Candidates, SatDb, Entails, Negates, CoversAll, Eval, Assumed;
      RefutedKeepsInv(p, Here(), yp, solver.conflict);
    }

    lemma NothingWaits()
      requires Resumable() && waiting == multiset{}
      ensures CoversAll(Here().found, FeasiblePoints(p))
    {
      hide Inv, Valid, FeasiblePoints, Fronts, Points, Candidates, SatDb, CoversAll, Eval;
      EmptyListCovers(p, Here());
    }

    /** `drill`: search below waiting points until one has a model. Refuted points are dropped; on
        an exhausted budget the point goes back to the list. */
    method Drill() returns (drilled: bool)
      requires Resumable() && answer != Budget
      modifies this`waiting, this`seen, this`popped, this`drillMarker, this`assumptions, this`answer, this`stop
      modifies solver`model, solver`conflict, solver`gaveUp
      ensures Outside(old(stop)) && (drilled ==> answer == old(answer))
      ensures GaveUp(old(solver.gaveUp), answer == Budget)
      ensures drilled ==>
          stop || (Holding({drillMarker}) && popped == drillMarker && ModelBelow(drillMarker) && assumptions == {})
      ensures !drilled ==> Resumable()
      ensures !drilled && answer != Budget ==> answer == old(answer) && CoversAll(Here().found, FeasiblePoints(p))
    {
      hide Inv, Valid, FeasiblePoints, Fronts, Points, Candidates, SatDb, AllHold, BelowLits, Entails, Negates,
           Covered, CoversAll, DbBelow, LitsBelow, Eval, Assumed;
      var sat: Outcome := Unsat;
      var yp: Point := [];
      while waiting != multiset{}
        invariant Resumable() && Outside(old(stop)) && sat == Unsat && answer == old(answer)
        invariant solver.gaveUp == old(solver.gaveUp)
        decreases |waiting|
      {
        var stopped;
        yp, stopped, sat := DrillOnce();
        if stopped {
          return true;
        }
        if sat != Unsat {
          break;
        }
        Dropped(yp);
        if solver.conflict == {} {
          return false;
        }
        stopped := StopRequested();
        if stopped {
          return true;
        }
      }
      assumptions := {};
      if sat == Undef {
        GiveBack(yp);
        return false;
      }
      if sat == Unsat {
        NothingWaits();
        return false;
      }
      drillMarker := yp;
      drilled := true;
    }

    ghost predicate ModelBelow(c: Point)
      reads solver
    {
      SatDb(solver.clauses, solver.model) && AllHold(BelowLits(p.roots, c), solver.model)
    }

    /** Block the new point, and guard what the rest of the slide must avoid with a fresh variable. */
    method Guard(y: Point)
      requires Valid(p) && solver.Valid() && p.base <= solver.nVars && |y| == |p.roots| && y !in seen
      requires drillMarker in mem && assumptions == Assumed(p, mem, drillMarker)
      modifies this`waiting, this`seen, this`mem, this`slideMap, this`assumptions, solver`clauses, solver`nVars
      ensures solver.Valid() && drillMarker in mem && assumptions == Assumed(p, mem, drillMarker)
      ensures Here().(found := {}) == Recorded(p, old(Here()), drillMarker, y).(found := {})
    {
      hide Valid, BelowLits, BlockClause, GuardClause, DbBelow, LitsBelow, Eval;
      var v := solver.NewVar();
      mem := mem[drillMarker := mem[drillMarker] + {v}];
      slideMap := slideMap[v := y];
      Insert(y);
      BlockDominatedRegion(solver, p, p.roots, y);
      AssumeIncomparableRegion(solver, p, p.roots, y, Lit(v, false));
      assumptions := assumptions + {Lit(v, true)};
    }

    /** Take in a model found during the slide from `drillMarker`. */
    method Record()
      requires Holding({drillMarker}) && ModelBelow(drillMarker) && drillMarker in mem
      requires assumptions == Assumed(p, mem, drillMarker)
      modifies this`waiting, this`seen, this`mem, this`slideMap, this`assumptions, this`finds, solver`clauses,
          solver`nVars, solution
      ensures Holding({drillMarker}) && drillMarker in mem && assumptions == Assumed(p, mem, drillMarker)
      ensures old(Here().found) < Here().found && drillMarker != [] && old(finds) <= finds
    {
      hide Valid, FeasiblePoints, Fronts, Points, Candidates, SatDb, AllHold, BelowLits, BlockClause, GuardClause, Inv,
           Covered, CoversAll, DbBelow, LitsBelow, Keyed, Kept, Eval, Dominates, Assumed, Deps;
      ghost var b, c := Here(), drillMarker;
      var y := Eval(p, solver.model);
      ModelIsNewBelow(p, b, {c}, c, solver.model);
      SameSize(p);
      KeyedSize(p, y);
      AssumedBelow(p, b, c);
      NewIsUncovered(p, b.found, finds, Points(solution.entries), first, y);
      CandidatesGrow(p, solution.entries, solver.model, y);
      FrontsGrow(finds, solution.entries, solver.model, y);
      RecordKeepsInv(p, b, c, y);
      StoredBelow(p, b, {c});
      var added := solution.PushSafe(solver.model, y);
      if added {
        y := solution.entries[|solution.entries| - 1].point;
        Guard(y);
      }
      finds := finds + {y};
      assert y in Here().found && y !in b.found;
      assert Here().found == b.found + {y};
      assert Here() == Recorded(p, b, c, y);
    }

    /** Make the guards of a finished slide true. */
    method Finalize(deps: set<nat>)
      requires solver.Valid() && forall v | v in deps :: v < solver.nVars
      modifies solver`clauses
      ensures solver.Valid() && solver.clauses == old(solver.clauses) + Units(deps)
    {
      var rest := deps;
      while rest != {}
        invariant solver.Valid() && rest <= deps && solver.clauses == old(solver.clauses) + Units(deps - rest)
        decreases rest
      {
        var v :| v in rest;
        solver.AddClause({Lit(v, false)});
        assert Units(deps - (rest - {v})) == Units(deps - rest) + {{Lit(v, false)}};
        rest := rest - {v};
      }
      assert deps - rest == deps;
    }

    /** The start of `slide`: assume the region below the drilled point and the guards of an
        earlier slide from it, or start a new one. */
    method OpenSlide()
      requires Holding({drillMarker}) && assumptions == {}
      modifies this`mem, this`assumptions
      ensures Holding({drillMarker}) && drillMarker in mem && assumptions == Assumed(p, mem, drillMarker)
      ensures Here().found == old(Here().found)
    {
      hide Inv, Valid, FeasiblePoints, Fronts, Points, Candidates, SatDb, AllHold, BelowLits, Entails, Negates,
           Covered, CoversAll, DbBelow, LitsBelow, Eval, Assumed;
      OpenedKeepsInv(p, Here(), drillMarker);
      AssumedBelow(p, Here(), drillMarker);
      assumptions := AssumeDominatingRegion(p.roots, drillMarker, assumptions);
      if drillMarker in mem {
        assumptions := assumptions + set v | v in mem[drillMarker] :: Lit(v, true);
        assert mem[drillMarker := Deps(mem, drillMarker)] == mem;
      } else {
        mem := mem[drillMarker := {}];
      }
      AssumedIs(p, mem, drillMarker);
    }

    /** The end of a refuted slide: its guards become true and it is forgotten. */
    method CloseSlide()
      requires Holding({drillMarker}) && drillMarker in mem
      requires Entails(solver.clauses, solver.conflict) && Negates(solver.conflict, Assumed(p, mem, drillMarker))
      modifies this`mem, this`finalized, solver`clauses
      ensures Resumable() && Here().found == old(Here().found)
      ensures solver.conflict == {} ==> CoversAll(Here().found, FeasiblePoints(p))
    {
      hide Inv, Valid, FeasiblePoints, Fronts, Points, Candidates, SatDb, AllHold, BelowLits, Entails, Negates,
           Covered, CoversAll, DbBelow, LitsBelow, Eval, Assumed;
      ghost var b := Here();
      AssumedBelow(p, b, drillMarker);
      RefutedKeepsInv(p, b, drillMarker, solver.conflict);
      FinishKeepsInv(p, b, drillMarker);
      Finalize(mem[drillMarker]);
      finalized := finalized + mem[drillMarker];
      mem := mem - {drillMarker};
      assert Here() == Finished(b, drillMarker);
    }

    /** One round of `slide`: record the model, then look for the next one. */
    method SlideOnce() returns (stopped: bool, sat: Outcome)
      requires Holding({drillMarker}) && ModelBelow(drillMarker) && drillMarker in mem
      requires assumptions == Assumed(p, mem, drillMarker)
      modifies this`waiting, this`seen, this`mem, this`slideMap, this`assumptions, this`finds, this`stop, solver,
          solution
      ensures Outside(old(stop)) && (stopped ==> stop)
      ensures Holding({drillMarker}) && drillMarker in mem && assumptions == Assumed(p, mem, drillMarker)
      ensures old(Here().found) < Here().found <= FeasiblePoints(p) && drillMarker != []
      ensures old(finds) <= finds && GaveUp(old(solver.gaveUp), sat == Undef && !stopped)
      ensures sat == Sat && !stopped ==> ModelBelow(drillMarker)
      ensures sat == Unsat && !stopped ==>
          Entails(solver.clauses, solver.conflict) && Negates(solver.conflict, assumptions)
    {
      hide Inv, Valid, FeasiblePoints, Fronts, Points, Candidates, SatDb, AllHold, BelowLits, Entails, Negates,
           Covered, CoversAll, DbBelow, LitsBelow, Eval, Assumed;
      sat := Undef;
      Record();
      FoundIsFeasible(p, Here(), {drillMarker});
      stopped := StopRequested();
      if !stopped {
        sat := SolveHeld(drillMarker);
      }
    }

    /** The end of `slide`: give the point back when the budget ran out, or close the slide. */
    method EndSlide(sat: Outcome) returns (done: bool)
      requires Holding({drillMarker}) && drillMarker in mem && popped == drillMarker && drillMarker != [] && sat != Sat
      requires sat == Unsat ==>
          Entails(solver.clauses, solver.conflict) && Negates(solver.conflict, Assumed(p, mem, drillMarker))
      requires answer != Budget
      modifies this`waiting, this`seen, this`mem, this`answer, this`stop, this`finalized, solver`clauses
      ensures Outside(old(stop)) && (!done ==> stop || answer == Budget) && (stop || Resumable())
      ensures answer == (if !stop && sat == Undef then Budget else old(answer)) && Here().found == old(Here().found)
      ensures done ==> Resumable() && sat == Unsat
      ensures done && solver.conflict == {} ==> CoversAll(Here().found, FeasiblePoints(p))
    {
      hide Inv, Valid, FeasiblePoints, Fronts, Points, Candidates, SatDb, AllHold, BelowLits, Entails, Negates,
           Covered, CoversAll, DbBelow, LitsBelow, Eval, Assumed;
      done := false;
      var stopped := StopRequested();
      if stopped {
        return;
      }
      if sat == Undef {
        if drillMarker != [] {
          GiveBack(drillMarker);
        }
        answer := Budget;
        return;
      }
      CloseSlide();
      done := true;
    }

    /** `slide`: record finds below the drilled point until nothing is left outside their regions. On
        an exhausted budget the point goes back to the list, and its guards wait for the resumption. */
    method Slide() returns (done: bool)
      requires Holding({drillMarker}) && ModelBelow(drillMarker) && popped == drillMarker && assumptions == {} &&
          answer != Budget
      modifies this`waiting, this`seen, this`mem, this`slideMap, this`assumptions, this`answer, this`stop, this`finds,
          this`finalized
      modifies solver, solution
      ensures Outside(old(stop)) && (!done ==> stop || answer == Budget)
      ensures stop || Resumable()
      ensures (answer == old(answer) || answer == Budget) && old(Here().found) <= Here().found
      ensures stop || GaveUp(old(solver.gaveUp), answer == Budget)
      ensures old(finds) <= finds
      ensures done ==> Resumable() && answer == old(answer) && old(Here().found) < Here().found
      ensures done && solver.conflict == {} ==> CoversAll(Here().found, FeasiblePoints(p))
    {
      hide Inv, Valid, FeasiblePoints, Fronts, Points, Candidates, SatDb, AllHold, BelowLits, Entails, Negates,
           Covered, CoversAll, DbBelow, LitsBelow, Eval, Assumed;
      done := false;
      OpenSlide();
      var sat: Outcome := Sat;
      while sat == Sat
        invariant Holding({drillMarker}) && drillMarker in mem && popped == drillMarker && Outside(old(stop))
        invariant assumptions == Assumed(p, mem, drillMarker) && answer == old(answer)
        invariant (sat == Sat ==> ModelBelow(drillMarker)) && old(finds) <= finds
        invariant GaveUp(old(solver.gaveUp), sat == Undef)
        invariant sat == Unsat ==> Entails(solver.clauses, solver.conflict) && Negates(solver.conflict, assumptions)
        invariant old(Here().found) <= Here().found &&
            (sat != Sat ==> drillMarker != [] && old(Here().found) < Here().found)
        decreases FeasiblePoints(p) - Here().found, sat == Sat
      {
        var stopped;
        stopped, sat := SlideOnce();
        if stopped {
          return;
        }
      }
      done := EndSlide(sat);
    }

    /** A model below the held point is a point that the finds do not cover. */
    lemma NewPointLeft()
      requires Holding({drillMarker}) && ModelBelow(drillMarker)
      ensures !CoversAll(Here().found, FeasiblePoints(p))
    {
      hide Inv, Valid, FeasiblePoints, Fronts, Points, Candidates, SatDb, AllHold, BelowLits, Covered, Eval;
      ModelIsNewBelow(p, Here(), {drillMarker}, drillMarker, solver.model);
      assert Eval(p, solver.model) in FeasiblePoints(p) && !Covered(Here().found, Eval(p, solver.model));
    }

    /** `searchBoundHonerMO`: a search that is not told to stop either runs out of budget, and can
        resume from where it is, or has found points that cover everything feasible. */
    method Run() returns (r: bool)
      requires Resumable() && answer == Unknown
      modifies this, solver, solution
      ensures Outside(old(stop)) && (!r ==> stop) && (answer == Unknown || answer == Budget)
      ensures r ==> Resumable() && (answer == Unknown ==> CoversAll(Here().found, FeasiblePoints(p)))
      ensures stop || Resumable()
      ensures handed == old(handed) && old(finds) <= finds
      ensures stop || GaveUp(old(solver.gaveUp), answer == Budget)
      ensures CoversAll(old(Here().found), FeasiblePoints(p)) ==> finds == old(finds)
    {
      hide Inv, Valid, FeasiblePoints, Fronts, Points, Candidates, SatDb, AllHold, BelowLits, Covered, CoversAll;
      while answer != Budget
        invariant Resumable() && Outside(old(stop)) && (answer == Unknown || answer == Budget)
        invariant handed == old(handed) && old(finds) <= finds
        invariant stop || GaveUp(old(solver.gaveUp), answer == Budget)
        invariant CoversAll(old(Here().found), FeasiblePoints(p)) ==> finds == old(finds)
        decreases FeasiblePoints(p) - Here().found, answer != Budget
      {
        FoundIsFeasible(p, Here(), {});
        ghost var before := Here().found;
        var drilled := Drill();
        if !drilled {
          break;
        }
        var stopped := StopRequested();
        if stopped {
          return false;
        }
        NewPointLeft();
        var done := Slide();
        if done {
          if solver.conflict == {} {
            return true;
          }
          FoundIsFeasible(p, Here(), {});
        }
        stopped := StopRequested();
        if stopped {
          return false;
        }
      }
      r := true;
    }

    /** `search_MO` after `Begin`: it consolidates the first solution and reports an optimum. That is exactly
        the Pareto front when there is no conflict limit, and whenever the budget did not run out. With a
        limit it is the front for certain only if the first solution covers everything. */
    method SearchMO() returns (exhausted: bool)
      requires Resumable() && answer == Unknown && handed == {}
      modifies this, solver, solution
      ensures Outside(old(stop)) && answer == if stop then Interrupted else Optimum
      ensures stop || GaveUp(old(solver.gaveUp), exhausted)
      ensures !stop && !exhausted ==> Points(solution.entries) == ParetoFront(FeasiblePoints(p))
      ensures !stop && (!budgeted || CoversAll({Eval(p, first)}, FeasiblePoints(p))) ==>
          Points(solution.entries) == ParetoFront(FeasiblePoints(p))
      ensures !old(stop) && !interruptible && !budgeted ==>
          answer == Optimum && Points(solution.entries) == ParetoFront(FeasiblePoints(p))
    {
      hide Inv, Valid, FeasiblePoints, Points, SatDb, Covered, Antichain, CoversAll, Eval, Candidates;
      var searched := Run();
      exhausted := answer == Budget;
      if stop {
        answer := Interrupted;
        return;
      }
      FoundIsFeasible(p, Here(), {});
      // consolidateSolution
      var y := Eval(p, first);
      PushedStaysFront(finds, solution.entries, first, y);
      var added := solution.PushSafe(first, y);
      assert handed + finds + {y} == finds + {y};
      if CoversAll({y}, FeasiblePoints(p)) {
        CoverAllMore({y}, finds + {y}, FeasiblePoints(p));
      }
      if !exhausted || CoversAll({y}, FeasiblePoints(p)) {
        FinalFront(finds + {y}, Points(solution.entries), FeasiblePoints(p));
      }
      answer := Optimum;
    }

    /** `searchAgain` of the server: it consolidates nothing. A call that finishes the search answers
        unsatisfiable, which is always wrong, exactly when its archive was empty and everything feasible
        was already covered. */
    method SearchAgain()
      requires Resumable()
      modifies this, solver, solution
      ensures Outside(old(stop)) && handed == old(handed) && (stop || Resumable())
      ensures stop || GaveUp(old(solver.gaveUp), answer == Budget)
      ensures answer == Budget || answer == if solution.entries == [] then Unsatisfiable else Optimum
      ensures !stop && answer != Budget ==> CoversAll(Here().found, FeasiblePoints(p))
      ensures FeasiblePoints(p) != {}
      ensures !stop && answer != Budget ==>
          (answer == Unsatisfiable <==> old(solution.entries == [] && CoversAll(Here().found, FeasiblePoints(p))))
    {
      hide Inv, Valid, FeasiblePoints, Points, SatDb, Covered, Antichain, CoversAll, Eval, Candidates, Fronts;
      ModelIsFeasible(p, first);
      NoneFoundIfEmpty(finds, solution.entries);
      ghost var before := Here().found;
      answer := Unknown;
      var searched := Run();
      if answer != Budget {
        if !stop {
          NoneFoundIfEmpty(finds, solution.entries);
          assert finds == {} ==> Here().found == before;
        }
        answer := if |solution.entries| == 0 then Unsatisfiable else Optimum;
      }
    }
  }

  /** An archive is empty exactly when nothing was found. */
  lemma NoneFoundIfEmpty(found: set<Point>, es: seq<Entry>)
    requires Fronts(found, Points(es))
    ensures es == [] <==> found == {}
  {
    if es != [] {
      assert es[0].point in Points(es);
    }
    if y :| y in found {
      assert Covered(Points(es), y);
    }
  }

  // ---------------------------------------------------------------- a budget that runs out

  /** The board after `Begin` and a first call that exhausted its budget: the upper bounds went back. */
  function GivenUp(p: Problem, first: Point, nVars: nat): Board {
    var b := Popped(Start(p, first, nVars), p.max);
    b.(waiting := b.waiting + multiset{p.max})
  }

  /** When the first call exhausts its budget, `search_MO` reports the first solution alone, and that is
      the Pareto front exactly when it covers everything feasible. */
  lemma BudgetAtOnce(p: Problem, first: Assignment, nVars: nat)
    requires Valid(p) && SatDb(p.hard, first) && p.base <= nVars
    ensures Inv(p, GivenUp(p, Eval(p, first), nVars), {}) && GivenUp(p, Eval(p, first), nVars).found == {Eval(p, first)}
    ensures var es := Kept([], Eval(p, first)) + [Entry(first, Eval(p, first))];
      Points(es) == ParetoFront(FeasiblePoints(p)) <==> CoversAll({Eval(p, first)}, FeasiblePoints(p))
  {
    hide Inv, Valid, FeasiblePoints, SatDb, Eval, CoversAll;
    var y := Eval(p, first);
    ModelIsFeasible(p, first);
    StartInv(p, y, nVars);
    PopKeepsInv(p, Start(p, y, nVars), p.max);
    UnpopKeepsInv(p, Popped(Start(p, y, nVars), p.max), p.max);
    OnlyPoint(y, FeasiblePoints(p));
    assert Points([Entry(first, y)]) == {y};
  }

  lemma OnlyPoint(y: Point, feasible: set<Point>)
    requires y in feasible
    ensures {y} == ParetoFront(feasible) <==> CoversAll({y}, feasible)
  {
    if {y} == ParetoFront(feasible) {
      forall q | q in feasible
        ensures Covered({y}, q)
      {
        FrontCovers(feasible, q);
      }
    }
    if CoversAll({y}, feasible) {
      AntichainCoverIsTheFront({y}, feasible);
    }
  }

  /** The objective x without hard clauses, with keys 1 and 2. */
  function TwoPoints(): Problem {
    Problem(2, {{Lit(1, false)}}, [[Term(1, Lit(0, false))]],
            [[Root(0, Lit(0, false)), Root(1, Lit(0, true)), Root(2, Lit(1, false))]], [1])
  }

  lemma TwoPointsEncoded()
    ensures Valid(TwoPoints()) && SatDb(TwoPoints().hard, {0, 1}) && SatDb(TwoPoints().hard, {1})
    ensures forall a: Assignment :: Eval(TwoPoints(), a) == [if 0 in a then 1 else 0]
  {
    var p := TwoPoints();
    assert Lit(1, false) in {Lit(1, false)};
    forall a: Assignment
      ensures Value(p.objs[0], a) == (if 0 in a then 1 else 0) && (SatDb(p.hard, a) <==> 1 in a)
    {
      assert p.objs[0][1..] == [];
      assert {Lit(1, false)} in p.hard;
    }
    forall a: Assignment | SatDb(p.hard, a)
      ensures exists j :: 1 <= j < |p.roots[0]| && p.roots[0][j].key == Value(p.objs[0], a) + 1
    {
      assert p.roots[0][Value(p.objs[0], a) + 1].key == Value(p.objs[0], a) + 1;
    }
    assert EncodesObjective(p, 0);
  }

  /** With the first solution x and a budget that runs out at once, the reported optimum is (1), although
      the Pareto front is (0). */
  lemma BudgetLosesFront(nVars: nat)
    requires nVars >= 2
    ensures Valid(TwoPoints()) && SatDb(TwoPoints().hard, {0, 1}) && Eval(TwoPoints(), {0, 1}) == [1]
    ensures Inv(TwoPoints(), GivenUp(TwoPoints(), [1], nVars), {})
    ensures Points(Kept([], [1]) + [Entry({0, 1}, [1])]) == {[1]} && ParetoFront(FeasiblePoints(TwoPoints())) == {[0]}
  {
    hide Inv, Valid, FeasiblePoints, SatDb, Eval;
    TwoPointsEncoded();
    BudgetAtOnce(TwoPoints(), {0, 1}, nVars);
    ModelIsFeasible(TwoPoints(), {1});
    forall q | q in FeasiblePoints(TwoPoints())
      ensures Dominates([0], q)
    {
      var a := FeasiblePoint(TwoPoints(), q);
    }
    AntichainCoverIsTheFront({[0]}, FeasiblePoints(TwoPoints()));
  }
}
