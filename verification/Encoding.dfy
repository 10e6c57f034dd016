/** Order encoding of the objectives: from points to clauses and assumptions over root literals. */
module Encoding {
  import opened Cnf
  import opened Pareto

  datatype Root = Root(key: nat, lit: Lit)

  /** The root literals of one objective. Entry 0 is a sentinel that counts in the size. */
  type Roots = s: seq<Root> | |s| >= 1 witness [Root(0, Lit(0, false))]

  /** A multi-objective formula together with the order encoding of its objectives.
      Variables from `base` on are free for the searches. */
  datatype Problem = Problem(base: nat, hard: Db, objs: seq<seq<Term>>, roots: seq<Roots>, max: Point)

  function Eval(p: Problem, a: Assignment): Point {
    seq(|p.objs|, i requires 0 <= i < |p.objs| => Value(p.objs[i], a))
  }

  predicate SortedKeys(rl: Roots) {
    forall i, j | 1 <= i < j < |rl| :: rl[i].key < rl[j].key
  }

  /** There is a real key that is at most `k`. */
  predicate HasKeyUpTo(rl: Roots, k: nat) {
    |rl| > 1 && rl[1].key <= k
  }

  /** In every model of the hard clauses the literal of a key says "objective < key", and
      the value of the objective plus one is a key. */
  ghost predicate EncodesObjective(p: Problem, i: nat)
    requires i < |p.objs| && i < |p.roots| && i < |p.max|
  {
    && SortedKeys(p.roots[i])
    && (forall j | 0 <= j < |p.roots[i]| :: p.roots[i][j].lit.v < p.base)
    && (forall j | 1 <= j < |p.roots[i]| :: 1 <= p.roots[i][j].key <= p.max[i] + 1)
    && (forall a: Assignment, j: nat | SatDb(p.hard, a) && 1 <= j < |p.roots[i]| ::
          Holds(p.roots[i][j].lit, a) <==> Value(p.objs[i], a) < p.roots[i][j].key)
    && (forall a: Assignment | SatDb(p.hard, a) ::
          exists j :: 1 <= j < |p.roots[i]| && p.roots[i][j].key == Value(p.objs[i], a) + 1)
  }

  /** What the encoder and the parser hand to every search. */
  ghost predicate Valid(p: Problem) {
    && |p.objs| == |p.roots| == |p.max|
    && DbBelow(p.hard, p.base)
    && (forall i | 0 <= i < |p.objs| :: TermsBelow(p.objs[i], p.base))
    && (forall i | 0 <= i < |p.objs| :: EncodesObjective(p, i))
  }

  lemma HardBelowBase(p: Problem)
    requires Valid(p)
    ensures DbBelow(p.hard, p.base)
  {
  }

  lemma SameSize(p: Problem)
    requires Valid(p)
    ensures |p.objs| == |p.roots| == |p.max|
  {
  }

  ghost function FeasiblePoints(p: Problem): set<Point> {
    set a | a <= VarsBelow(p.base) && SatDb(p.hard, a) :: Eval(p, a)
  }

  lemma EvalAgree(p: Problem, a: Assignment, b: Assignment)
    requires Valid(p) && Agree(a, b, p.base)
    ensures Eval(p, a) == Eval(p, b)
  {
    forall i | 0 <= i < |p.objs|
      ensures Value(p.objs[i], a) == Value(p.objs[i], b)
    {
      ValueAgree(p.objs[i], a, b, p.base);
    }
  }

  lemma ModelIsFeasible(p: Problem, a: Assignment)
    requires Valid(p) && SatDb(p.hard, a)
    ensures Eval(p, a) in FeasiblePoints(p)
  {
    var b := set v | v in a && v < p.base;
    SatDbAgree(p.hard, a, b, p.base);
    EvalAgree(p, a, b);
    assert b <= VarsBelow(p.base);
  }

  lemma EvalWithinMax(p: Problem, a: Assignment)
    requires Valid(p) && SatDb(p.hard, a)
    ensures Dominates(Eval(p, a), p.max)
  {
    forall i | 0 <= i < |p.objs|
      ensures Eval(p, a)[i] <= p.max[i]
    {
      assert EncodesObjective(p, i);
      var j :| 1 <= j < |p.roots[i]| && p.roots[i][j].key == Value(p.objs[i], a) + 1;
    }
  }

  // ---------------------------------------------------------------- indices of keys

  /** The largest index whose key, and all real keys before it, are at most `k`; 0 if none is. */
  function KeyIndexFrom(rl: Roots, k: nat, i: nat): (j: nat)
    requires 1 <= i <= |rl|
    ensures i - 1 <= j < |rl|
    ensures forall m | i <= m <= j :: rl[m].key <= k
    ensures j + 1 < |rl| ==> rl[j + 1].key > k
    decreases |rl| - i
  {
    if i < |rl| && rl[i].key <= k then KeyIndexFrom(rl, k, i + 1) else i - 1
  }

  function KeyIndex(rl: Roots, k: nat): (j: nat)
    ensures j < |rl|
  {
    KeyIndexFrom(rl, k, 1)
  }

  /** Clause of `blockDominatedRegion`. */
  function BlockClause(rs: seq<Roots>, y: Point): Clause
  {
    BlockLits(rs, y, |y|)
  }

  /** The literals of the first `n` objectives in it. */
  function BlockLits(rs: seq<Roots>, y: Point, n: nat): Clause
    requires n <= |y|
  {
    set i | 0 <= i < n && i < |rs| && KeyIndex(rs[i], y[i]) > 0 :: rs[i][KeyIndex(rs[i], y[i])].lit
  }

  /** Assumptions of `assumeDominatingRegion`. */
  function BelowLits(rs: seq<Roots>, y: Point): set<Lit>
  {
    set i | 0 <= i < |y| && i < |rs| && KeyIndex(rs[i], y[i] + 1) > 0 :: rs[i][KeyIndex(rs[i], y[i] + 1)].lit
  }

  /** Clause of `asssumeIncomparableRegion`: it uses the sentinel when no key is small enough. */
  function GuardClause(rs: seq<Roots>, y: Point, guard: Lit): Clause
  {
    {guard} + set i | 0 <= i < |y| && i < |rs| :: rs[i][KeyIndex(rs[i], y[i] + 1)].lit.Not()
  }

  /** Every coordinate of `y` is reached by some key, as for the points of models and for fences. */
  predicate Keyed(p: Problem, y: Point) {
    |y| == |p.roots| && forall i | 0 <= i < |y| :: HasKeyUpTo(p.roots[i], y[i] + 1)
  }

  // ---------------------------------------------------------------- meaning

  lemma {:induction false} BlockIndexMeaning(p: Problem, i: nat, k: nat, a: Assignment)
    requires Valid(p) && i < |p.objs| && SatDb(p.hard, a)
    ensures var j := KeyIndex(p.roots[i], k);
            (j > 0 && Holds(p.roots[i][j].lit, a)) <==> Value(p.objs[i], a) < k
  {
    var rl, j, x := p.roots[i], KeyIndex(p.roots[i], k), Value(p.objs[i], a);
    assert EncodesObjective(p, i);
    var m :| 1 <= m < |rl| && rl[m].key == x + 1;
    assert x < k <==> m <= j by {
      if m <= j {
        assert rl[m].key <= k;
      } else if m > j + 1 {
        assert rl[j + 1].key < rl[m].key;
      }
    }
    if j > 0 {
      assert Holds(rl[j].lit, a) <==> x < rl[j].key;
      assert x < rl[j].key <==> m <= j;
    }
  }

  /** `blockDominatedRegion`: the clause says that `y` does not weakly dominate the point. */
  lemma {:induction false} BlockMeaning(p: Problem, y: Point, a: Assignment)
    requires Valid(p) && |y| == |p.objs| && SatDb(p.hard, a)
    ensures SatClause(BlockClause(p.roots, y), a) <==> !Dominates(y, Eval(p, a))
  {
    var c := BlockClause(p.roots, y);
    if SatClause(c, a) {
      var l :| l in c && Holds(l, a);
      var i :| 0 <= i < |y| && KeyIndex(p.roots[i], y[i]) > 0 && l == p.roots[i][KeyIndex(p.roots[i], y[i])].lit;
      BlockIndexMeaning(p, i, y[i], a);
      assert Eval(p, a)[i] < y[i];
    }
    if !Dominates(y, Eval(p, a)) {
      var i :| 0 <= i < |y| && Eval(p, a)[i] < y[i];
      BlockIndexMeaning(p, i, y[i], a);
      assert p.roots[i][KeyIndex(p.roots[i], y[i])].lit in c;
    }
  }

  /** `assumeDominatingRegion`, the direction that needs no key: it never excludes a dominating point. */
  lemma {:induction false} BelowComplete(p: Problem, y: Point, a: Assignment)
    requires Valid(p) && |y| == |p.objs| && SatDb(p.hard, a) && Dominates(Eval(p, a), y)
    ensures AllHold(BelowLits(p.roots, y), a)
  {
    forall l | l in BelowLits(p.roots, y)
      ensures Holds(l, a)
    {
      var i :| 0 <= i < |y| && KeyIndex(p.roots[i], y[i] + 1) > 0 &&
          l == p.roots[i][KeyIndex(p.roots[i], y[i] + 1)].lit;
      BlockIndexMeaning(p, i, y[i] + 1, a);
      assert Eval(p, a)[i] <= y[i];
    }
  }

  /** `assumeDominatingRegion`: on a keyed point the assumptions say "weakly dominates `y`". */
  lemma {:induction false} BelowMeaning(p: Problem, y: Point, a: Assignment)
    requires Valid(p) && Keyed(p, y) && SatDb(p.hard, a)
    ensures AllHold(BelowLits(p.roots, y), a) <==> Dominates(Eval(p, a), y)
  {
    if Dominates(Eval(p, a), y) {
      BelowComplete(p, y, a);
    }
    if AllHold(BelowLits(p.roots, y), a) {
      forall i | 0 <= i < |y|
        ensures Eval(p, a)[i] <= y[i]
      {
        BlockIndexMeaning(p, i, y[i] + 1, a);
        assert HasKeyUpTo(p.roots[i], y[i] + 1);
        assert p.roots[i][KeyIndex(p.roots[i], y[i] + 1)].lit in BelowLits(p.roots, y);
      }
    }
  }

  /** For one objective of a satisfiable formula, the assumption pushed for `k` (none when no
      key reaches `k + 1`) bounds the objective by `k` exactly when some key reaches `k + 1`. */
  lemma {:induction false} BoundIsExactIffKeyed(p: Problem, i: nat, k: nat)
    requires Valid(p) && i < |p.objs| && exists a: Assignment :: SatDb(p.hard, a)
    ensures (forall a: Assignment | SatDb(p.hard, a) ::
               (var j := KeyIndex(p.roots[i], k + 1); j > 0 ==> Holds(p.roots[i][j].lit, a)) <==>
                   Value(p.objs[i], a) <= k)
            <==> HasKeyUpTo(p.roots[i], k + 1)
  {
    forall a: Assignment | SatDb(p.hard, a)
      ensures var j := KeyIndex(p.roots[i], k + 1);
              (j > 0 && Holds(p.roots[i][j].lit, a)) <==> Value(p.objs[i], a) <= k
    {
      BlockIndexMeaning(p, i, k + 1, a);
    }
  }

  /** The objective x with x true: it is always 1, and 2 is its only key. */
  function AlwaysOne(): Problem {
    Problem(2, {{Lit(0, false)}, {Lit(1, false)}}, [[Term(1, Lit(0, false))]],
            [[Root(0, Lit(0, false)), Root(2, Lit(1, false))]], [1])
  }

  /** For a fence below the first key nothing is assumed, although no model has a point below it. */
  lemma NothingAssumed()
    ensures Valid(AlwaysOne()) && !HasKeyUpTo(AlwaysOne().roots[0], 1) && BelowLits(AlwaysOne().roots, [0]) == {}
    ensures SatDb(AlwaysOne().hard, {0, 1}) && !Dominates(Eval(AlwaysOne(), {0, 1}), [0])
  {
    var p := AlwaysOne();
    assert p.objs[0][1..] == [];
    forall a: Assignment
      ensures SatDb(p.hard, a) <==> 0 in a && 1 in a
    {
      assert {Lit(0, false)} in p.hard && {Lit(1, false)} in p.hard;
      assert Lit(0, false) in {Lit(0, false)} && Lit(1, false) in {Lit(1, false)};
    }
    forall a: Assignment | SatDb(p.hard, a)
      ensures Value(p.objs[0], a) == 1 && p.roots[0][1].key == Value(p.objs[0], a) + 1
    {
    }
    assert EncodesObjective(p, 0);
    assert Eval(p, {0, 1})[0] == 1;
  }

  /** `asssumeIncomparableRegion`: the clause says "the guard holds or the point does not weakly dominate `y`". */
  lemma {:induction false} GuardMeaning(p: Problem, y: Point, guard: Lit, a: Assignment)
    requires Valid(p) && Keyed(p, y) && SatDb(p.hard, a)
    ensures SatClause(GuardClause(p.roots, y, guard), a) <==> (Holds(guard, a) || !Dominates(Eval(p, a), y))
  {
    var c := GuardClause(p.roots, y, guard);
    if SatClause(c, a) && !Holds(guard, a) {
      var l :| l in c && Holds(l, a);
      var i :| 0 <= i < |y| && l == p.roots[i][KeyIndex(p.roots[i], y[i] + 1)].lit.Not();
      assert HasKeyUpTo(p.roots[i], y[i] + 1);
      BlockIndexMeaning(p, i, y[i] + 1, a);
      assert Eval(p, a)[i] > y[i];
    }
    if Holds(guard, a) {
      assert guard in c;
    }
    if !Dominates(Eval(p, a), y) {
      var i :| 0 <= i < |y| && Eval(p, a)[i] > y[i];
      BlockIndexMeaning(p, i, y[i] + 1, a);
      assert HasKeyUpTo(p.roots[i], y[i] + 1);
      assert p.roots[i][KeyIndex(p.roots[i], y[i] + 1)].lit.Not() in c;
    }
  }

  /** The point of a model is keyed. */
  lemma ModelPointIsKeyed(p: Problem, a: Assignment)
    requires Valid(p) && SatDb(p.hard, a)
    ensures Keyed(p, Eval(p, a))
  {
    forall i | 0 <= i < |p.objs|
      ensures HasKeyUpTo(p.roots[i], Eval(p, a)[i] + 1)
    {
      assert EncodesObjective(p, i);
      var j :| 1 <= j < |p.roots[i]| && p.roots[i][j].key == Value(p.objs[i], a) + 1;
      if j > 1 {
        assert p.roots[i][1].key < p.roots[i][j].key;
      }
    }
  }

  lemma FeasiblePoint(p: Problem, y: Point) returns (a: Assignment)
    requires Valid(p) && y in FeasiblePoints(p)
    ensures SatDb(p.hard, a) && Eval(p, a) == y && Keyed(p, y) && Dominates(y, p.max)
  {
    a :| a <= VarsBelow(p.base) && SatDb(p.hard, a) && Eval(p, a) == y;
    ModelPointIsKeyed(p, a);
    EvalWithinMax(p, a);
  }

  lemma KeyedAbove(p: Problem, y: Point, z: Point)
    requires Keyed(p, y) && Dominates(y, z)
    ensures Keyed(p, z)
  {
  }

  lemma ClausesBelowBase(p: Problem, y: Point)
    requires Valid(p)
    ensures LitsBelow(BlockClause(p.roots, y), p.base)
    ensures LitsBelow(BelowLits(p.roots, y), p.base)
    ensures forall guard: Lit ::
        guard in GuardClause(p.roots, y, guard) && LitsBelow(GuardClause(p.roots, y, guard) - {guard}, p.base)
  {
    forall i | 0 <= i < |p.roots|
      ensures forall j | 0 <= j < |p.roots[i]| :: p.roots[i][j].lit.v < p.base
    {
      assert EncodesObjective(p, i);
    }
  }

  lemma BlockLitsStep(rs: seq<Roots>, y: Point, d: nat)
    requires d < |y| && d < |rs|
    ensures var j := KeyIndex(rs[d], y[d]);
            BlockLits(rs, y, d + 1) == BlockLits(rs, y, d) + if j > 0 then {rs[d][j].lit} else {}
  {
  }

  // ---------------------------------------------------------------- the loops that build them

  /** `openwbo::evalToIndex`. */
  method EvalToIndex(rs: seq<Roots>, y: Point) returns (objix: seq<nat>)
    requires |y| == |rs|
    ensures |objix| == |y|
    ensures forall d | 0 <= d < |y| :: objix[d] == KeyIndex(rs[d], y[d] + 1)
  {
    objix := [];
    for d := 0 to |y|
      invariant |objix| == d
      invariant forall e | 0 <= e < d :: objix[e] == KeyIndex(rs[e], y[e] + 1)
    {
      var j, i := 0, 1;
      while i < |rs[d]| && y[d] + 1 >= rs[d][i].key
        invariant 1 <= i <= |rs[d]| && j == i - 1
        invariant KeyIndexFrom(rs[d], y[d] + 1, i) == KeyIndex(rs[d], y[d] + 1)
      {
        j := i;
        i := i + 1;
      }
      objix := objix + [j];
    }
  }

  /** `blockDominatedRegion(yp)`. */
  method BlockDominatedRegion(solver: Solver, ghost p: Problem, rs: seq<Roots>, y: Point)
    requires solver.Valid() && Valid(p) && rs == p.roots && |y| == |rs| && p.base <= solver.nVars
    modifies solver`clauses
    ensures solver.Valid() && solver.clauses == old(solver.clauses) + {BlockClause(rs, y)}
  {
    var clause: Clause := {};
    ClausesBelowBase(p, y);
    for d := 0 to |y|
      invariant clause == BlockLits(rs, y, d) && solver.Valid() && solver.clauses == old(solver.clauses)
    {
      BlockLitsStep(rs, y, d);
      var n := 0;
      while n + 1 < |rs[d]| && y[d] >= rs[d][n + 1].key
        invariant 0 <= n < |rs[d]|
        invariant KeyIndexFrom(rs[d], y[d], n + 1) == KeyIndex(rs[d], y[d])
      {
        n := n + 1;
      }
      if n > 0 {
        clause := clause + {rs[d][n].lit};
      }
    }
    assert clause == BlockClause(rs, y);
    solver.AddClause(clause);
  }

  /** `assumeDominatingRegion(yp)`: the assumptions with the new ones pushed. */
  method AssumeDominatingRegion(rs: seq<Roots>, y: Point, assumptions: set<Lit>) returns (r: set<Lit>)
    requires |y| == |rs|
    ensures r == assumptions + BelowLits(rs, y)
  {
    var objix := EvalToIndex(rs, y);
    r := assumptions;
    for d := 0 to |y|
      invariant r == assumptions + set i | 0 <= i < d && KeyIndex(rs[i], y[i] + 1) > 0 ::
          rs[i][KeyIndex(rs[i], y[i] + 1)].lit
    {
      var j := objix[d];
      if j > 0 && j < |rs[d]| {
        r := r + {rs[d][j].lit};
      }
    }
  }

  /** `asssumeIncomparableRegion(yp, l)`. */
  method AssumeIncomparableRegion(solver: Solver, ghost p: Problem, rs: seq<Roots>, y: Point, guard: Lit)
    requires solver.Valid() && Valid(p) && rs == p.roots && |y| == |rs|
    requires p.base <= solver.nVars && guard.v < solver.nVars
    modifies solver`clauses
    ensures solver.Valid() && solver.clauses == old(solver.clauses) + {GuardClause(rs, y, guard)}
  {
    var objix := EvalToIndex(rs, y);
    var clause: Clause := {};
    for d := 0 to |y|
      invariant clause == set i | 0 <= i < d :: rs[i][KeyIndex(rs[i], y[i] + 1)].lit.Not()
      invariant LitsBelow(clause, p.base)
    {
      assert EncodesObjective(p, d);
      var j := objix[d];
      if j < |rs[d]| {
        clause := clause + {rs[d][j].lit.Not()};
      }
    }
    clause := clause + {guard};
    assert clause == GuardClause(rs, y, guard);
    solver.AddClause(clause);
  }
}
