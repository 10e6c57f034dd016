/** The hitting-set relaxation: a formula reduced to the cores found so far, with sliced objectives,
    and what its candidates say about the formula. */
module Relaxations {
  import opened Cnf
  import opened Pareto
  import opened Encoding
  import opened ParallelMO
  import opened Archive
  import opened Fences
  import opened Freezing
  import opened Slices

  /** Hard clauses over the first `n` variables, and the objectives with their complete encoding. */
  datatype Instance = Instance(n: nat, hard: Db, p: Problem)

  /** The optimizer's view of an instance: cores, literals that are kept false, literals of the slice. */
  datatype Relaxation = Relaxation(I: Instance, cores: Db, frozen: set<Lit>, slice: set<Lit>)

  function FrozenUnits(frozen: set<Lit>): Db {
    set l | l in frozen :: {l.Not()}
  }

  function SliceAll(objs: Objectives, slice: set<Lit>): Objectives {
    seq(|objs|, i requires 0 <= i < |objs| => Sliced(objs[i], slice))
  }

  /** The problem that the optimizer works on: the cores, with the frozen literals false, and the
      sliced objectives with the complete literals of their sums. */
  function Relaxed(R: Relaxation): Problem {
    var p := R.I.p;
    Problem(p.base, p.hard + R.cores + FrozenUnits(R.frozen), SliceAll(p.objs, R.slice),
            SlicedRoots(p.objs, p.roots, R.slice), p.max)
  }

  /** The formula itself. */
  function Whole(I: Instance): Problem {
    I.p.(hard := I.p.hard + I.hard)
  }

  /** On models with the frozen literals false, the sliced objectives are the objectives. */
  ghost predicate StandsFor(R: Relaxation) {
    forall a: Assignment, i | 0 <= i < |R.I.p.objs| && (forall l | l in R.frozen :: !Holds(l, a)) ::
      Value(Sliced(R.I.p.objs[i], R.slice), a) == Value(R.I.p.objs[i], a)
  }

  /** The keys of an objective are its sums plus one. */
  predicate SumKeys(p: Problem, i: nat)
    requires i < |p.objs| && i < |p.roots|
  {
    && p.roots[i][0].key == 0 && KeyedSums(p.roots[i], Sums(p.objs[i]))
    && forall j | 1 <= j < |p.roots[i]| :: p.roots[i][j].key > 0 && p.roots[i][j].key - 1 in Sums(p.objs[i])
  }

  /** What parser and encoder hand over: objectives with one term for each variable, an encoding of
      all their sums on variables of its own, to which every assignment of the variables extends. */
  ghost predicate ValidInstance(I: Instance) {
    && Valid(I.p) && OwnRoots(I.p) && I.n <= I.p.base && DbBelow(I.hard, I.n) && NoDoubles(I.p.objs)
    && (forall i | 0 <= i < |I.p.objs| :: TermsBelow(I.p.objs[i], I.n) && DistinctVars(I.p.objs[i]) && SumKeys(I.p, i))
    && (forall i, j | 0 <= i < |I.p.roots| && 1 <= j < |I.p.roots[i]| :: I.n <= I.p.roots[i][j].lit.v)
    && forall a: Assignment :: Extends(I, a)
  }

  ghost predicate Extends(I: Instance, a: Assignment) {
    exists e: Assignment :: Agree(a, e, I.n) && SatDb(I.p.hard, e)
  }

  ghost predicate ValidRelaxation(R: Relaxation) {
    ValidInstance(R.I) && Frozen(R.I.p.objs, R.cores, R.frozen, R.slice) && DbBelow(R.cores, R.I.n)
  }

  // ---------------------------------------------------------------- the relaxation

  lemma MoreClausesStayValid(p: Problem, more: Db)
    requires Valid(p) && p.hard <= more && DbBelow(more, p.base)
    ensures Valid(p.(hard := more))
  {
    var q := p.(hard := more);
    forall i | 0 <= i < |p.objs|
      ensures EncodesObjective(q, i)
    {
      assert EncodesObjective(p, i);
      forall a: Assignment | SatDb(q.hard, a)
        ensures SatDb(p.hard, a)
      {
      }
    }
  }

  /** The optimizer's problem is encoded, and its objectives are the true ones. */
  lemma RelaxedIsValid(R: Relaxation)
    requires ValidRelaxation(R)
    ensures |R.I.p.objs| == |R.I.p.roots| == |R.I.p.max|
    ensures Valid(Relaxed(R)) && OwnRoots(Relaxed(R))
    ensures StandsFor(R) && LitsBelow(R.frozen, R.I.n)
    ensures DbBelow(R.I.p.hard + R.cores, R.I.p.base)
    ensures RootsAreNew(R.I, Relaxed(R).roots)
  {
    FrozenBelow(R);
    SliceStandsFor(R);
    var r := Relaxed(R);
    forall c | c in R.cores
      ensures LitsBelow(c, R.I.p.base)
    {
      assert LitsBelow(c, R.I.n);
    }
    forall i | 0 <= i < |r.objs|
      ensures TermsBelow(r.objs[i], r.base) && EncodesObjective(r, i)
    {
      SliceEncodes(R, i);
    }
    SliceOwnsRoots(R);
  }

  ghost predicate RootsAreNew(I: Instance, roots: seq<Roots>) {
    forall i, j | 0 <= i < |roots| && 1 <= j < |roots[i]| :: I.n <= roots[i][j].lit.v < I.p.base
  }

  /** A sliced objective keeps the literals of its sums, and these are the keys it needs. */
  lemma SliceEncodes(R: Relaxation, i: nat)
    requires ValidInstance(R.I) && StandsFor(R) && i < |R.I.p.objs|
    ensures |R.I.p.objs| == |R.I.p.roots| == |R.I.p.max|
    ensures TermsBelow(Relaxed(R).objs[i], R.I.p.base) && EncodesObjective(Relaxed(R), i)
  {
    hide ValidInstance, StandsFor, SliceRoots, Sums, Relaxed, Sliced, Value, SatDb, SumKeys;
    InstanceAt(R.I, i);
    var p := R.I.p;
    var me := SliceRoots(p.roots[i], Sums(Sliced(p.objs[i], R.slice)));
    var r := Relaxed(R);
    RelaxedAt(R, i);
    SliceTerms(p.objs[i], R.slice);
    SliceMembers(p.roots[i], Sums(r.objs[i]));
    forall j | 0 <= j < |me|
      ensures me[j].lit.v < p.base && (j >= 1 ==> 1 <= me[j].key <= p.max[i] + 1)
    {
      if j >= 1 {
        var m := SliceEntry(p.roots[i], Sums(r.objs[i]), j);
      }
    }
    forall a: Assignment, j: nat | SatDb(r.hard, a) && 1 <= j < |me|
      ensures Holds(me[j].lit, a) <==> Value(r.objs[i], a) < me[j].key
    {
      SliceMeaning(R, i, a, j);
    }
    forall a: Assignment | SatDb(r.hard, a)
      ensures exists j :: 1 <= j < |me| && me[j].key == Value(r.objs[i], a) + 1
    {
      var j := SliceHasKey(R, i, a);
    }
  }

  lemma InstanceAt(I: Instance, i: nat)
    requires ValidInstance(I) && i < |I.p.objs|
    ensures |I.p.objs| == |I.p.roots| == |I.p.max| && I.n <= I.p.base
    ensures EncodesObjective(I.p, i) && TermsBelow(I.p.objs[i], I.n) && SumKeys(I.p, i)
  {
  }

  lemma RelaxedAt(R: Relaxation, i: nat)
    requires i < |R.I.p.objs| == |R.I.p.roots| == |R.I.p.max|
    ensures var r := Relaxed(R); |r.objs| == |r.roots| == |R.I.p.objs| && r.max == R.I.p.max && r.base == R.I.p.base
    ensures Relaxed(R).objs[i] == Sliced(R.I.p.objs[i], R.slice)
    ensures Relaxed(R).roots[i] == SliceRoots(R.I.p.roots[i], Sums(Sliced(R.I.p.objs[i], R.slice)))
  {
  }

  lemma SliceMeaning(R: Relaxation, i: nat, a: Assignment, j: nat)
    requires ValidInstance(R.I) && StandsFor(R) && i < |R.I.p.objs|
    requires SatDb(Relaxed(R).hard, a) && 1 <= j < |Relaxed(R).roots[i]|
    ensures Holds(Relaxed(R).roots[i][j].lit, a) <==> Value(Relaxed(R).objs[i], a) < Relaxed(R).roots[i][j].key
  {
    hide ValidInstance, Sums, SliceRoots, Value, SatDb, SumKeys;
    InstanceAt(R.I, i);
    RelaxedModel(R, a);
    var m := SliceEntry(R.I.p.roots[i], Sums(Relaxed(R).objs[i]), j);
  }

  lemma SliceHasKey(R: Relaxation, i: nat, a: Assignment) returns (j: nat)
    requires ValidInstance(R.I) && i < |R.I.p.objs|
    ensures |R.I.p.objs| == |R.I.p.roots|
    ensures 1 <= j < |Relaxed(R).roots[i]| && Relaxed(R).roots[i][j].key == Value(Relaxed(R).objs[i], a) + 1
  {
    var ts, rl := R.I.p.objs[i], R.I.p.roots[i];
    ValueIsSum(Sliced(ts, R.slice), a);
    assert SumKeys(R.I.p, i) && EncodesObjective(R.I.p, i);
    hide ValidInstance, Valid;
    j := SumEntry(rl, ts, R.slice, Value(Sliced(ts, R.slice), a));
  }

  lemma SliceEntry(rl: Roots, sums: set<nat>, j: nat) returns (m: nat)
    requires SortedKeys(rl) && 1 <= j < |SliceRoots(rl, sums)|
    ensures 1 <= m < |rl| && SliceRoots(rl, sums)[j] == rl[m]
  {
    SliceMembers(rl, sums);
    var me := SliceRoots(rl, sums);
    assert me[1..][j - 1] == me[j] && HasRoot(me, me[j]);
    var k :| 0 <= k < |rl| - 1 && rl[1..][k] == me[j];
    m := k + 1;
  }

  lemma SliceOwnsRoots(R: Relaxation)
    requires ValidInstance(R.I)
    ensures |R.I.p.objs| == |R.I.p.roots| && OwnRoots(Relaxed(R)) && RootsAreNew(R.I, Relaxed(R).roots)
  {
    var p, r := R.I.p, Relaxed(R);
    forall i, l | 0 <= i < |r.roots| && RootOf(r, i, l)
      ensures RootOf(p, i, l)
    {
      assert EncodesObjective(p, i);
      var j :| 1 <= j < |r.roots[i]| && r.roots[i][j].lit.v == l.v;
      var m := SliceEntry(p.roots[i], Sums(r.objs[i]), j);
      assert p.roots[i][m].lit.v == l.v;
    }
    forall i, j | 0 <= i < |r.roots| && 1 <= j < |r.roots[i]|
      ensures R.I.n <= r.roots[i][j].lit.v < p.base
    {
      assert EncodesObjective(p, i);
      var m := SliceEntry(p.roots[i], Sums(r.objs[i]), j);
    }
  }

  lemma SameRoots(p: Problem, q: Problem)
    requires OwnRoots(p) && p.roots == q.roots
    ensures OwnRoots(q)
  {
    forall i, k, l | 0 <= i < |q.roots| && 0 <= k < |q.roots| && RootOf(q, i, l) && RootOf(q, k, l)
      ensures i == k
    {
      assert RootOf(p, i, l) && RootOf(p, k, l);
    }
  }

  lemma FrozenBelow(R: Relaxation)
    requires ValidInstance(R.I) && Frozen(R.I.p.objs, R.cores, R.frozen, R.slice)
    ensures LitsBelow(R.frozen, R.I.n)
  {
    hide Valid;
    forall l | l in R.frozen
      ensures l.v < R.I.n
    {
      var i :| 0 <= i < |R.I.p.objs| && OccursIn(R.I.p.objs[i], |R.I.p.objs[i]|, l);
      var j :| 0 <= j < |R.I.p.objs[i]| && R.I.p.objs[i][j].l == l;
      assert TermsBelow(R.I.p.objs[i], R.I.n) && R.I.p.objs[i][j] in R.I.p.objs[i];
    }
  }

  lemma SliceStandsFor(R: Relaxation)
    requires ValidInstance(R.I) && Frozen(R.I.p.objs, R.cores, R.frozen, R.slice)
    ensures StandsFor(R)
  {
    hide Valid, Frozen;
    forall a: Assignment, i | 0 <= i < |R.I.p.objs| && (forall l | l in R.frozen :: !Holds(l, a))
      ensures Value(Sliced(R.I.p.objs[i], R.slice), a) == Value(R.I.p.objs[i], a)
    {
      SliceIsExact(R.I.p.objs, R.cores, R.frozen, R.slice, a, i);
    }
  }

  /** A model of the relaxation: what it satisfies, and its true point. */
  lemma RelaxedModel(R: Relaxation, a: Assignment)
    requires ValidInstance(R.I) && StandsFor(R)
    ensures |R.I.p.objs| == |R.I.p.roots|
    ensures SatDb(Relaxed(R).hard, a) <==>
              SatDb(R.I.p.hard, a) && SatDb(R.cores, a) && forall l | l in R.frozen :: !Holds(l, a)
    ensures (forall l | l in R.frozen :: !Holds(l, a)) ==> Eval(Relaxed(R), a) == Eval(R.I.p, a)
  {
    assert |R.I.p.objs| == |R.I.p.roots|;
    var r := Relaxed(R);
    hide Valid;
    if SatDb(r.hard, a) {
      forall l | l in R.frozen
        ensures !Holds(l, a)
      {
        assert {l.Not()} in r.hard;
        assert SatClause({l.Not()}, a);
      }
    }
    if forall l | l in R.frozen :: !Holds(l, a) {
      forall c | c in FrozenUnits(R.frozen)
        ensures SatClause(c, a)
      {
        var l :| l in R.frozen && c == {l.Not()};
        assert l.Not() in c && Holds(l.Not(), a);
      }
      assert Eval(r, a) == Eval(R.I.p, a);
    }
  }

  /** The relaxation contains, for every feasible point, one that is no worse. */
  lemma RelaxationIsBelow(R: Relaxation, q: Point) returns (r: Point)
    requires ValidRelaxation(R)
    requires (forall c | c in R.cores :: Entails(R.I.hard, c)) && q in FeasiblePoints(Whole(R.I))
    ensures r in FeasiblePoints(Relaxed(R)) && Dominates(r, q)
  {
    var w := Whole(R.I);
    WholeIsValid(R.I);
    var a := FeasiblePoint(w, q);
    assert SatDb(R.I.hard, a) && SatDb(R.I.p.hard, a);
    forall c | c in R.cores
      ensures SatClause(c, a)
    {
      assert Entails(R.I.hard, c);
    }
    FreezingLosesNothing(R.I.p.objs, R.cores, R.frozen, R.slice, a);
    var b := Lowered(a, R.frozen);
    assert Extends(R.I, b);
    var e: Assignment :| Agree(b, e, R.I.n) && SatDb(R.I.p.hard, e);
    r := ExtendedPoint(R, b, e);
    forall i | 0 <= i < |q|
      ensures r[i] <= q[i]
    {
    }
  }

  lemma WholeIsValid(I: Instance)
    requires ValidInstance(I)
    ensures Valid(Whole(I))
  {
    forall c | c in I.p.hard + I.hard
      ensures LitsBelow(c, I.p.base)
    {
      if c in I.hard {
        assert LitsBelow(c, I.n);
      }
    }
    MoreClausesStayValid(I.p, I.p.hard + I.hard);
  }

  lemma ExtendedPoint(R: Relaxation, b: Assignment, e: Assignment) returns (r: Point)
    requires ValidRelaxation(R)
    requires SatDb(R.cores, b) && (forall l | l in R.frozen :: !Holds(l, b)) && Agree(b, e, R.I.n) &&
        SatDb(R.I.p.hard, e)
    ensures r in FeasiblePoints(Relaxed(R))
    ensures |r| == |R.I.p.objs| && forall i | 0 <= i < |r| :: r[i] == Value(R.I.p.objs[i], b)
  {
    RelaxedIsValid(R);
    hide Valid, OwnRoots, FeasiblePoints, Frozen;
    SatDbAgree(R.cores, b, e, R.I.n);
    forall l | l in R.frozen
      ensures !Holds(l, e)
    {
      assert l.v < R.I.n;
    }
    RelaxedModel(R, e);
    ModelIsFeasible(Relaxed(R), e);
    r := Eval(R.I.p, e);
    forall i | 0 <= i < |r|
      ensures r[i] == Value(R.I.p.objs[i], b)
    {
      ValueAgree(R.I.p.objs[i], b, e, R.I.n);
    }
  }

  // ---------------------------------------------------------------- cores below a fence

  lemma BelowParts(s: Db, t: Db, n: nat)
    requires DbBelow(s + t, n)
    ensures DbBelow(s, n) && DbBelow(t, n)
  {
  }

  /** Variables that are true for good. */
  function Units(vs: set<nat>): Db {
    set v | v in vs :: {Lit(v, false)}
  }

  /** The literals of a conflict that negate the assumptions of the fence. */
  function FencePart(conflict: Clause, below: set<Lit>): Clause {
    set l | l in conflict && l.Not() in below
  }

  /** The assumptions of a harvest. */
  function HarvestAssumptions(frozen: set<Lit>, softs: set<nat>, below: set<Lit>): set<Lit> {
    (set l | l in frozen :: l.Not()) + (set v | v in softs :: Lit(v, false)) + below
  }

  lemma AssumedHold(frozen: set<Lit>, softs: set<nat>, below: set<Lit>, m: Assignment)
    requires AllHold(HarvestAssumptions(frozen, softs, below), m)
    ensures (forall l | l in frozen :: !Holds(l, m)) && forall v | v in softs :: v in m
  {
    forall l | l in frozen
      ensures !Holds(l, m)
    {
      assert l.Not() in HarvestAssumptions(frozen, softs, below);
    }
    forall v | v in softs
      ensures v in m
    {
      assert Lit(v, false) in HarvestAssumptions(frozen, softs, below);
    }
  }

  lemma SingleClause(c: Clause, l: Lit, a: Assignment)
    requires l in c && Holds(l, a)
    ensures SatDb({c}, a)
  {
  }

  lemma UncoveredParts(s: set<Point>, t: set<Point>, y: Point)
    requires !Covered(s + t, y)
    ensures !Covered(s, y) && forall x | x in t :: !Dominates(x, y)
  {
    if Covered(s, y) {
      CoverGrows(s, s + t, y);
    }
  }

  /** Only the fence part of a conflict names objectives, each at most once. */
  lemma ConflictNamesOnce(I: Instance, r: Problem, frozen: set<Lit>, softs: set<nat>, u: Point, ls: seq<Lit>)
    requires OwnRoots(r) && Distinct(ls) && LitsBelow(frozen, I.n) && (forall v | v in softs :: v >= I.p.base)
    requires RootsAreNew(I, r.roots)
    requires Negates(LitSet(ls), HarvestAssumptions(frozen, softs, BelowLits(r.roots, u)))
    ensures NamedOnce(r, ls)
  {
    forall i, m, n | 0 <= i < |r.roots| && 0 <= m < n < |ls|
      ensures !(RootOf(r, i, ls[m]) && RootOf(r, i, ls[n]))
    {
      if RootOf(r, i, ls[m]) && RootOf(r, i, ls[n]) {
        RootIsBelow(I, r, frozen, softs, u, ls, m, i);
        RootIsBelow(I, r, frozen, softs, u, ls, n, i);
      }
    }
  }

  lemma RootIsBelow(I: Instance, r: Problem, frozen: set<Lit>, softs: set<nat>, u: Point, ls: seq<Lit>, m: nat, i: nat)
    requires OwnRoots(r) && LitsBelow(frozen, I.n) && (forall v | v in softs :: v >= I.p.base)
    requires RootsAreNew(I, r.roots)
    requires Negates(LitSet(ls), HarvestAssumptions(frozen, softs, BelowLits(r.roots, u)))
    requires m < |ls| && i < |r.roots| && RootOf(r, i, ls[m])
    ensures i < |u| && ls[m].Not() == r.roots[i][KeyIndex(r.roots[i], u[i] + 1)].lit
  {
    var l := ls[m];
    assert l in LitSet(ls);
    var j :| 1 <= j < |r.roots[i]| && r.roots[i][j].lit.v == l.v;
    assert I.n <= l.v < I.p.base;
    assert forall k | k in frozen :: k.Not().v < I.n;
    assert l.Not() in BelowLits(r.roots, u);
    var k :| 0 <= k < |u| && k < |r.roots| && KeyIndex(r.roots[k], u[k] + 1) > 0
      && l.Not() == r.roots[k][KeyIndex(r.roots[k], u[k] + 1)].lit;
    assert RootOf(r, k, l);
  }

  /** A conflict that raises no objective leaves nothing of the relaxation uncovered. */
  lemma NothingToRaise(r: Problem, covered: set<Point>, conflict: Clause, u: Point)
    requires Valid(r) && OwnRoots(r) && |u| == |r.roots|
    requires Sound(r, covered, {FencePart(conflict, BelowLits(r.roots, u))})
    requires forall k | 0 <= k < |u| :: !Extendable(r, conflict, u, k)
    ensures CoversAll(covered, FeasiblePoints(r))
  {
    var part := FencePart(conflict, BelowLits(r.roots, u));
    hide Valid, OwnRoots, FeasiblePoints, BelowLits, Sound;
    assert Entails({part}, part);
    forall q | q in FeasiblePoints(r)
      ensures Covered(covered, q)
    {
      if !Covered(covered, q) {
        var i := UncoveredPointExtends(r, covered, {part}, part, u, q);
        ExtendableMore(r, part, conflict, u, i);
      }
    }
  }

  lemma ExtendableMore(r: Problem, part: Clause, conflict: Clause, u: Point, i: nat)
    requires i < |r.roots| && i < |u| && part <= conflict && Extendable(r, part, u, i)
    ensures Extendable(r, conflict, u, i)
  {
    var l :| l in part && RootOf(r, i, l);
    assert l in conflict;
  }

  // ---------------------------------------------------------------- candidates

  /** The points of a search: feasible for the relaxation, open before, and kept by the archive. */
  ghost predicate Searched(r: Problem, accepted: set<Point>, found: set<Point>, es: seq<Entry>) {
    && found <= FeasiblePoints(r) && Fronts(found, Points(es)) && Candidates(r, es)
    && forall y | y in found :: !Covered(accepted, y)
  }

  lemma EntryIsPoint(r: Problem, accepted: set<Point>, found: set<Point>, es: seq<Entry>, e: Entry)
    requires Searched(r, accepted, found, es) && e in es
    ensures e.point in Points(es) && !Covered(accepted, e.point) && SatDb(r.hard, e.model) &&
        e.point == Eval(r, e.model)
  {
    hide FeasiblePoints, Covered, CoversAll, Antichain, SatDb, Eval;
    assert e.point in Points(es);
  }

  /** The search with one more candidate. */
  lemma SearchedGrows(r: Problem, accepted: set<Point>, found: set<Point>, es: seq<Entry>, m: Assignment)
    requires Searched(r, accepted, found, es) && SatDb(r.hard, m)
    requires var y := Eval(r, m); y in FeasiblePoints(r) && !Covered(accepted, y) && !Covered(Points(es), y)
    ensures var y := Eval(r, m); Searched(r, accepted, found + {y}, Kept(es, y) + [Entry(m, y)])
  {
    hide FeasiblePoints, Eval, SatDb, Covered, Antichain, CoversAll, Candidates;
    var y := Eval(r, m);
    FrontsGrow(found, es, m, y);
    CandidatesGrow(r, es, m, y);
  }

  lemma SearchedIsFeasible(r: Problem, accepted: set<Point>, found: set<Point>, es: seq<Entry>)
    requires Searched(r, accepted, found, es)
    ensures found <= FeasiblePoints(r)
  {
  }

  lemma SearchedFronts(r: Problem, accepted: set<Point>, found: set<Point>, es: seq<Entry>)
    requires Searched(r, accepted, found, es)
    ensures Fronts(found, Points(es))
  {
  }

  lemma NothingLeft(r: Problem, accepted: set<Point>)
    ensures Searched(r, accepted, {}, [])
  {
  }

  lemma EvalSize(r: Problem, m: Assignment)
    ensures |Eval(r, m)| == |r.objs|
  {
  }

  lemma OpenForFound(found: set<Point>, points: set<Point>, y: Point)
    requires Fronts(found, points) && forall t | t in points :: !Dominates(t, y)
    ensures !Covered(found, y) && y !in found && !Covered(points, y)
  {
    forall t | t in found
      ensures !Dominates(t, y)
    {
      assert Covered(points, t);
      var u :| u in points && Dominates(u, t);
      if Dominates(t, y) {
        DominatesTransitive(u, t, y);
      }
    }
    DominatesItself(y);
  }

  /** A candidate that satisfies the formula is Pareto-optimal. */
  lemma CandidateIsOptimal(R: Relaxation, accepted: set<Point>, found: set<Point>,
                           points: set<Point>, c: Point)
    requires ValidRelaxation(R)
    requires forall k | k in R.cores :: Entails(R.I.hard, k)
    requires CoversAll(accepted + found, FeasiblePoints(Relaxed(R))) && Fronts(found, points)
    requires c in points && !Covered(accepted, c) && c in FeasiblePoints(Whole(R.I))
    ensures c in ParetoFront(FeasiblePoints(Whole(R.I)))
  {
    hide ValidInstance, Frozen, DbBelow, FeasiblePoints, Whole, Relaxed, Entails;
    var feasible := FeasiblePoints(Whole(R.I));
    forall q | q in feasible && Dominates(q, c)
      ensures q == c
    {
      var r := RelaxationIsBelow(R, q);
      DominatesTransitive(r, q, c);
      assert Covered(accepted + found, r);
      var t :| t in accepted + found && Dominates(t, r);
      DominatesTransitive(t, r, c);
      if t in found {
        assert Covered(points, t);
        var u :| u in points && Dominates(u, t);
        DominatesTransitive(u, t, c);
        DominatesAntisymmetric(c, t);
        DominatesTransitive(c, r, q);
        DominatesAntisymmetric(q, c);
      }
    }
  }

  /** With every candidate accepted, the accepted points are the Pareto front. */
  lemma AllAcceptedIsTheFront(R: Relaxation, accepted: set<Point>, found: set<Point>, points: set<Point>)
    requires ValidRelaxation(R)
    requires forall k | k in R.cores :: Entails(R.I.hard, k)
    requires CoversAll(accepted + found, FeasiblePoints(Relaxed(R))) && Fronts(found, points)
    requires accepted + points <= ParetoFront(FeasiblePoints(Whole(R.I)))
    ensures accepted + points == ParetoFront(FeasiblePoints(Whole(R.I)))
    ensures CoversAll(accepted + points, FeasiblePoints(Whole(R.I)))
  {
    hide ValidInstance, Frozen, DbBelow, FeasiblePoints, Whole, Relaxed, Entails, Fronts;
    var feasible := FeasiblePoints(Whole(R.I));
    forall q | q in feasible
      ensures Covered(accepted + points, q)
    {
      var r := RelaxationIsBelow(R, q);
      assert Covered(accepted + found, r);
      KeptCover(accepted, found, points, r);
      CoveredBelow(accepted + points, r, q);
    }
    forall q | q in ParetoFront(feasible)
      ensures q in accepted + points
    {
      assert Covered(accepted + points, q);
      var y :| y in accepted + points && Dominates(y, q);
      assert y in ParetoFront(feasible);
    }
  }

  lemma KeptCover(accepted: set<Point>, found: set<Point>, points: set<Point>, r: Point)
    requires Fronts(found, points) && Covered(accepted + found, r)
    ensures Covered(accepted + points, r)
  {
    var t :| t in accepted + found && Dominates(t, r);
    if t in accepted {
      assert t in accepted + points;
    } else {
      assert Covered(points, t);
      CoveredBelow(points, t, r);
      CoverGrows(points, accepted + points, r);
    }
  }

  /** The componentwise minimum of the rejected points bounds whatever later relaxations leave open. */
  lemma RestartIsBelow(R: Relaxation, more: Db, accepted: set<Point>, found: set<Point>,
                       points: set<Point>, rejected: set<Point>, dom: Point, a: Assignment)
    requires ValidRelaxation(R) && R.cores <= more
    requires CoversAll(accepted + found, FeasiblePoints(Relaxed(R))) && Fronts(found, points)
    requires forall c | c in points && c !in rejected :: c in accepted
    requires forall c | c in rejected :: Dominates(dom, c)
    requires SatDb(R.I.p.hard, a) && SatDb(more, a) && !Covered(accepted, Eval(R.I.p, a))
    ensures Dominates(dom, Eval(R.I.p, a))
  {
    hide ValidInstance, DbBelow, FeasiblePoints, Relaxed, Frozen, Fronts;
    assert SatDb(R.cores, a);
    FreezingLosesNothing(R.I.p.objs, R.cores, R.frozen, R.slice, a);
    var b := Lowered(a, R.frozen);
    var e := ExtensionOf(R.I, b);
    var r := ExtendedPoint(R, b, e);
    assert Dominates(r, Eval(R.I.p, a));
    assert Covered(accepted + found, r);
    KeptCover(accepted, found, points, r);
    var t :| t in accepted + points && Dominates(t, r);
    DominatesTransitive(t, r, Eval(R.I.p, a));
    assert t in rejected;
    DominatesTransitive(dom, t, Eval(R.I.p, a));
  }

  lemma ExtensionOf(I: Instance, b: Assignment) returns (e: Assignment)
    requires ValidInstance(I)
    ensures Agree(b, e, I.n) && SatDb(I.p.hard, e)
  {
    hide Valid;
    assert Extends(I, b);
    e :| Agree(b, e, I.n) && SatDb(I.p.hard, e);
  }

  // ---------------------------------------------------------------- checking candidates

  /** `modelClause`: the literals that fix the first `n` variables as in the model. */
  function FullModel(n: nat, m: Assignment): set<Lit> {
    set v | v in VarsBelow(n) :: FixedLit(v, m)
  }

  /** The literal of a variable that holds in the model. */
  function FixedLit(v: nat, m: Assignment): Lit {
    if v in m then Lit(v, false) else Lit(v, true)
  }

  /** A model of the formula under a complete model is that model. */
  lemma FullModelDecides(I: Instance, m: Assignment, a: Assignment)
    requires AllHold(FullModel(I.n, m), a)
    ensures Agree(a, m, I.n)
  {
    forall v: nat | v < I.n
      ensures v in a <==> v in m
    {
      assert FixedLit(v, m) in FullModel(I.n, m);
    }
  }

  /** A conflict under a complete model is falsified by it. */
  lemma CoreExcludes(n: nat, m: Assignment, conflict: Clause)
    requires Negates(conflict, FullModel(n, m))
    ensures !SatClause(conflict, m) && LitsBelow(conflict, n)
  {
    forall l | l in conflict
      ensures !Holds(l, m) && l.v < n
    {
      assert l.Not() in FullModel(n, m);
    }
  }

  /** The assignments of the variables that the cores admit. */
  ghost function Admitted(n: nat, cores: Db): set<Assignment> {
    set a: Assignment | a <= VarsBelow(n) && SatDb(cores, a)
  }

  /** Every round with a rejected candidate excludes its assignment. */
  lemma AdmittedShrinks(n: nat, cores: Db, more: Db, m: Assignment, conflict: Clause)
    requires DbBelow(cores, n) && SatDb(cores, m) && conflict in more && !SatClause(conflict, m) &&
        LitsBelow(conflict, n)
    ensures Admitted(n, cores + more) < Admitted(n, cores)
  {
    var a := set v | v in m && v < n;
    SatDbAgree(cores, m, a, n);
    assert a <= VarsBelow(n);
    assert !SatClause(conflict, a) by {
      if SatClause(conflict, a) {
        var l :| l in conflict && Holds(l, a);
        assert Holds(l, m);
      }
    }
    assert a in Admitted(n, cores) && a !in Admitted(n, cores + more);
  }

  lemma CheckedIsFeasible(R: Relaxation, m: Assignment, a: Assignment)
    requires ValidRelaxation(R)
    requires SatDb(Relaxed(R).hard, m) && SatDb(R.I.hard, a) && Agree(a, m, R.I.n)
    ensures var y := Eval(Relaxed(R), m); y == Eval(R.I.p, m) && y in FeasiblePoints(Whole(R.I))
  {
    RelaxedIsValid(R);
    WholeIsValid(R.I);
    hide Valid, OwnRoots, Frozen, FeasiblePoints, Eval, StandsFor;
    RelaxedModel(R, m);
    SatDbAgree(R.I.hard, a, m, R.I.n);
    assert SatDb(Whole(R.I).hard, m);
    ModelIsFeasible(Whole(R.I), m);
    assert Eval(Whole(R.I), m) == Eval(R.I.p, m) by { SameObjectives(R.I, m); }
  }

  lemma SameObjectives(I: Instance, m: Assignment)
    ensures Eval(Whole(I), m) == Eval(I.p, m)
  {
  }

  lemma SatHard(I: Instance, m: Assignment, a: Assignment)
    requires ValidInstance(I) && SatDb(I.hard, a) && Agree(a, m, I.n)
    ensures SatDb(I.hard, m)
  {
    SatDbAgree(I.hard, a, m, I.n);
  }

  lemma CoreFails(hard: Db, m: Assignment, core: Clause)
    requires Entails(hard, core) && !SatClause(core, m)
    ensures !SatDb(hard, m)
  {
  }

  /** The points of the candidates that satisfy the formula, and of those that do not. */
  ghost function Passing(hard: Db, es: seq<Entry>): set<Point> {
    set e | e in es && SatDb(hard, e.model) :: e.point
  }

  ghost function Failing(hard: Db, es: seq<Entry>): set<Point> {
    set e | e in es && !SatDb(hard, e.model) :: e.point
  }

  lemma SomeFails(hard: Db, es: seq<Entry>) returns (e: Entry)
    requires Failing(hard, es) != {}
    ensures e in es && !SatDb(hard, e.model)
  {
    var y :| y in Failing(hard, es);
    e :| e in es && !SatDb(hard, e.model) && e.point == y;
  }

  lemma NothingChecked(hard: Db, es: seq<Entry>)
    ensures Passing(hard, es[..0]) == Failing(hard, es[..0]) == {}
  {
  }

  lemma OneMoreChecked(hard: Db, es: seq<Entry>, i: nat)
    requires i < |es|
    ensures Passing(hard, es[..i + 1]) == Passing(hard, es[..i]) + if SatDb(hard, es[i].model) then {es[i].point}
        else {}
    ensures Failing(hard, es[..i + 1]) == Failing(hard, es[..i]) + if SatDb(hard, es[i].model) then {}
        else {es[i].point}
  {
    hide SatDb;
    assert es[..i + 1] == es[..i] + [es[i]];
  }

  /** Without a rejection, all candidates pass. */
  lemma AllPass(hard: Db, es: seq<Entry>)
    requires Failing(hard, es) == {}
    ensures Points(es) == Passing(hard, es)
  {
    hide SatDb;
    forall e | e in es
      ensures SatDb(hard, e.model)
    {
      assert SatDb(hard, e.model) || e.point in Failing(hard, es);
    }
  }

  /** A point that is not marked belongs to a candidate that passed. */
  lemma NotMarkedPasses(hard: Db, es: seq<Entry>)
    ensures Points(es) - Failing(hard, es) <= Passing(hard, es)
  {
    hide SatDb;
  }

  /** The candidates of a covered relaxation that satisfy the formula are Pareto-optimal. */
  lemma PassingIsOptimal(R: Relaxation, accepted: set<Point>, found: set<Point>, es: seq<Entry>)
    requires ValidRelaxation(R) && (forall c | c in R.cores :: Entails(R.I.hard, c))
    requires Searched(Relaxed(R), accepted, found, es)
    requires CoversAll(accepted + found, FeasiblePoints(Relaxed(R)))
    ensures Passing(R.I.hard, es) <= ParetoFront(FeasiblePoints(Whole(R.I)))
  {
    hide ValidInstance, Frozen, DbBelow, Entails, SatDb, FeasiblePoints, Relaxed, Whole, ParetoFront, CoversAll,
         Searched;
    SearchedFronts(Relaxed(R), accepted, found, es);
    forall e | e in es && SatDb(R.I.hard, e.model)
      ensures e.point in ParetoFront(FeasiblePoints(Whole(R.I)))
    {
      EntryIsPoint(Relaxed(R), accepted, found, es, e);
      AgreesWithItself(e.model, R.I.n);
      CheckedIsFeasible(R, e.model, e.model);
      CandidateIsOptimal(R, accepted, found, Points(es), e.point);
    }
  }

  lemma AgreesWithItself(a: Assignment, n: nat)
    ensures Agree(a, a, n)
  {
  }

  /** The cores exclude the model of the entry. */
  ghost predicate Excluded(e: Entry, diagnoses: Db) {
    exists c :: c in diagnoses && !SatClause(c, e.model)
  }

  lemma ExcludedBy(es: seq<Entry>, i: nat, diagnoses: Db, diagnosis: Clause)
    requires i < |es| && !SatClause(diagnosis, es[i].model)
    ensures Excluded(es[i], diagnoses + {diagnosis})
    ensures forall k | 0 <= k < |es| && Excluded(es[k], diagnoses) :: Excluded(es[k], diagnoses + {diagnosis})
  {
    assert diagnosis in diagnoses + {diagnosis};
    forall k | 0 <= k < |es| && Excluded(es[k], diagnoses)
      ensures Excluded(es[k], diagnoses + {diagnosis})
    {
      var c :| c in diagnoses && !SatClause(c, es[k].model);
      assert c in diagnoses + {diagnosis};
    }
  }

  lemma FixedBelow(n: nat, m: Assignment, nVars: nat)
    requires n <= nVars
    ensures LitsBelow(FullModel(n, m), nVars)
  {
  }

  lemma FirstIsFeasible(I: Instance, first: Assignment)
    requires ValidInstance(I) && SatDb(Whole(I).hard, first)
    ensures Eval(I.p, first) in FeasiblePoints(Whole(I))
  {
    WholeIsValid(I);
    ModelIsFeasible(Whole(I), first);
    SameObjectives(I, first);
  }

  lemma EntryShrinks(R: Relaxation, accepted: set<Point>, found: set<Point>, es: seq<Entry>,
                     e: Entry, diagnoses: Db)
    requires ValidRelaxation(R) && DbBelow(diagnoses, R.I.n)
    requires Searched(Relaxed(R), accepted, found, es) && e in es && Excluded(e, diagnoses)
    ensures Admitted(R.I.n, R.cores + diagnoses) < Admitted(R.I.n, R.cores)
  {
    RelaxedIsValid(R);
    hide Valid, OwnRoots, FeasiblePoints, Admitted, Frozen, StandsFor;
    RelaxedModel(R, e.model);
    var c :| c in diagnoses && !SatClause(c, e.model);
    assert LitsBelow(c, R.I.n);
    AdmittedShrinks(R.I.n, R.cores, diagnoses, e.model, c);
  }

  lemma MoreEntailed(hard: Db, cores: Db, more: Db)
    requires (forall k | k in cores :: Entails(hard, k)) && forall k | k in more :: Entails(hard, k)
    ensures forall k | k in cores + more :: Entails(hard, k)
  {
  }
}
