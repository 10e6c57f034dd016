/** Small instances with unequal weights in one objective, on which the hitting-set loop can miss points. */
module SliceLoss {
  import opened Cnf
  import opened Pareto
  import opened Encoding
  import opened Fences
  import opened Freezing
  import opened Slices
  import opened Relaxations
  import opened SliceBlocks

  function P(v: nat): Lit { Lit(v, false) }
  function N(v: nat): Lit { Lit(v, true) }

  // ---------------------------------------------------------------- unequal weights

  const A := 0
  const B := 1
  const C := 2
  const VARS := 3
  const BASE := 9

  /** Objectives heavy * a + light * b and other * c, with their order encodings. */
  function Encoded(light: nat, heavy: nat, other: nat): Problem {
    Problem(BASE,
            {{N(3), N(A)}, {N(3), N(B)}, {P(3), P(A), P(B)},
             {N(4), N(A)}, {P(4), P(A)},
             {N(5), N(A), N(B)}, {P(5), P(A)}, {P(5), P(B)},
             {P(6)},
             {N(7), N(C)}, {P(7), P(C)},
             {P(8)}},
            [[Term(heavy, P(A)), Term(light, P(B))], [Term(other, P(C))]],
            [[Root(0, P(0)), Root(1, P(3)), Root(light + 1, P(4)), Root(heavy + 1, P(5)),
                Root(light + heavy + 1, P(6))],
             [Root(0, P(0)), Root(1, P(7)), Root(other + 1, P(8))]],
            [light + heavy, other])
  }

  /** Hard clauses (a or b) and (a or c). */
  function Lossy(light: nat, heavy: nat, other: nat): Instance {
    Instance(VARS, {{P(A), P(B)}, {P(A), P(C)}}, Encoded(light, heavy, other))
  }

  /** What the encoding defines. */
  predicate Defined(a: Assignment) {
    && (3 in a <==> A !in a && B !in a) && (4 in a <==> A !in a) && (5 in a <==> A !in a || B !in a) && 6 in a
    && (7 in a <==> C !in a) && 8 in a
  }

  lemma One(k: Lit, a: Assignment)
    ensures SatClause({k}, a) <==> Holds(k, a)
  {
    if Holds(k, a) {
      assert k in {k};
    }
  }

  lemma Two(k: Lit, l: Lit, a: Assignment)
    ensures SatClause({k, l}, a) <==> Holds(k, a) || Holds(l, a)
  {
    assert k in {k, l} && l in {k, l};
  }

  lemma Three(k: Lit, l: Lit, m: Lit, a: Assignment)
    ensures SatClause({k, l, m}, a) <==> Holds(k, a) || Holds(l, a) || Holds(m, a)
  {
    assert k in {k, l, m} && l in {k, l, m} && m in {k, l, m};
  }

  lemma EncodingDefines(light: nat, heavy: nat, other: nat, a: Assignment)
    ensures SatDb(Encoded(light, heavy, other).hard, a) <==> Defined(a)
  {
    Two(N(3), N(A), a);
    Two(N(3), N(B), a);
    Three(P(3), P(A), P(B), a);
    Two(N(4), N(A), a);
    Two(P(4), P(A), a);
    Three(N(5), N(A), N(B), a);
    Two(P(5), P(A), a);
    Two(P(5), P(B), a);
    One(P(6), a);
    Two(N(7), N(C), a);
    Two(P(7), P(C), a);
    One(P(8), a);
    hide SatClause;
  }

  lemma ValueOfOne(t: Term, a: Assignment)
    ensures Value([t], a) == if Holds(t.l, a) then t.w else 0
  {
    assert [t][1..] == [];
  }

  lemma ValueOfTwo(t: Term, u: Term, a: Assignment)
    ensures Value([t, u], a) == (if Holds(t.l, a) then t.w else 0) + (if Holds(u.l, a) then u.w else 0)
  {
    assert [t, u][1..] == [u];
    ValueOfOne(u, a);
  }

  lemma Values(light: nat, heavy: nat, other: nat, a: Assignment)
    ensures var p := Encoded(light, heavy, other);
      && Value(p.objs[0], a) == (if A in a then heavy else 0) + (if B in a then light else 0)
      && Value(p.objs[1], a) == if C in a then other else 0
  {
    ValueOfTwo(Term(heavy, P(A)), Term(light, P(B)), a);
    ValueOfOne(Term(other, P(C)), a);
  }

  lemma FirstEncodes(light: nat, heavy: nat, other: nat)
    requires 0 < light < heavy && other > 0
    ensures EncodesObjective(Encoded(light, heavy, other), 0)
  {
    var p := Encoded(light, heavy, other);
    hide SatDb;
    forall a: Assignment, j: nat | SatDb(p.hard, a) && 1 <= j < |p.roots[0]|
      ensures Holds(p.roots[0][j].lit, a) <==> Value(p.objs[0], a) < p.roots[0][j].key
    {
      EncodingDefines(light, heavy, other, a);
      Values(light, heavy, other, a);
      assert j == 1 || j == 2 || j == 3 || j == 4;
    }
    forall a: Assignment | SatDb(p.hard, a)
      ensures exists j :: 1 <= j < |p.roots[0]| && p.roots[0][j].key == Value(p.objs[0], a) + 1
    {
      Values(light, heavy, other, a);
      var j := if A in a then if B in a then 4 else 3 else if B in a then 2 else 1;
      assert p.roots[0][j].key == Value(p.objs[0], a) + 1;
    }
  }

  lemma SecondEncodes(light: nat, heavy: nat, other: nat)
    requires other > 0
    ensures EncodesObjective(Encoded(light, heavy, other), 1)
  {
    var p := Encoded(light, heavy, other);
    hide SatDb;
    forall a: Assignment, j: nat | SatDb(p.hard, a) && 1 <= j < |p.roots[1]|
      ensures Holds(p.roots[1][j].lit, a) <==> Value(p.objs[1], a) < p.roots[1][j].key
    {
      EncodingDefines(light, heavy, other, a);
      Values(light, heavy, other, a);
      assert j == 1 || j == 2;
    }
    forall a: Assignment | SatDb(p.hard, a)
      ensures exists j :: 1 <= j < |p.roots[1]| && p.roots[1][j].key == Value(p.objs[1], a) + 1
    {
      Values(light, heavy, other, a);
      var j := if C in a then 2 else 1;
      assert p.roots[1][j].key == Value(p.objs[1], a) + 1;
    }
  }

  lemma SumsOfTwo(t: Term, u: Term)
    ensures Sums([t, u]) == {0, t.w, u.w, t.w + u.w}
  {
    assert [t, u][1..] == [u];
    SumsOfOne(u);
    forall s: nat
      ensures s in WithTerm({0, u.w}, t.w) <==> s in {0, t.w, u.w, t.w + u.w}
    {
    }
  }

  lemma FourKeys(rl: Roots, t: Term, u: Term)
    requires |rl| == 5 && rl[1].key == 1 && rl[2].key == u.w + 1 && rl[3].key == t.w + 1 && rl[4].key == t.w + u.w + 1
    ensures KeyedSums(rl, Sums([t, u])) && forall j | 1 <= j < |rl| :: rl[j].key > 0 && rl[j].key - 1 in Sums([t, u])
  {
    SumsOfTwo(t, u);
    hide Sums;
    KeyAt(rl, 1);
    KeyAt(rl, 2);
    KeyAt(rl, 3);
    KeyAt(rl, 4);
    hide HasKey;
  }

  lemma TwoKeys(rl: Roots, t: Term)
    requires |rl| == 3 && rl[1].key == 1 && rl[2].key == t.w + 1
    ensures KeyedSums(rl, Sums([t])) && forall j | 1 <= j < |rl| :: rl[j].key > 0 && rl[j].key - 1 in Sums([t])
  {
    SumsOfOne(t);
    hide Sums;
    KeyAt(rl, 1);
    KeyAt(rl, 2);
    hide HasKey;
  }

  lemma KeysAreSums(light: nat, heavy: nat, other: nat)
    ensures SumKeys(Encoded(light, heavy, other), 0) && SumKeys(Encoded(light, heavy, other), 1)
  {
    hide Sums, KeyedSums;
    var p := Encoded(light, heavy, other);
    FourKeys(p.roots[0], Term(heavy, P(A)), Term(light, P(B)));
    TwoKeys(p.roots[1], Term(other, P(C)));
  }

  lemma KeyAt(rl: Roots, j: nat)
    requires 1 <= j < |rl|
    ensures HasKey(rl, rl[j].key)
  {
  }

  /** The model of the encoding that extends an assignment of the variables. */
  function Completed(a: Assignment): Assignment {
    (set v | v in a && v < VARS)
    + (if A in a || B in a then {} else {3}) + (if A in a then {} else {4}) + (if A in a && B in a then {} else {5}) +
        {6}
    + (if C in a then {} else {7}) + {8}
  }

  lemma CompletedIsModel(light: nat, heavy: nat, other: nat, a: Assignment)
    ensures Agree(a, Completed(a), VARS) && SatDb(Encoded(light, heavy, other).hard, Completed(a))
  {
    EncodingDefines(light, heavy, other, Completed(a));
    hide SatDb;
  }

  lemma EncodedIsValid(light: nat, heavy: nat, other: nat)
    requires 0 < light < heavy && other > 0
    ensures Valid(Encoded(light, heavy, other))
  {
    FirstEncodes(light, heavy, other);
    SecondEncodes(light, heavy, other);
    EncodedBelow(light, heavy, other);
    hide EncodesObjective, DbBelow, TermsBelow;
    var p := Encoded(light, heavy, other);
    forall i | 0 <= i < |p.objs|
      ensures EncodesObjective(p, i) && TermsBelow(p.objs[i], p.base)
    {
      assert i == 0 || i == 1;
    }
  }

  lemma EncodedBelow(light: nat, heavy: nat, other: nat)
    ensures var p := Encoded(light, heavy, other);
      && DbBelow(p.hard, BASE) && TermsBelow(p.objs[0], VARS) && TermsBelow(p.objs[1], VARS)
      && TermsBelow(p.objs[0], BASE) && TermsBelow(p.objs[1], BASE)
  {
  }

  lemma RootsAbove(light: nat, heavy: nat, other: nat, i: nat, j: nat)
    requires var p := Encoded(light, heavy, other); i < |p.roots| && 1 <= j < |p.roots[i]|
    ensures Encoded(light, heavy, other).roots[i][j].lit.v >= VARS
  {
    assert i == 0 || i == 1;
    assert j == 1 || j == 2 || j == 3 || j == 4;
  }

  lemma EncodedTerms(light: nat, heavy: nat, other: nat, i: nat)
    requires i < |Encoded(light, heavy, other).objs|
    ensures var p := Encoded(light, heavy, other);
      |p.roots| == |p.objs| && TermsBelow(p.objs[i], VARS) && DistinctVars(p.objs[i]) && SumKeys(p, i)
  {
    KeysAreSums(light, heavy, other);
    EncodedBelow(light, heavy, other);
    hide SumKeys, TermsBelow, DbBelow;
    assert i == 0 || i == 1;
  }

  lemma LossyIsValid(light: nat, heavy: nat, other: nat)
    requires 0 < light < heavy && other > 0
    ensures ValidInstance(Lossy(light, heavy, other))
  {
    hide Valid, SumKeys, SatDb, OwnRoots, NoDoubles, DbBelow, TermsBelow, DistinctVars, Encoded;
    assert Encoded(light, heavy, other).base == BASE by { BaseOf(light, heavy, other); }
    var I := Lossy(light, heavy, other);
    EncodedIsValid(light, heavy, other);
    LossyShape(light, heavy, other);
    forall i | 0 <= i < |I.p.objs|
      ensures |I.p.roots| == |I.p.objs| && TermsBelow(I.p.objs[i], I.n) && DistinctVars(I.p.objs[i]) && SumKeys(I.p, i)
    {
      EncodedTerms(light, heavy, other, i);
    }
    forall i, j | 0 <= i < |I.p.roots| && 1 <= j < |I.p.roots[i]|
      ensures I.n <= I.p.roots[i][j].lit.v
    {
      RootsAbove(light, heavy, other, i, j);
    }
    forall a: Assignment
      ensures Extends(I, a)
    {
      CompletedIsModel(light, heavy, other, a);
    }
  }

  lemma LossyShape(light: nat, heavy: nat, other: nat)
    ensures OwnRoots(Encoded(light, heavy, other)) && NoDoubles(Encoded(light, heavy, other).objs)
    ensures DbBelow(Lossy(light, heavy, other).hard, VARS)
  {
    var I := Lossy(light, heavy, other);
    forall l: Lit
      ensures !(Occurs(I.p.objs, l) && Occurs(I.p.objs, l.Not()))
    {
      if Occurs(I.p.objs, l) && Occurs(I.p.objs, l.Not()) {
        NeverNegated(light, heavy, other, l);
        NeverNegated(light, heavy, other, l.Not());
        assert false;
      }
    }
    forall i, k, l | 0 <= i < |I.p.roots| && 0 <= k < |I.p.roots| && RootOf(I.p, i, l) && RootOf(I.p, k, l)
      ensures i == k
    {
      RootVars(light, heavy, other, i, l);
      RootVars(light, heavy, other, k, l);
    }
  }

  lemma NeverNegated(light: nat, heavy: nat, other: nat, l: Lit)
    requires Occurs(Encoded(light, heavy, other).objs, l)
    ensures !l.neg
  {
  }

  lemma RootVars(light: nat, heavy: nat, other: nat, i: nat, l: Lit)
    requires i < 2 && RootOf(Encoded(light, heavy, other), i, l)
    ensures if i == 0 then 3 <= l.v <= 6 else 7 <= l.v <= 8
  {
  }

  lemma BaseOf(light: nat, heavy: nat, other: nat)
    ensures Encoded(light, heavy, other).base == BASE
  {
  }

  // ---------------------------------------------------------------- its front

  predicate Allowed(a: Assignment) {
    (A in a || B in a) && (A in a || C in a)
  }

  function PointFor(light: nat, heavy: nat, other: nat, a: Assignment): Point {
    [(if A in a then heavy else 0) + (if B in a then light else 0), if C in a then other else 0]
  }

  lemma HardMeaning(light: nat, heavy: nat, other: nat, a: Assignment)
    ensures SatDb(Lossy(light, heavy, other).hard, a) <==> Allowed(a)
  {
    Two(P(A), P(B), a);
    Two(P(A), P(C), a);
    hide SatClause;
  }

  lemma EvalIsPoint(light: nat, heavy: nat, other: nat, a: Assignment)
    ensures Eval(Encoded(light, heavy, other), a) == PointFor(light, heavy, other, a)
  {
    Values(light, heavy, other, a);
  }

  lemma WholeParts(I: Instance, a: Assignment)
    ensures SatDb(Whole(I).hard, a) <==> SatDb(I.p.hard, a) && SatDb(I.hard, a)
    ensures Eval(Whole(I), a) == Eval(I.p, a)
  {
    SameObjectives(I, a);
  }

  /** The feasible points are the points of the allowed assignments. */
  lemma AllowedIsFeasible(light: nat, heavy: nat, other: nat, a: Assignment)
    requires 0 < light < heavy && other > 0 && Allowed(a) && a <= {A, B, C}
    ensures PointFor(light, heavy, other, a) in FeasiblePoints(Whole(Lossy(light, heavy, other)))
  {
    var I, e := Lossy(light, heavy, other), Completed(a);
    LossyIsValid(light, heavy, other);
    WholeIsValid(I);
    CompletedIsModel(light, heavy, other, a);
    assert Allowed(e) && PointFor(light, heavy, other, e) == PointFor(light, heavy, other, a);
    HardMeaning(light, heavy, other, e);
    EvalIsPoint(light, heavy, other, e);
    WholeParts(I, e);
    hide ValidInstance, SatDb, Eval, FeasiblePoints, Encoded, Completed;
    ModelIsFeasible(Whole(I), e);
  }

  lemma FeasibleIsAllowed(light: nat, heavy: nat, other: nat, q: Point) returns (a: Assignment)
    requires 0 < light < heavy && other > 0 && q in FeasiblePoints(Whole(Lossy(light, heavy, other)))
    ensures Allowed(a) && q == PointFor(light, heavy, other, a)
  {
    var I := Lossy(light, heavy, other);
    LossyIsValid(light, heavy, other);
    WholeIsValid(I);
    hide ValidInstance, SatDb, Eval, FeasiblePoints, Encoded;
    a := FeasiblePoint(Whole(I), q);
    WholeParts(I, a);
    HardMeaning(light, heavy, other, a);
    EvalIsPoint(light, heavy, other, a);
  }

  lemma HeavyIsOptimal(light: nat, heavy: nat, other: nat)
    requires 0 < light < heavy && other > 0
    ensures [heavy, 0] in ParetoFront(FeasiblePoints(Whole(Lossy(light, heavy, other))))
  {
    hide FeasiblePoints, Whole, Lossy;
    AllowedIsFeasible(light, heavy, other, {A});
    var feasible := FeasiblePoints(Whole(Lossy(light, heavy, other)));
    assert [heavy, 0] in feasible;
    forall q | q in feasible && Dominates(q, [heavy, 0])
      ensures q == [heavy, 0]
    {
      var a := FeasibleIsAllowed(light, heavy, other, q);
      assert q[0] <= heavy && q[1] <= 0;
    }
  }

  lemma LightIsOptimal(light: nat, heavy: nat, other: nat)
    requires 0 < light < heavy && other > 0
    ensures [light, other] in ParetoFront(FeasiblePoints(Whole(Lossy(light, heavy, other))))
  {
    hide FeasiblePoints, Whole, Lossy;
    AllowedIsFeasible(light, heavy, other, {B, C});
    var feasible := FeasiblePoints(Whole(Lossy(light, heavy, other)));
    assert [light, other] in feasible;
    forall q | q in feasible && Dominates(q, [light, other])
      ensures q == [light, other]
    {
      var a := FeasibleIsAllowed(light, heavy, other, q);
      assert q[0] <= light && q[1] <= other;
    }
  }

  // ---------------------------------------------------------------- how it is lost

  lemma OccurringLits(light: nat, heavy: nat, other: nat, l: Lit)
    ensures Occurs(Encoded(light, heavy, other).objs, l) <==> l in {P(A), P(B), P(C)}
  {
    var objs: Objectives := Encoded(light, heavy, other).objs;
    assert objs[0][0].l == P(A) && objs[0][1].l == P(B) && objs[1][0].l == P(C);
    if l == P(A) || l == P(B) {
      assert OccursIn(objs[0], |objs[0]|, l);
    } else if l == P(C) {
      assert OccursIn(objs[1], |objs[1]|, l);
    }
  }

  /** The optimizer after its first round: the empty assignment failed, and (a or c) was learnt. */
  function SecondRound(light: nat, heavy: nat, other: nat): Relaxation {
    Relaxation(Lossy(light, heavy, other), {{P(A), P(C)}}, {P(B)}, {P(A), P(C)})
  }

  lemma BuildFreezesAll(light: nat, heavy: nat, other: nat)
    ensures FreezesSingles(Encoded(light, heavy, other).objs, {P(A), P(B), P(C)})
    ensures Frozen(Encoded(light, heavy, other).objs, {}, {P(A), P(B), P(C)}, {})
  {
    hide Occurs;
    var objs: Objectives := Encoded(light, heavy, other).objs;
    var start := {P(A), P(B), P(C)};
    forall l: Lit
      ensures l in start <==> Occurs(objs, l) && !Occurs(objs, l.Not())
    {
      OccurringLits(light, heavy, other, l);
      OccurringLits(light, heavy, other, l.Not());
    }
    BuildFreezes(objs, start);
  }

  /** This is where `build` and the thaw of (a or c) lead. */
  lemma SecondRoundIsReached(light: nat, heavy: nat, other: nat)
    requires 0 < light < heavy && other > 0
    ensures var start, core := {P(A), P(B), P(C)}, {P(A), P(C)};
      && FreezesSingles(Encoded(light, heavy, other).objs, start)
      && SecondRound(light, heavy, other) == Relaxation(Lossy(light, heavy, other), {core}, start - core,
          Thawed(start, core))
    ensures ValidRelaxation(SecondRound(light, heavy, other))
  {
    hide ValidInstance, Encoded, Occurs, Frozen, FreezesSingles;
    var objs: Objectives := Encoded(light, heavy, other).objs;
    var start, core := {P(A), P(B), P(C)}, {P(A), P(C)};
    BuildFreezesAll(light, heavy, other);
    LossyIsValid(light, heavy, other);
    ThawKeepsFrozen(objs, {}, start, {}, {core}, core);
    assert start - core == {P(B)} && Thawed(start, core) == core;
    assert {} + {core} == {core} && {} + core == core;
  }

  lemma SlicesOfSecondRound(light: nat, heavy: nat, other: nat)
    ensures var objs := Encoded(light, heavy, other).objs;
      && Sliced(objs[0], {P(A), P(C)}) == [Term(heavy, P(A))] && Sliced(objs[1], {P(A), P(C)}) == [Term(other, P(C))]
  {
    var objs: Objectives := Encoded(light, heavy, other).objs;
    var slice := {P(A), P(C)};
    SlicedHead(objs[0], slice);
    assert objs[0][1..] == [Term(light, P(B))];
    SlicedHead(objs[0][1..], slice);
    assert objs[0][1..][1..] == [];
    SlicedHead(objs[1], slice);
    assert objs[1][1..] == [];
  }

  /** The block of (heavy, 0) made in this round, once its guard `v` is true for good, leaves no model of
      the encoding and the cores (a or c) and (a or b). */
  lemma NothingIsLeft(light: nat, heavy: nat, other: nat, v: nat, m: Assignment)
    requires 0 < light < heavy && other > 0
    ensures var p := Encoded(light, heavy, other);
      !SatDb(p.hard + {{P(A), P(C)}, {P(A), P(B)}} + {SliceClause(p, {P(A), P(C)}, [heavy, 0]) + {N(v)}} + {{P(v)}}, m)
  {
    hide ValidInstance, Encoded, SliceClause, SatClause, Value, SatDb;
    var I := Lossy(light, heavy, other);
    var slice, y: Point := {P(A), P(C)}, [heavy, 0];
    TwoPoints(light, heavy, other);
    var block := SliceClause(I.p, slice, y) + {N(v)};
    LossyIsValid(light, heavy, other);
    SlicesOfSecondRound(light, heavy, other);
    Values(light, heavy, other, m);
    Two(P(A), P(B), m);
    if SatDb(I.p.hard + {{P(A), P(C)}, {P(A), P(B)}} + {block} + {{P(v)}}, m) {
      Parts(I.p.hard, {P(A), P(C)}, {P(A), P(B)}, block, {P(v)}, m);
      assert Value(I.p.objs[0], m) > 0;
      HeavierClauseFails(I, 0, slice, Term(heavy, P(A)), m);
      WithoutGuard(SliceClause(I.p, slice, y), v, m);
    }
  }

  lemma Parts(hard: Db, c: Clause, d: Clause, block: Clause, unit: Clause, m: Assignment)
    requires SatDb(hard + {c, d} + {block} + {unit}, m)
    ensures SatDb(hard, m) && SatClause(c, m) && SatClause(d, m) && SatClause(block, m) && SatClause(unit, m)
  {
    var db := hard + {c, d} + {block} + {unit};
    assert c in db && d in db && block in db && unit in db && forall k | k in hard :: k in db;
  }

  lemma TwoPoints(light: nat, heavy: nat, other: nat)
    ensures OnlyAt(|Encoded(light, heavy, other).objs|, 0, heavy) == [heavy, 0]
  {
  }

  lemma WithoutGuard(c: Clause, v: nat, m: Assignment)
    requires SatClause(c + {N(v)}, m) && SatClause({P(v)}, m)
    ensures SatClause(c, m)
  {
  }

  lemma SecondModels(light: nat, heavy: nat, other: nat, a: Assignment)
    requires 0 < light < heavy && other > 0
    ensures ValidRelaxation(SecondRound(light, heavy, other))
    ensures var r := Relaxed(SecondRound(light, heavy, other));
      && (SatDb(r.hard, a) <==> Defined(a) && (A in a || C in a) && B !in a)
      && (SatDb(r.hard, a) ==> Eval(r, a) == PointFor(light, heavy, other, a))
  {
    hide ValidRelaxation, ValidInstance, Encoded, SatClause, Relaxed, Eval, StandsFor, RootsAreNew, Valid, OwnRoots;
    var R := SecondRound(light, heavy, other);
    SecondRoundIsReached(light, heavy, other);
    LossyIsValid(light, heavy, other);
    RelaxedIsValid(R);
    RelaxedModel(R, a);
    EncodingDefines(light, heavy, other, a);
    Two(P(A), P(C), a);
    EvalIsPoint(light, heavy, other, a);
    assert SatDb(R.cores, a) <==> SatClause({P(A), P(C)}, a);
    assert (forall l | l in R.frozen :: !Holds(l, a)) <==> !Holds(P(B), a);
  }

  lemma PointsOf(light: nat, heavy: nat, other: nat)
    ensures PointFor(light, heavy, other, {A}) == PointFor(light, heavy, other, Completed({A})) == [heavy, 0]
    ensures PointFor(light, heavy, other, {C}) == PointFor(light, heavy, other, Completed({C})) == [0, other]
  {
    assert A in Completed({A}) && B !in Completed({A}) && C !in Completed({A});
    assert C in Completed({C}) && A !in Completed({C}) && B !in Completed({C});
  }

  lemma CompletedDefines(a: Assignment)
    ensures Defined(Completed(a)) && forall v | v in {A, B, C} :: v in Completed(a) <==> v in a
  {
  }

  lemma SecondCandidate(light: nat, heavy: nat, other: nat, x: nat)
    requires 0 < light < heavy && other > 0 && x in {A, C}
    ensures PointFor(light, heavy, other, Completed({x})) in FeasiblePoints(Relaxed(SecondRound(light, heavy, other)))
  {
    hide ValidRelaxation, Encoded, Relaxed, SatDb, Eval, FeasiblePoints, Valid, OwnRoots, StandsFor, RootsAreNew,
         Completed, PointFor;
    SecondModels(light, heavy, other, Completed({x}));
    CompletedDefines({x});
    RelaxedIsValid(SecondRound(light, heavy, other));
    ModelIsFeasible(Relaxed(SecondRound(light, heavy, other)), Completed({x}));
  }

  lemma SecondPoint(light: nat, heavy: nat, other: nat, q: Point)
    requires 0 < light < heavy && other > 0
    requires q in FeasiblePoints(Relaxed(SecondRound(light, heavy, other)))
    ensures q in {[heavy, 0], [0, other], [heavy, other]}
  {
    hide ValidRelaxation, Encoded, Relaxed, SatDb, Eval, FeasiblePoints, Valid, OwnRoots, StandsFor, RootsAreNew;
    SecondRoundIsReached(light, heavy, other);
    RelaxedIsValid(SecondRound(light, heavy, other));
    var a := FeasiblePoint(Relaxed(SecondRound(light, heavy, other)), q);
    SecondModels(light, heavy, other, a);
  }

  lemma SecondFront(light: nat, heavy: nat, other: nat)
    requires 0 < light < heavy && other > 0
    ensures ParetoFront(FeasiblePoints(Relaxed(SecondRound(light, heavy, other)))) == {[heavy, 0], [0, other]}
  {
    hide Encoded, Relaxed, FeasiblePoints, ParetoFront, PointFor, Completed;
    SecondCandidate(light, heavy, other, A);
    SecondCandidate(light, heavy, other, C);
    PointsOf(light, heavy, other);
    var feasible := FeasiblePoints(Relaxed(SecondRound(light, heavy, other)));
    forall q | q in feasible
      ensures q in {[heavy, 0], [0, other], [heavy, other]}
    {
      SecondPoint(light, heavy, other, q);
    }
    FrontOfThree(feasible, heavy, other);
  }

  lemma FrontOfThree(feasible: set<Point>, heavy: nat, other: nat)
    requires heavy > 0 && other > 0 && [heavy, 0] in feasible && [0, other] in feasible
    requires forall q | q in feasible :: q in {[heavy, 0], [0, other], [heavy, other]}
    ensures ParetoFront(feasible) == {[heavy, 0], [0, other]}
  {
    var x: Point, y: Point, z: Point := [heavy, 0], [0, other], [heavy, other];
    assert x[1] < y[1] && y[0] < x[0] && z[0] == x[0] && z[1] == y[1];
    assert !Dominates(x, y) && !Dominates(y, x) && !Dominates(z, x) && !Dominates(z, y) && Dominates(x, z) && x != z;
  }

  /** With two different weights in one objective, the loop can lose a Pareto-optimal point. From the
      first relaxation on, each step is one the loop may take: the empty candidate fails with core
      (a or c); of the candidates of the second round, (heavy, 0) passes and is blocked for good, and
      (0, other) fails with core (a or b). Then the database has no model, although (light, other) is
      on the front: the archive has it only if it is the point of the first solution. */
  lemma UnequalWeightsLosePoint(light: nat, heavy: nat, other: nat, v: nat)
    requires 0 < light < heavy && other > 0
    ensures var I := Lossy(light, heavy, other); var R := SecondRound(light, heavy, other);
      && ValidInstance(I) && ValidRelaxation(R)
      && Entails(I.hard, {P(A), P(C)}) && !SatClause({P(A), P(C)}, {})
      && ParetoFront(FeasiblePoints(Relaxed(R))) == {[heavy, 0], [0, other]}
      && SatDb(I.hard, {A}) && Eval(I.p, {A}) == [heavy, 0] && [heavy, 0] in ParetoFront(FeasiblePoints(Whole(I)))
      && Eval(I.p, {C}) == [0, other] && Entails(I.hard, {P(A), P(B)}) && !SatClause({P(A), P(B)}, {C})
      && (forall m: Assignment ::
            !SatDb(I.p.hard + {{P(A), P(C)}, {P(A), P(B)}} + {SliceClause(I.p, R.slice, [heavy, 0]) + {N(v)}} +
                {{P(v)}}, m))
      && [light, other] in ParetoFront(FeasiblePoints(Whole(I)))
  {
    hide ValidInstance, ValidRelaxation, Encoded, FeasiblePoints, ParetoFront, SatDb, SatClause, SliceClause, Eval,
         Relaxed, Entails, PointFor, Completed;
    var I, R := Lossy(light, heavy, other), SecondRound(light, heavy, other);
    LossyIsValid(light, heavy, other);
    PointsOf(light, heavy, other);
    SecondRoundIsReached(light, heavy, other);
    HeavyIsOptimal(light, heavy, other);
    LightIsOptimal(light, heavy, other);
    CoresAreEntailed(light, heavy, other);
    HardMeaning(light, heavy, other, {A});
    EvalIsPoint(light, heavy, other, {A});
    EvalIsPoint(light, heavy, other, {C});
    SecondFront(light, heavy, other);
    forall m: Assignment
      ensures !SatDb(I.p.hard + {{P(A), P(C)}, {P(A), P(B)}} + {SliceClause(I.p, R.slice, [heavy, 0]) + {N(v)}} +
          {{P(v)}}, m)
    {
      NothingIsLeft(light, heavy, other, v, m);
    }
  }

  lemma CoresAreEntailed(light: nat, heavy: nat, other: nat)
    ensures var hard := Lossy(light, heavy, other).hard; Entails(hard, {P(A), P(C)}) && Entails(hard, {P(A), P(B)})
    ensures !SatClause({P(A), P(C)}, {}) && !SatClause({P(A), P(B)}, {C})
  {
    Two(P(A), P(C), {});
    Two(P(A), P(B), {C});
  }
}
