/** An instance with variables in both polarities, on which the hitting-set loop can accept a dominated point. */
module Doubles {
  import opened Cnf
  import opened Pareto
  import opened Encoding
  import opened Freezing
  import opened Slices
  import opened Relaxations
  import opened SliceLoss

  const X := 0
  const Z := 1

  /** The objective 2x + (not z), for a pair of variables. */
  function Terms(x: nat, z: nat): seq<Term> {
    [Term(2, P(x)), Term(1, N(z))]
  }

  /** Variables `k` to `k + 3` say that this objective is less than 1, 2, 3 and 4. */
  function Order(x: nat, z: nat, k: nat): Db {
    {{N(k), N(x)}, {N(k), P(z)}, {P(k), P(x), N(z)},
     {N(k + 1), N(x)}, {P(k + 1), P(x)},
     {N(k + 2), N(x), P(z)}, {P(k + 2), P(x)}, {P(k + 2), N(z)},
     {P(k + 3)}}
  }

  function Keys(k: nat): Roots {
    [Root(0, P(0)), Root(1, P(k)), Root(2, P(k + 1)), Root(3, P(k + 2)), Root(4, P(k + 3))]
  }

  /** The objectives 2x + (not z) and 2z + (not x), without hard clauses. */
  function Encoded(): Problem {
    Problem(10, Order(X, Z, 2) + Order(Z, X, 6), [Terms(X, Z), Terms(Z, X)], [Keys(2), Keys(6)], [3, 3])
  }

  function Doubled(): Instance {
    Instance(2, {}, Encoded())
  }

  predicate Ordered(x: nat, z: nat, k: nat, a: Assignment) {
    && (k in a <==> x !in a && z in a) && (k + 1 in a <==> x !in a) && (k + 2 in a <==> x !in a || z in a) && k + 3 in a
  }

  lemma OrderMeans(x: nat, z: nat, k: nat, a: Assignment)
    ensures SatDb(Order(x, z, k), a) <==> Ordered(x, z, k, a)
  {
    Two(N(k), N(x), a);
    Two(N(k), P(z), a);
    Three(P(k), P(x), N(z), a);
    Two(N(k + 1), N(x), a);
    Two(P(k + 1), P(x), a);
    Three(N(k + 2), N(x), P(z), a);
    Two(P(k + 2), P(x), a);
    Two(P(k + 2), N(z), a);
    One(P(k + 3), a);
    hide SatClause;
  }

  lemma EncodedMeans(a: Assignment)
    ensures SatDb(Encoded().hard, a) <==> Ordered(X, Z, 2, a) && Ordered(Z, X, 6, a)
  {
    OrderMeans(X, Z, 2, a);
    OrderMeans(Z, X, 6, a);
    hide Order, Ordered;
  }

  function Cost(x: nat, z: nat, a: Assignment): nat {
    (if x in a then 2 else 0) + if z in a then 0 else 1
  }

  lemma TermsCost(x: nat, z: nat, a: Assignment)
    ensures Value(Terms(x, z), a) == Cost(x, z, a)
  {
    ValueOfTwo(Term(2, P(x)), Term(1, N(z)), a);
  }

  predicate Which(i: nat, x: nat, z: nat, k: nat) {
    (i == 0 && x == X && z == Z && k == 2) || (i == 1 && x == Z && z == X && k == 6)
  }

  lemma Parts(i: nat, x: nat, z: nat, k: nat)
    requires Which(i, x, z, k)
    ensures var p := Encoded(); |p.roots| == |p.objs| == |p.max| == 2 && p.base == 10
    ensures Encoded().roots[i] == Keys(k) && Encoded().objs[i] == Terms(x, z) && Encoded().max[i] == 3
  {
    hide Order, Keys, Terms;
  }

  lemma OrderEncodes(i: nat, x: nat, z: nat, k: nat)
    requires Which(i, x, z, k)
    ensures EncodesObjective(Encoded(), i)
  {
    hide SatDb, Encoded, Value, Ordered, Terms, TermsBelow;
    Parts(i, x, z, k);
    var p := Encoded();
    forall a: Assignment, j: nat | SatDb(p.hard, a) && 1 <= j < |p.roots[i]|
      ensures Holds(p.roots[i][j].lit, a) <==> Value(p.objs[i], a) < p.roots[i][j].key
    {
      EncodedMeans(a);
      TermsCost(x, z, a);
      KeyMeans(x, z, k, a, j);
    }
    ValueHasKey(i, x, z, k);
  }

  lemma ValueHasKey(i: nat, x: nat, z: nat, k: nat)
    requires Which(i, x, z, k)
    ensures |Encoded().roots| == |Encoded().objs| == 2
    ensures var p := Encoded(); forall a: Assignment | SatDb(p.hard, a) ::
          exists j :: 1 <= j < |p.roots[i]| && p.roots[i][j].key == Value(p.objs[i], a) + 1
  {
    hide SatDb, Encoded, Value, Ordered;
    Parts(i, x, z, k);
    var p := Encoded();
    forall a: Assignment | SatDb(p.hard, a)
      ensures exists j :: 1 <= j < |p.roots[i]| && p.roots[i][j].key == Value(p.objs[i], a) + 1
    {
      TermsCost(x, z, a);
      assert p.roots[i][Cost(x, z, a) + 1].key == Value(p.objs[i], a) + 1;
    }
  }

  lemma KeyMeans(x: nat, z: nat, k: nat, a: Assignment, j: nat)
    requires Ordered(x, z, k, a) && 1 <= j < |Keys(k)|
    ensures Holds(Keys(k)[j].lit, a) <==> Cost(x, z, a) < Keys(k)[j].key
  {
    assert j == 1 || j == 2 || j == 3 || j == 4;
  }

  lemma EncodedIsValid()
    ensures Valid(Encoded())
  {
    OrderEncodes(0, X, Z, 2);
    OrderEncodes(1, Z, X, 6);
    EncodedBelow();
    TermsAreBelow(X, Z);
    TermsAreBelow(Z, X);
    hide Terms, EncodesObjective, DbBelow, TermsBelow;
    var p := Encoded();
    forall i | 0 <= i < |p.objs|
      ensures EncodesObjective(p, i) && TermsBelow(p.objs[i], p.base)
    {
      assert i == 0 || i == 1;
    }
  }

  lemma TermsAreBelow(x: nat, z: nat)
    requires x < 10 && z < 10
    ensures TermsBelow(Terms(x, z), 10)
  {
  }

  lemma EncodedBelow()
    ensures DbBelow(Encoded().hard, Encoded().base)
  {
  }

  lemma PointOf(a: Assignment)
    ensures Eval(Encoded(), a) == [Cost(X, Z, a), Cost(Z, X, a)]
  {
    TermsCost(X, Z, a);
    TermsCost(Z, X, a);
    hide Value, Terms;
  }

  /** Neither literal of the two variables is without a double. */
  lemma NothingSingle(l: Lit)
    ensures Occurs(Encoded().objs, l) <==> l in {P(X), N(X), P(Z), N(Z)}
  {
    var objs: Objectives := Encoded().objs;
    assert objs[0][0].l == P(X) && objs[0][1].l == N(Z) && objs[1][0].l == P(Z) && objs[1][1].l == N(X);
    if l in {P(X), N(Z)} {
      assert OccursIn(objs[0], 2, l);
    }
    if l in {P(Z), N(X)} {
      assert OccursIn(objs[1], 2, l);
    }
  }

  /** The model with both variables true, and the one with both false. */
  const BOTH: Assignment := {X, Z, 4, 5, 8, 9}
  const NEITHER: Assignment := {3, 4, 5, 7, 8, 9}

  lemma BothAndNeither()
    ensures SatDb({}, BOTH) && SatDb(Encoded().hard, BOTH) && SatDb(Encoded().hard, NEITHER)
    ensures Cost(X, Z, BOTH) == Cost(Z, X, BOTH) == 2 && Cost(X, Z, NEITHER) == Cost(Z, X, NEITHER) == 1
  {
    EncodedMeans(BOTH);
    EncodedMeans(NEITHER);
    hide Encoded;
  }

  lemma FirstRelaxation(a: Assignment)
    requires SatDb(Encoded().hard, a)
    ensures var r := Relaxed(Relaxation(Doubled(), {}, {}, {})); SatDb(r.hard, a) && Eval(r, a) == [0, 0]
  {
    var r := Relaxed(Relaxation(Doubled(), {}, {}, {}));
    NothingSliced(Terms(X, Z));
    NothingSliced(Terms(Z, X));
    hide SatDb, Sliced, Order;
    assert r.hard == Encoded().hard;
    assert r.objs == [[], []];
  }

  /** `build` freezes nothing here and starts with an empty slice, so that every assignment is a
      candidate of point (0, 0). The candidate with both variables true passes the check, its point is
      (2, 2), and (1, 1) is feasible. */
  lemma DoublesAcceptTheWorse()
    ensures Valid(Doubled().p) && !NoDoubles(Doubled().p.objs) && FreezesSingles(Doubled().p.objs, {})
    ensures var r := Relaxed(Relaxation(Doubled(), {}, {}, {})); SatDb(r.hard, BOTH) && Eval(r, BOTH) == [0, 0]
    ensures SatDb(Doubled().hard, BOTH) && Eval(Doubled().p, BOTH) == [2, 2]
    ensures [1, 1] in FeasiblePoints(Whole(Doubled())) && [2, 2] !in ParetoFront(FeasiblePoints(Whole(Doubled())))
  {
    hide SatDb, Valid, Eval, FeasiblePoints, Relaxed, Order, Cost, Occurs;
    EncodedIsValid();
    PointOf(BOTH);
    PointOf(NEITHER);
    BothAndNeither();
    FirstRelaxation(BOTH);
    forall l: Lit
      ensures !(Occurs(Doubled().p.objs, l) && !Occurs(Doubled().p.objs, l.Not()))
    {
      NothingSingle(l);
      NothingSingle(l.Not());
    }
    NothingSingle(P(X));
    NothingSingle(N(X));
    assert P(X).Not() == N(X);
    ModelIsFeasible(Encoded(), NEITHER);
    assert Whole(Doubled()) == Encoded();
    assert Dominates([1, 1], [2, 2]);
  }
}
