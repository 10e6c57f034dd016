/** Boolean multilevel optimization: minimise the number of falsified clauses weight by weight. */
module Bmo {
  import opened Cnf
  import opened MaxSat

  /** The soft clauses of one weight. */
  function Level(f: Formula, w: nat): set<nat> {
    set i: nat | i < |f.softs| && f.softs[i].weight == w
  }

  function Count(f: Formula, w: nat, a: Assignment): nat {
    |Falsified(f, a) * Level(f, w)|
  }

  /** The soft clauses of the weights from position `i` on. */
  function Tail(f: Formula, ws: seq<nat>, i: nat): set<nat>
    requires i <= |ws|
  {
    set k: nat | k < |f.softs| && f.softs[k].weight in ws[i..]
  }

  /** The weights of the formula, each once, the largest first. */
  ghost predicate Weights(f: Formula, ws: seq<nat>) {
    && (forall i, j | 0 <= i < j < |ws| :: ws[i] > ws[j])
    && (forall i | 0 <= i < |f.softs| :: f.softs[i].weight in ws)
    && forall w | w in ws :: HasWeight(f, w, |f.softs|)
  }

  /** One of the first `n` soft clauses has the weight. */
  predicate HasWeight(f: Formula, w: nat, n: nat)
    requires n <= |f.softs|
  {
    exists k :: 0 <= k < n && f.softs[k].weight == w
  }

  /** Every weight is at least the sum of all smaller weights. */
  ghost predicate Lexicographic(f: Formula, ws: seq<nat>) {
    forall i | 0 <= i < |ws| :: ws[i] >= Cost(f, Tail(f, ws, i + 1))
  }

  predicate PositiveWeights(f: Formula) {
    forall i | 0 <= i < |f.softs| :: f.softs[i].weight > 0
  }

  /** Empty soft clauses of other weights cost nothing. */
  predicate CountsRight(f: Formula, w: nat) {
    forall i | 0 <= i < |f.softs| && f.softs[i].clause == {} && f.softs[i].weight != w :: f.softs[i].weight == 0
  }

  // ---------------------------------------------------------------- costs

  lemma {:induction false} WeightSplit(f: Formula, s: set<nat>, t: set<nat>, n: nat)
    requires n <= |f.softs| && s !! t
    ensures WeightOf(f, s + t, n) == WeightOf(f, s, n) + WeightOf(f, t, n)
  {
    if n > 0 {
      WeightSplit(f, s, t, n - 1);
    }
  }

  lemma CostSplit(f: Formula, s: set<nat>, t: set<nat>)
    requires s !! t
    ensures Cost(f, s + t) == Cost(f, s) + Cost(f, t)
  {
    WeightSplit(f, s, t, |f.softs|);
  }

  lemma CostMonotone(f: Formula, s: set<nat>, t: set<nat>)
    requires s <= t
    ensures Cost(f, s) <= Cost(f, t)
  {
    assert s + (t - s) == t;
    CostSplit(f, s, t - s);
  }

  lemma {:induction false} CostOfLevel(f: Formula, w: nat, s: set<nat>)
    requires s <= Level(f, w)
    ensures Cost(f, s) == w * |s|
    decreases |s|
  {
    if s == {} {
      NothingCosts(f, |f.softs|);
    } else {
      var i :| i in s;
      CostWithout(f, s, i);
      CostOfLevel(f, w, s - {i});
      assert |s| == |s - {i}| + 1;
      assert w * (|s - {i}| + 1) == w * |s - {i}| + w;
    }
  }

  lemma {:induction false} NothingCosts(f: Formula, n: nat)
    requires n <= |f.softs|
    ensures WeightOf(f, {}, n) == 0
  {
    if n > 0 {
      NothingCosts(f, n - 1);
    }
  }

  /** The cost of the falsified clauses from a level on: the level and the rest. */
  lemma TailCost(f: Formula, ws: seq<nat>, i: nat, a: Assignment)
    requires Weights(f, ws) && i < |ws|
    ensures Cost(f, Falsified(f, a) * Tail(f, ws, i)) == ws[i] * Count(f, ws[i], a) +
        Cost(f, Falsified(f, a) * Tail(f, ws, i + 1))
  {
    var u, l, t := Falsified(f, a), Level(f, ws[i]), Tail(f, ws, i + 1);
    TailSplit(f, ws, i);
    assert u * Tail(f, ws, i) == u * l + u * t;
    CostSplit(f, u * l, u * t);
    CostOfLevel(f, ws[i], u * l);
  }

  lemma TailSplit(f: Formula, ws: seq<nat>, i: nat)
    requires Weights(f, ws) && i < |ws|
    ensures Tail(f, ws, i) == Level(f, ws[i]) + Tail(f, ws, i + 1)
    ensures Level(f, ws[i]) !! Tail(f, ws, i + 1)
  {
    assert ws[i..] == [ws[i]] + ws[i + 1..];
    var rest := ws[i + 1..];
    forall j | 0 <= j < |rest|
      ensures rest[j] < ws[i]
    {
      assert rest[j] == ws[i + 1 + j];
    }
  }

  lemma WholeTail(f: Formula, ws: seq<nat>, a: Assignment)
    requires Weights(f, ws)
    ensures Falsified(f, a) * Tail(f, ws, 0) == Falsified(f, a)
    ensures Cost(f, Falsified(f, a) * Tail(f, ws, |ws|)) == 0
  {
    assert ws[0..] == ws;
    assert Falsified(f, a) * Tail(f, ws, |ws|) == {};
    NothingCosts(f, |f.softs|);
  }

  // ---------------------------------------------------------------- lexicographic optimality

  /** Hard models that keep the first levels within their limits. */
  ghost predicate Cell(f: Formula, ws: seq<nat>, limits: seq<nat>, n: nat, a: Assignment)
    requires n <= |limits| <= |ws|
  {
    SatDb(f.hard, a) && forall j | 0 <= j < n :: Count(f, ws[j], a) <= limits[j]
  }

  /** Each limit is the least count within the limits before it. */
  ghost predicate Least(f: Formula, ws: seq<nat>, limits: seq<nat>)
    requires |limits| <= |ws|
  {
    forall j, a {:trigger Cell(f, ws, limits, j, a)} | 0 <= j < |limits| && Cell(f, ws, limits, j, a) ::
        Count(f, ws[j], a) >= limits[j]
  }

  lemma CellShorter(f: Formula, ws: seq<nat>, limits: seq<nat>, m: nat, n: nat, a: Assignment)
    requires m <= n <= |limits| <= |ws| && Cell(f, ws, limits, n, a)
    ensures Cell(f, ws, limits, m, a)
  {
  }

  /** Within least limits all counts are the limits. */
  lemma CountsAreLeast(f: Formula, ws: seq<nat>, limits: seq<nat>, n: nat, a: Assignment)
    requires n <= |limits| <= |ws| && Least(f, ws, limits) && Cell(f, ws, limits, n, a)
    ensures forall j | 0 <= j < n :: Count(f, ws[j], a) == limits[j]
  {
    forall j | 0 <= j < n
      ensures Count(f, ws[j], a) == limits[j]
    {
      CellShorter(f, ws, limits, j, n, a);
    }
  }

  /** From any level on, a lexicographically least model costs no more than any model that
      is as good on the levels before. */
  lemma {:induction false} LeastCostsLeast(f: Formula, ws: seq<nat>, limits: seq<nat>, i: nat, m: Assignment,
      a: Assignment)
    requires Weights(f, ws) && Lexicographic(f, ws) && |limits| == |ws| && i <= |ws| && Least(f, ws, limits)
    requires Cell(f, ws, limits, |ws|, m) && Cell(f, ws, limits, i, a)
    ensures Cost(f, Falsified(f, m) * Tail(f, ws, i)) <= Cost(f, Falsified(f, a) * Tail(f, ws, i))
    decreases |ws| - i
  {
    hide Cost, Tail, Count, Falsified, SatDb, Weights;
    if i == |ws| {
      WholeTail(f, ws, m);
    } else {
      TailCost(f, ws, i, m);
      TailCost(f, ws, i, a);
      CountsAreLeast(f, ws, limits, |ws|, m);
      if Count(f, ws[i], a) <= limits[i] {
        LeastCostsLeast(f, ws, limits, i + 1, m, a);
        assert Count(f, ws[i], a) == limits[i];
      } else {
        var t := Tail(f, ws, i + 1);
        CostMonotone(f, Falsified(f, m) * t, t);
        OneMore(ws[i], limits[i], Count(f, ws[i], a));
      }
    }
  }

  lemma OneMore(w: nat, x: nat, y: nat)
    requires x < y
    ensures w * x + w <= w * y
  {
    assert w * y == w * (y - x - 1) + w * x + w;
    assert w * (y - x - 1) >= 0;
  }

  /** When the formula is lexicographic, the lexicographically least model has the least cost. */
  lemma LexicographicIsOptimal(f: Formula, ws: seq<nat>, limits: seq<nat>, m: Assignment, a: Assignment)
    requires Weights(f, ws) && Lexicographic(f, ws) && |limits| == |ws| && Least(f, ws, limits)
    requires Cell(f, ws, limits, |ws|, m) && SatDb(f.hard, a)
    ensures Cost(f, Falsified(f, m)) <= Cost(f, Falsified(f, a))
  {
    LeastCostsLeast(f, ws, limits, 0, m, a);
    WholeTail(f, ws, m);
    WholeTail(f, ws, a);
  }

  // ---------------------------------------------------------------- computeCostModel

  /** What `computeCostModel` counts for one weight: falsified clauses of that weight, and all empty ones. */
  function Counted(f: Formula, a: Assignment, w: nat): set<nat> {
    set i: nat | i < |f.softs| && !SatClause(f.softs[i].clause, a) &&
        (f.softs[i].weight == w || f.softs[i].clause == {})
  }

  /** `computeCostModel` with a weight. */
  method ComputeCostModel(f: Formula, a: Assignment, w: nat) returns (cost: nat)
    ensures cost == Cost(f, Counted(f, a, w))
  {
    cost := 0;
    for i := 0 to |f.softs|
      invariant cost == WeightOf(f, Counted(f, a, w), i)
    {
      var unsatisfied := true;
      var lits := f.softs[i].clause;
      while lits != {}
        invariant lits <= f.softs[i].clause
        invariant unsatisfied ==> forall l | l in f.softs[i].clause - lits :: f.softs[i].weight == w && !Holds(l, a)
        invariant !unsatisfied ==> f.softs[i].clause != {} && f.softs[i].weight != w
        decreases lits
      {
        var l :| l in lits;
        lits := lits - {l};
        if f.softs[i].weight != w {
          unsatisfied := false;
          continue;
        }
        if Holds(l, a) {
          unsatisfied := false;
          break;
        }
      }
      if unsatisfied {
        cost := cost + f.softs[i].weight;
      }
    }
  }

  /** The empty soft clauses of other weights. */
  function Empties(f: Formula, w: nat): set<nat> {
    set i: nat | i < |f.softs| && f.softs[i].clause == {} && f.softs[i].weight != w
  }

  /** What is counted on a level without belonging to it. */
  function Surplus(f: Formula, w: nat): nat {
    Cost(f, Empties(f, w))
  }

  /** What is counted too much on the first `n` levels together. */
  function Extra(f: Formula, ws: seq<nat>, n: nat): nat
    requires n <= |ws|
  {
    if n == 0 then 0 else Extra(f, ws, n - 1) + Surplus(f, ws[n - 1])
  }

  /** The counted cost is the cost of the level and of the empty clauses of other weights. */
  lemma CountedCost(f: Formula, a: Assignment, w: nat)
    ensures Cost(f, Counted(f, a, w)) == w * Count(f, w, a) + Surplus(f, w)
  {
    var u := Falsified(f, a) * Level(f, w);
    assert Counted(f, a, w) == u + Empties(f, w);
    CostSplit(f, u, Empties(f, w));
    CostOfLevel(f, w, u);
  }

  lemma SurplusIsNone(f: Formula, w: nat)
    ensures Surplus(f, w) == 0 <==> CountsRight(f, w)
  {
    if i :| 0 <= i < |f.softs| && f.softs[i].clause == {} && f.softs[i].weight != w && f.softs[i].weight > 0 {
      assert i in Empties(f, w);
      CostWithout(f, Empties(f, w), i);
    } else {
      FreeCosts(f, Empties(f, w), |f.softs|);
    }
  }

  /** The counted cost is the cost of the level exactly when empty clauses of other weights cost nothing. */
  lemma CountedIsLevel(f: Formula, a: Assignment, w: nat)
    ensures Cost(f, Counted(f, a, w)) == w * Count(f, w, a) <==> CountsRight(f, w)
  {
    CountedCost(f, a, w);
    SurplusIsNone(f, w);
  }

  /** A unit clause of weight 2 that the hard clause falsifies, and an empty clause of weight 1. */
  function WithEmpty(): Formula {
    Formula(1, {{Lit(0, true)}}, [Soft({Lit(0, false)}, 2), Soft({}, 1)])
  }

  /** The empty clause is counted on both levels, so what the levels add up to is more than the cost. */
  lemma EmptyCountsTwice(a: Assignment)
    requires SatDb(WithEmpty().hard, a)
    ensures Weights(WithEmpty(), [2, 1]) && Lexicographic(WithEmpty(), [2, 1])
    ensures Cost(WithEmpty(), Falsified(WithEmpty(), a)) == 3
    ensures Cost(WithEmpty(), Counted(WithEmpty(), a, 2)) + Cost(WithEmpty(), Counted(WithEmpty(), a, 1)) == 4
  {
    var f := WithEmpty();
    assert SatClause({Lit(0, true)}, a);
    assert f.softs[0].weight == 2 && f.softs[1].weight == 1;
    assert HasWeight(f, 2, 2) && HasWeight(f, 1, 2);
    assert [2, 1][1..] == [1];
    assert !SatClause(f.softs[0].clause, a) && !SatClause(f.softs[1].clause, a);
    TwoWeights(Falsified(f, a));
    TwoWeights(Counted(f, a, 2));
    TwoWeights(Counted(f, a, 1));
    TwoWeights(Tail(f, [2, 1], 1));
    TwoWeights(Tail(f, [2, 1], 2));
  }

  lemma TwoWeights(u: set<nat>)
    ensures Cost(WithEmpty(), u) == (if 0 in u then 2 else 0) + if 1 in u then 1 else 0
  {
    var f := WithEmpty();
    assert WeightOf(f, u, 1) == (if 0 in u then 2 else 0) + WeightOf(f, u, 0);
  }

  lemma {:induction false} FreeCosts(f: Formula, s: set<nat>, n: nat)
    requires n <= |f.softs| && forall i | i in s && i < |f.softs| :: f.softs[i].weight == 0
    ensures WeightOf(f, s, n) == 0
  {
    if n > 0 {
      FreeCosts(f, s, n - 1);
    }
  }

  // ---------------------------------------------------------------- isBMO

  method InsertWeight(ws: seq<nat>, w: nat) returns (r: seq<nat>)
    requires forall i, j | 0 <= i < j < |ws| :: ws[i] > ws[j]
    ensures forall i, j | 0 <= i < j < |r| :: r[i] > r[j]
    ensures forall x :: x in r <==> x in ws || x == w
  {
    var k := 0;
    while k < |ws| && ws[k] > w
      invariant 0 <= k <= |ws| && forall i | 0 <= i < k :: ws[i] > w
    {
      k := k + 1;
    }
    if k < |ws| && ws[k] == w {
      return ws;
    }
    r := ws[..k] + [w] + ws[k..];
    forall x
      ensures x in r <==> x in ws || x == w
    {
      if x in ws {
        var i :| 0 <= i < |ws| && ws[i] == x;
        assert r[if i < k then i else i + 1] == x;
      }
      if x == w {
        assert r[k] == x;
      }
    }
  }

  /** `isBMO`. */
  method IsBMO(f: Formula) returns (bmo: bool, orderWeights: seq<nat>)
    ensures Weights(f, orderWeights) && (bmo <==> Lexicographic(f, orderWeights))
  {
    orderWeights := [];
    for i := 0 to |f.softs|
      invariant forall k, j | 0 <= k < j < |orderWeights| :: orderWeights[k] > orderWeights[j]
      invariant forall x :: x in orderWeights <==> HasWeight(f, x, i)
    {
      HasWeightStep(f, i);
      orderWeights := InsertWeight(orderWeights, f.softs[i].weight);
    }
    forall i | 0 <= i < |f.softs|
      ensures f.softs[i].weight in orderWeights
    {
      assert HasWeight(f, f.softs[i].weight, |f.softs|);
    }
    assert Weights(f, orderWeights);
    bmo := true;
    var total := TotalWeight(f, orderWeights);
    for i := 0 to |orderWeights|
      invariant total == Cost(f, Tail(f, orderWeights, i))
      invariant forall k | 0 <= k < i :: orderWeights[k] >= Cost(f, Tail(f, orderWeights, k + 1))
    {
      LevelWeight(f, orderWeights, i);
      total := total - orderWeights[i] * |Level(f, orderWeights[i])|;
      if orderWeights[i] < total {
        return false, orderWeights;
      }
    }
  }

  lemma HasWeightStep(f: Formula, i: nat)
    requires i < |f.softs|
    ensures forall w: nat :: HasWeight(f, w, i + 1) <==> HasWeight(f, w, i) || w == f.softs[i].weight
  {
    forall w: nat
      ensures HasWeight(f, w, i + 1) <==> HasWeight(f, w, i) || w == f.softs[i].weight
    {
      if w == f.softs[i].weight {
        assert f.softs[i].weight == w;
      }
      if k :| 0 <= k < i && f.softs[k].weight == w {
        assert f.softs[k].weight == w;
      }
    }
  }

  lemma LevelWeight(f: Formula, ws: seq<nat>, i: nat)
    requires Weights(f, ws) && i < |ws|
    ensures Cost(f, Tail(f, ws, i)) == ws[i] * |Level(f, ws[i])| + Cost(f, Tail(f, ws, i + 1))
  {
    TailSplit(f, ws, i);
    CostSplit(f, Level(f, ws[i]), Tail(f, ws, i + 1));
    CostOfLevel(f, ws[i], Level(f, ws[i]));
  }

  method TotalWeight(f: Formula, ws: seq<nat>) returns (total: nat)
    requires Weights(f, ws)
    ensures total == Cost(f, Tail(f, ws, 0))
  {
    total := 0;
    NothingCosts(f, |f.softs|);
    assert Tail(f, ws, |ws|) == {};
    for i := 0 to |ws|
      invariant total + Cost(f, Tail(f, ws, i)) == Cost(f, Tail(f, ws, 0))
    {
      LevelWeight(f, ws, i);
      total := total + ws[i] * |Level(f, ws[i])|;
    }
  }

  // ---------------------------------------------------------------- the oracle with cardinalities

  /** At most `k` of the literals hold. */
  datatype AtMost = AtMost(lits: set<Lit>, k: nat)

  function Holding(ls: set<Lit>, a: Assignment): set<Lit> {
    set l | l in ls && Holds(l, a)
  }

  predicate Within(cards: set<AtMost>, a: Assignment) {
    forall c | c in cards :: |Holding(c.lits, a)| <= c.k
  }

  /** A reference oracle for clauses and encoded cardinality constraints, without a budget. */
  class CardSolver {
    var nVars: nat
    var clauses: Db
    var cards: set<AtMost>
    var model: Assignment

    ghost predicate Valid()
      reads this
    {
      DbBelow(clauses, nVars) && forall c | c in cards :: LitsBelow(c.lits, nVars)
    }

    constructor (nVars: nat, clauses: Db)
      requires DbBelow(clauses, nVars)
      ensures Valid() && this.nVars == nVars && this.clauses == clauses && cards == {}
    {
      this.nVars, this.clauses, cards, model := nVars, clauses, {}, {};
    }

    /** `encodeCardinality` and `updateCardinality`. */
    method AddCardinality(lits: set<Lit>, k: nat)
      requires Valid() && LitsBelow(lits, nVars)
      modifies this`cards
      ensures Valid() && cards == old(cards) + {AtMost(lits, k)}
    {
      cards := cards + {AtMost(lits, k)};
    }

    /** `searchSATSolver`. */
    method Search() returns (sat: bool)
      requires Valid()
      modifies this`model
      ensures sat ==> SatDb(clauses, model) && Within(cards, model)
      ensures !sat ==> forall a: Assignment :: !(SatDb(clauses, a) && Within(cards, a))
    {
      var vars := VarsBelow(nVars);
      if a :| a <= vars && SatDb(clauses, a) && Within(cards, a) {
        model := a;
        return true;
      }
      forall a: Assignment
        ensures !(SatDb(clauses, a) && Within(cards, a))
      {
        var b := set v | v in a && v < nVars;
        assert b <= vars;
        forall c | c in cards
          ensures Holding(c.lits, b) == Holding(c.lits, a)
        {
        }
        if SatDb(clauses, a) {
          SatDbAgree(clauses, a, b, nVars);
        }
      }
      sat := false;
    }
  }

  // ---------------------------------------------------------------- what the rebuilt solver admits

  /** `rebuildSolver`: hard clauses and the relaxed soft clauses of at least a weight. */
  function ClausesFrom(f: Formula, w: nat): Db {
    f.hard + set i: nat | i < |f.softs| && f.softs[i].weight >= w :: f.softs[i].clause + {Relax(f, i)}
  }

  /** The relaxation literals of one weight. */
  function RelaxLits(f: Formula, w: nat): set<Lit> {
    set i | i in Level(f, w) :: Relax(f, i)
  }

  /** The hard models within the limits are those that the oracle admits. */
  ghost predicate Admits(f: Formula, ws: seq<nat>, limits: seq<nat>, clauses: Db, cards: set<AtMost>)
    requires |limits| <= |ws|
  {
    && (forall m: Assignment | SatDb(clauses, m) && Within(cards, m) :: Cell(f, ws, limits, |limits|, m))
    && forall a: Assignment | Cell(f, ws, limits, |limits|, a) :: SatDb(clauses, Encoded(f, a)) &&
        Within(cards, Encoded(f, a))
  }

  lemma {:induction false} CardImage(f: Formula, s: set<nat>)
    ensures |set i | i in s :: Relax(f, i)| == |s|
    decreases |s|
  {
    if s != {} {
      var i :| i in s;
      CardImage(f, s - {i});
      assert (set j | j in s :: Relax(f, j)) == (set j | j in s - {i} :: Relax(f, j)) + {Relax(f, i)};
    }
  }

  /** A model of the relaxed clauses relaxes every clause that it falsifies. */
  lemma RelaxesFalsified(f: Formula, w: nat, v: nat, m: Assignment)
    requires w <= v && SatDb(ClausesFrom(f, w), m)
    ensures Count(f, v, m) <= |Holding(RelaxLits(f, v), m)|
  {
    var s := Falsified(f, m) * Level(f, v);
    forall i | i in s
      ensures Relax(f, i) in Holding(RelaxLits(f, v), m)
    {
      var c := f.softs[i].clause + {Relax(f, i)};
      assert c in ClausesFrom(f, w);
      assert SatClause(c, m);
      var l :| l in c && Holds(l, m);
      assert l == Relax(f, i);
    }
    CardImage(f, s);
    SmallerSet(set i | i in s :: Relax(f, i), Holding(RelaxLits(f, v), m));
  }

  /** Encoded, a model relaxes exactly the clauses that it falsifies. */
  lemma EncodedCounts(f: Formula, v: nat, a: Assignment)
    ensures |Holding(RelaxLits(f, v), Encoded(f, a))| == Count(f, v, a)
  {
    var s := Falsified(f, a) * Level(f, v);
    forall i: nat | i < |f.softs|
      ensures f.base + i in Encoded(f, a) <==> i in Falsified(f, a)
    {
      EncodedMember(f, a, i);
    }
    HoldingRelax(f, v, Encoded(f, a), Falsified(f, a));
    CardImage(f, s);
  }

  lemma HoldingRelax(f: Formula, v: nat, b: Assignment, u: set<nat>)
    requires forall i: nat | i < |f.softs| :: f.base + i in b <==> i in u
    ensures Holding(RelaxLits(f, v), b) == set i | i in u * Level(f, v) :: Relax(f, i)
  {
    forall i | i in Level(f, v)
      ensures Holds(Relax(f, i), b) <==> i in u
    {
    }
    hide Level, Holds;
  }

  lemma EncodedSatisfies(f: Formula, w: nat, a: Assignment)
    requires Valid(f) && SatDb(f.hard, a)
    ensures SatDb(ClausesFrom(f, w), Encoded(f, a))
  {
    var b := Encoded(f, a);
    EncodedAgrees(f, a);
    SatDbAgree(f.hard, a, b, f.base);
    forall i: nat | i < |f.softs|
      ensures SatClause(f.softs[i].clause + {Relax(f, i)}, b)
    {
      EncodedMember(f, a, i);
      SoftHolds(f, a, b, i);
    }
  }

  /** Before any cardinality, the oracle admits exactly the hard models. */
  lemma AdmitsHard(f: Formula, ws: seq<nat>, w: nat)
    requires Valid(f)
    ensures Admits(f, ws, [], ClausesFrom(f, w), {})
  {
    forall a: Assignment | SatDb(f.hard, a)
      ensures SatDb(ClausesFrom(f, w), Encoded(f, a))
    {
      EncodedSatisfies(f, w, a);
    }
  }

  /** One more cardinality constraint is one more limit. */
  lemma AdmitsMore(f: Formula, ws: seq<nat>, limits: seq<nat>, w: nat, cards: set<AtMost>, k: nat)
    requires |limits| < |ws| && w <= ws[|limits|] && Admits(f, ws, limits, ClausesFrom(f, w), cards)
    ensures Admits(f, ws, limits + [k], ClausesFrom(f, w), cards + {AtMost(RelaxLits(f, ws[|limits|]), k)})
  {
    hide ClausesFrom, SatDb, Encoded, Count, RelaxLits, Holding;
    var v, n := ws[|limits|], |limits|;
    var more, cards' := limits + [k], cards + {AtMost(RelaxLits(f, ws[|limits|]), k)};
    forall m: Assignment | SatDb(ClausesFrom(f, w), m) && Within(cards', m)
      ensures Cell(f, ws, more, n + 1, m)
    {
      assert Within(cards, m) && AtMost(RelaxLits(f, v), k) in cards';
      RelaxesFalsified(f, w, v, m);
      assert Cell(f, ws, limits, n, m);
    }
    forall a: Assignment | Cell(f, ws, more, n + 1, a)
      ensures SatDb(ClausesFrom(f, w), Encoded(f, a)) && Within(cards', Encoded(f, a))
    {
      assert Cell(f, ws, limits, n, a) by {
        assert forall j | 0 <= j < n :: limits[j] == more[j];
      }
      EncodedCounts(f, v, a);
      assert Count(f, ws[n], a) <= more[n];
    }
  }

  /** A smaller bound on the last level replaces the one before. */
  lemma AdmitsTighter(f: Formula, ws: seq<nat>, limits: seq<nat>, w: nat, cards: set<AtMost>, j: nat, k: nat)
    requires |limits| < |ws| && w <= ws[|limits|] && k <= j && Admits(f, ws, limits + [j], ClausesFrom(f, w), cards)
    ensures Admits(f, ws, limits + [k], ClausesFrom(f, w), cards + {AtMost(RelaxLits(f, ws[|limits|]), k)})
  {
    hide ClausesFrom, SatDb, Encoded, Count, RelaxLits, Holding;
    var v, n := ws[|limits|], |limits|;
    var was, more, cards' := limits + [j], limits + [k], cards + {AtMost(RelaxLits(f, ws[|limits|]), k)};
    forall m: Assignment | SatDb(ClausesFrom(f, w), m) && Within(cards', m)
      ensures Cell(f, ws, more, n + 1, m)
    {
      assert Within(cards, m) && AtMost(RelaxLits(f, v), k) in cards';
      RelaxesFalsified(f, w, v, m);
      assert Cell(f, ws, was, n + 1, m);
      assert forall i | 0 <= i < n :: was[i] == more[i];
    }
    forall a: Assignment | Cell(f, ws, more, n + 1, a)
      ensures SatDb(ClausesFrom(f, w), Encoded(f, a)) && Within(cards', Encoded(f, a))
    {
      assert Count(f, ws[n], a) <= more[n];
      assert Cell(f, ws, was, n + 1, a) by {
        assert forall i | 0 <= i < n :: was[i] == more[i];
      }
      EncodedCounts(f, v, a);
    }
  }

  /** A larger bound on the last level changes nothing. */
  lemma AdmitsLooser(f: Formula, ws: seq<nat>, limits: seq<nat>, w: nat, cards: set<AtMost>, j: nat, k: nat)
    requires |limits| < |ws| && w <= ws[|limits|] && j <= k && Admits(f, ws, limits + [j], ClausesFrom(f, w), cards)
    ensures Admits(f, ws, limits + [j], ClausesFrom(f, w), cards + {AtMost(RelaxLits(f, ws[|limits|]), k)})
  {
    hide ClausesFrom, SatDb, Encoded, Count, RelaxLits, Holding;
    var v, n, was := ws[|limits|], |limits|, limits + [j];
    var cards' := cards + {AtMost(RelaxLits(f, v), k)};
    forall a: Assignment | Cell(f, ws, was, n + 1, a)
      ensures Within(cards', Encoded(f, a))
    {
      EncodedCounts(f, v, a);
      assert Count(f, ws[n], a) <= was[n];
    }
    assert forall m: Assignment | Within(cards', m) :: Within(cards, m);
  }

  // ---------------------------------------------------------------- the search

  /** `Failed` is a failed assertion of the encoder, `Unfinished` a search that was not given enough calls. */
  datatype Answer = Optimum | Unsatisfiable | Failed | Unfinished

  class Search {
    const f: Formula
    var model: Assignment
    var hasModel: bool
    var lbCost: nat
    var ubCost: nat

    constructor (f: Formula)
      ensures this.f == f && !hasModel
    {
      this.f := f;
      model, hasModel, lbCost, ubCost := {}, false, 0, 0;
    }

    /** `rebuildBMO`: a fresh solver for the current weight with the limits of the finished levels. */
    method RebuildBMO(ws: seq<nat>, rhs: seq<nat>) returns (s: CardSolver)
      requires Valid(f) && Weights(f, ws) && |rhs| < |ws|
      ensures fresh(s) && Ready(s, ws, rhs, |rhs|)
    {
      hide SatDb, Count, RelaxLits, Admits, Weights;
      var w := ws[|rhs|];
      ClausesBelow(f, w);
      s := new CardSolver(f.base + |f.softs|, ClausesFrom(f, w));
      AdmitsHard(f, ws, w);
      assert rhs[..0] == [];
      for i := 0 to |rhs|
        invariant fresh(s) && s.Valid() && s.clauses == ClausesFrom(f, w) && s.nVars == f.base + |f.softs|
        invariant Admits(f, ws, rhs[..i], s.clauses, s.cards)
      {
        Decreasing(f, ws, i, |rhs|);
        AdmitsMore(f, ws, rhs[..i], w, s.cards, rhs[i]);
        assert rhs[..i + 1] == rhs[..i] + [rhs[i]];
        RelaxBelow(f, ws[i]);
        s.AddCardinality(RelaxLits(f, ws[i]), rhs[i]);
      }
      assert rhs[..|rhs|] == rhs;
    }

    /** The solver holds the clauses of the level and admits what the limits allow. */
    ghost predicate Ready(s: CardSolver, ws: seq<nat>, limits: seq<nat>, pos: nat)
      requires pos < |ws| && |limits| <= |ws|
      reads s
    {
      && s.Valid() && s.nVars == f.base + |f.softs| && s.clauses == ClausesFrom(f, ws[pos])
      && Admits(f, ws, limits, s.clauses, s.cards)
    }

    /** `encodeCardinality` or `updateCardinality` with one less than the counted cost. The encoder asserts
        that the bound is neither negative nor larger than the number of literals, and that there is an
        encoding to update. */
    method Tighten(s: CardSolver, ws: seq<nat>, rhs: seq<nat>, localCost: nat, newCost: nat, encoded: bool,
        ghost best: Assignment, ghost c: nat, ghost limit: nat, ghost m: Assignment)
      returns (ok: bool, encoded': bool, ghost limit': nat)
      requires Valid(f) && |rhs| < |ws| && ws[|rhs|] > 0 && Ready(s, ws, Limits(rhs, localCost, limit), |rhs|)
      requires localCost > 0 ==> BestSoFar(f, ws, rhs, localCost, encoded, best, c, limit)
      requires Cell(f, ws, rhs, |rhs|, m) && (localCost > 0 ==> Count(f, ws[|rhs|], m) <= limit)
      requires newCost == ws[|rhs|] * Count(f, ws[|rhs|], m) + Surplus(f, ws[|rhs|]) && newCost > 0
      modifies s`cards
      ensures ok ==> Ready(s, ws, rhs + [limit'], |rhs|)
      ensures ok ==> BestSoFar(f, ws, rhs, newCost, encoded', m, Count(f, ws[|rhs|], m), limit')
      ensures !ok ==> Stuck(f, ws[|rhs|], m)
    {
      hide SatDb, RelaxLits, Admits, Cost, Falsified, Cell, Count, Surplus, Level, ClausesFrom;
      var w := ws[|rhs|];
      ghost var k := Count(f, w, m);
      CountAtMost(f, w, m);
      CountedQuotient(w, k, Surplus(f, w));
      ok, encoded', limit' := true, encoded, limit;
      var bound := newCost / w - 1;
      if localCost == 0 {
        if bound < 0 || bound > |Level(f, w)| {
          return false, encoded, limit;
        }
        AdmitsMore(f, ws, rhs, w, s.cards, bound);
        encoded', limit' := 0 < bound < |Level(f, w)|, bound;
      } else {
        if !encoded || bound < 0 || bound > |Level(f, w)| {
          return false, encoded, limit;
        }
        if bound <= limit {
          AdmitsTighter(f, ws, rhs, w, s.cards, limit, bound);
          limit' := bound;
        } else {
          AdmitsLooser(f, ws, rhs, w, s.cards, limit, bound);
        }
      }
      RelaxBelow(f, w);
      s.AddCardinality(RelaxLits(f, w), bound);
    }

    /** `bmoSearch`, with at most `calls` calls of the solver. An optimum is a hard model of minimum total
        weighted cost, and its upper bound is that cost and what was counted too much. With enough calls
        the search answers exactly when no level is stuck. */
    method BmoSearch(ws: seq<nat>, calls: nat) returns (answer: Answer)
      requires Valid(f) && PositiveWeights(f) && Weights(f, ws) && Lexicographic(f, ws) && |ws| > 0
      requires !hasModel && lbCost == 0
      modifies this
      ensures answer == Unsatisfiable ==> !Satisfiable(f)
      ensures answer == Optimum ==> SatDb(f.hard, model) && ubCost == Cost(f, Falsified(f, model)) + Extra(f, ws, |ws|)
      ensures answer == Optimum ==>
          forall a: Assignment | SatDb(f.hard, a) :: Cost(f, Falsified(f, model)) <= Cost(f, Falsified(f, a))
      ensures answer == Optimum || answer == Unsatisfiable ==> NeverStuck(f, ws)
      ensures answer == Failed || (answer == Unfinished && calls >= CallsFor(|ws|, |f.softs|)) ==> !NeverStuck(f, ws)
    {
      hide SatDb, Count, RelaxLits, Admits, Weights, Lexicographic, Settled, Satisfiable, Cost, Falsified, Counted,
           Cell, NoCell, Surplus, Extra, NeverStuck, BestSoFar, Reached, Remaining, Stuck, CallsFor;
      var rhs: seq<nat>, localCost: nat, encoded := [], 0, false;
      ghost var best: Assignment, c: nat, limit: nat, lb: nat := {}, 0, 0, 0;
      ubCost := 0;
      NothingReached(f, ws);
      StartRemaining(f, ws);
      var s := RebuildBMO(ws, rhs);
      var n := 0;
      while n < calls
        invariant n <= calls && |rhs| < |ws| && fresh(s) && Reached(f, ws, rhs, lb, lbCost)
        invariant Ready(s, ws, Limits(rhs, localCost, limit), |rhs|)
        invariant localCost > 0 ==> BestSoFar(f, ws, rhs, localCost, encoded, best, c, limit)
        invariant hasModel <==> localCost > 0 && |rhs| == |ws| - 1
        invariant hasModel ==> model == best && ubCost == localCost + lbCost
        invariant NeverStuck(f, ws) ==> n + Remaining(f, ws, rhs, localCost, c) <= CallsFor(|ws|, |f.softs|)
      {
        n := n + 1;
        var w := ws[|rhs|];
        WeightIsPositive(f, ws, |rhs|);
        var sat := s.Search();
        if sat {
          AdmittedModel(f, ws, rhs, Limits(rhs, localCost, limit), s.clauses, s.cards, s.model);
          var newCost := ComputeCostModel(f, s.model, w);
          CountedCost(f, s.model, w);
          ghost var k := Count(f, w, s.model);
          if |rhs| == |ws| - 1 {
            model, hasModel := s.model, true;
            ubCost := newCost + lbCost;
          }
          if newCost == 0 {
            NothingCounted(w, k, Surplus(f, w));
            if |rhs| == |ws| - 1 {
              ReachedEnd(f, ws, rhs, lb, lbCost, model, 0);
              return Optimum;
            }
            ReachedNext(f, ws, rhs, lb, lbCost, 0, 0, s.model);
            NextRemaining(f, ws, rhs, localCost, c, 0);
            rhs, localCost := rhs + [0], 0;
            s := RebuildBMO(ws, rhs);
          } else {
            LowerRemaining(f, ws, rhs, lb, lbCost, localCost, encoded, best, c, limit, newCost, s.model);
            var ok;
            ghost var limit';
            ok, encoded, limit' := Tighten(s, ws, rhs, localCost, newCost, encoded, best, c, limit, s.model);
            if !ok {
              ReachedStuck(f, ws, rhs, lb, lbCost, s.model);
              return Failed;
            }
            localCost := newCost;
            best, c, limit := s.model, k, limit';
          }
        } else {
          NoneAdmitted(f, ws, Limits(rhs, localCost, limit), s.clauses, s.cards);
          if localCost > 0 {
            BestIsLeast(f, ws, rhs, localCost, encoded, best, c, limit);
          }
          if |rhs| == |ws| - 1 {
            if !hasModel {
              ReachedVoid(f, ws, rhs, lb, lbCost);
              NoModelIsStuck(f, ws);
              return Unsatisfiable;
            }
            ReachedEnd(f, ws, rhs, lb, lbCost, model, c);
            return Optimum;
          }
          if localCost > 0 {
            ReachedNext(f, ws, rhs, lb, lbCost, c, w * c, best);
            CountedQuotient(w, c, Surplus(f, w));
            lb := lb + w * c;
          } else {
            ReachedVoid(f, ws, rhs, lb, lbCost);
          }
          NextRemaining(f, ws, rhs, localCost, c, localCost / w);
          rhs := rhs + [localCost / w];
          lbCost := lbCost + localCost;
          localCost := 0;
          s := RebuildBMO(ws, rhs);
        }
      }
      AtLeastOneRemains(f, ws, rhs, localCost, c);
      answer := Unfinished;
    }

    /** `search` of a weighted formula that passes the test for multilevel optimization. */
    method Run(calls: nat) returns (bmo: bool, answer: Answer, orderWeights: seq<nat>)
      requires Valid(f) && PositiveWeights(f) && |f.softs| > 0 && !hasModel && lbCost == 0
      modifies this
      ensures Weights(f, orderWeights) && (bmo <==> Lexicographic(f, orderWeights))
      ensures bmo && answer == Optimum ==> SatDb(f.hard, model) && forall a: Assignment | SatDb(f.hard, a) ::
                Cost(f, Falsified(f, model)) <= Cost(f, Falsified(f, a))
      ensures bmo && answer == Unsatisfiable ==> !Satisfiable(f)
      ensures bmo && calls >= CallsFor(|orderWeights|, |f.softs|) ==>
          (answer == Optimum || answer == Unsatisfiable <==> NeverStuck(f, orderWeights))
    {
      answer := Unfinished;
      bmo, orderWeights := IsBMO(f);
      if bmo {
        assert f.softs[0].weight in orderWeights;
        answer := BmoSearch(orderWeights, calls);
      }
    }
  }

  // ---------------------------------------------------------------- how far the search can get

  /** The counted cost of this model does not tell how to get below it: the bound made from it is negative,
      or does not exclude the model. */
  predicate Stuck(f: Formula, w: nat, a: Assignment) {
    Surplus(f, w) >= w || (Surplus(f, w) > 0 && Count(f, w, a) == 0)
  }

  /** On no level a model within the least counts of the levels before is stuck. */
  ghost predicate NeverStuck(f: Formula, ws: seq<nat>) {
    forall limits: seq<nat>, a | |limits| < |ws| && Least(f, ws, limits) && Cell(f, ws, limits, |limits|, a) ::
      !Stuck(f, ws[|limits|], a)
  }

  /** The limits of the finished levels, and of the current one when a model was found. */
  function Limits(rhs: seq<nat>, localCost: nat, limit: nat): seq<nat> {
    if localCost == 0 then rhs else rhs + [limit]
  }

  /** The last model of the current level and the bound that is encoded. */
  ghost predicate BestSoFar(f: Formula, ws: seq<nat>, rhs: seq<nat>, localCost: nat, encoded: bool, best: Assignment,
      c: nat, limit: nat)
    requires |rhs| < |ws|
  {
    var w := ws[|rhs|];
    && Cell(f, ws, rhs, |rhs|, best) && Count(f, w, best) == c && localCost == w * c + Surplus(f, w) && c <= |f.softs|
    && if Surplus(f, w) < w then c > 0 && limit == c - 1 && (c > 1 ==> encoded) else c <= limit
  }

  /** The finished levels are settled, and what they counted is what they cost and their surplus. */
  ghost predicate Reached(f: Formula, ws: seq<nat>, rhs: seq<nat>, lb: nat, lbCost: nat)
    requires |rhs| <= |ws|
  {
    && Settled(f, ws, rhs, lb)
    && (Satisfiable(f) ==> lbCost == lb + Extra(f, ws, |rhs|))
    && forall i | 0 <= i < |rhs| && Satisfiable(f) :: Passed(f, ws[i], rhs[i])
  }

  predicate Passed(f: Formula, w: nat, k: nat) {
    Surplus(f, w) == 0 || (Surplus(f, w) < w && k > 0)
  }

  /** Enough calls for so many levels. */
  function CallsFor(levels: nat, softs: nat): nat {
    levels * (softs + 2)
  }

  lemma OneLevelMore(levels: nat, softs: nat)
    ensures CallsFor(levels + 1, softs) == CallsFor(levels, softs) + softs + 2
  {
    var x := softs + 2;
    assert (levels + 1) * x == levels * x + x;
  }

  /** A bound on the calls that are left when no level is stuck. */
  function Remaining(f: Formula, ws: seq<nat>, rhs: seq<nat>, localCost: nat, c: nat): nat
    requires |rhs| < |ws|
  {
    CallsFor(|ws| - |rhs| - 1, |f.softs|) + if localCost == 0 then |f.softs| + 2 else c + 1
  }

  /** The levels before the current one are settled at their least counts, and worth `lb`. */
  ghost predicate Settled(f: Formula, ws: seq<nat>, rhs: seq<nat>, lb: nat)
    requires |rhs| <= |ws|
  {
    && Least(f, ws, rhs)
    && (forall a: Assignment {:trigger Cell(f, ws, rhs, |rhs|, a)} | Cell(f, ws, rhs, |rhs|, a) ::
          Cost(f, Falsified(f, a)) == lb + Cost(f, Falsified(f, a) * Tail(f, ws, |rhs|)))
    && (Satisfiable(f) ==> exists a :: Cell(f, ws, rhs, |rhs|, a))
  }

  lemma NothingSettled(f: Formula, ws: seq<nat>)
    requires Weights(f, ws)
    ensures Settled(f, ws, [], 0)
  {
    hide SatDb, Weights, Cost;
    forall a: Assignment
      ensures Cost(f, Falsified(f, a)) == Cost(f, Falsified(f, a) * Tail(f, ws, 0))
    {
      WholeTail(f, ws, a);
    }
    if Satisfiable(f) {
      var a: Assignment :| SatDb(f.hard, a);
      assert Cell(f, ws, [], 0, a);
    }
  }

  lemma WeightIsPositive(f: Formula, ws: seq<nat>, i: nat)
    requires Weights(f, ws) && PositiveWeights(f) && i < |ws|
    ensures ws[i] > 0
  {
    assert ws[i] in ws && HasWeight(f, ws[i], |f.softs|);
  }

  lemma CountedQuotient(w: nat, k: nat, e: nat)
    requires w > 0
    ensures (w * k + e) / w == k + e / w && (e < w ==> e / w == 0) && (e >= w ==> e / w >= 1)
  {
    var q, r := e / w, e % w;
    assert w * k + e == w * (k + q) + r;
    QuotientOf(w * k + e, w, k + q, r);
    if e < w {
      QuotientOf(e, w, 0, e);
    }
  }

  lemma QuotientOf(x: nat, w: nat, t: nat, r: nat)
    requires w > 0 && x == w * t + r && r < w
    ensures x / w == t
  {
    var q := x / w;
    assert x == w * q + x % w;
    if q < t {
      OneMore(w, q, t);
    } else if t < q {
      OneMore(w, t, q);
    }
  }

  lemma NothingCounted(w: nat, k: nat, e: nat)
    requires w > 0 && w * k + e == 0
    ensures k == 0 && e == 0
  {
    if k > 0 {
      OneMore(w, 0, k);
    }
  }

  lemma CountAtMost(f: Formula, w: nat, a: Assignment)
    ensures Count(f, w, a) <= |Level(f, w)| <= |f.softs|
  {
    SmallerSet(Falsified(f, a) * Level(f, w), Level(f, w));
    SmallerSet(Level(f, w), All(f));
    SizeOfAll(|f.softs|);
  }

  /** What a model of the oracle says about the levels. */
  lemma AdmittedModel(f: Formula, ws: seq<nat>, rhs: seq<nat>, limits: seq<nat>, clauses: Db, cards: set<AtMost>,
      m: Assignment)
    requires |rhs| <= |limits| <= |ws| && rhs <= limits && Admits(f, ws, limits, clauses, cards)
    requires SatDb(clauses, m) && Within(cards, m)
    ensures Cell(f, ws, rhs, |rhs|, m) && SatDb(f.hard, m)
    ensures |limits| > |rhs| ==> Count(f, ws[|rhs|], m) <= limits[|rhs|]
  {
    assert Cell(f, ws, limits, |limits|, m);
    assert forall j | 0 <= j < |rhs| :: rhs[j] == limits[j];
  }

  /** No hard model is within the limits. */
  ghost predicate NoCell(f: Formula, ws: seq<nat>, limits: seq<nat>)
    requires |limits| <= |ws|
  {
    forall a: Assignment {:trigger Cell(f, ws, limits, |limits|, a)} :: !Cell(f, ws, limits, |limits|, a)
  }

  lemma NoneAdmitted(f: Formula, ws: seq<nat>, limits: seq<nat>, clauses: Db, cards: set<AtMost>)
    requires |limits| <= |ws| && Admits(f, ws, limits, clauses, cards)
    requires forall a: Assignment :: !(SatDb(clauses, a) && Within(cards, a))
    ensures NoCell(f, ws, limits)
  {
    hide SatDb, Within, Cell;
    forall a: Assignment
      ensures !Cell(f, ws, limits, |limits|, a)
    {
      assert !(SatDb(clauses, Encoded(f, a)) && Within(cards, Encoded(f, a)));
    }
  }

  lemma NotSatisfiable(f: Formula, ws: seq<nat>, rhs: seq<nat>, lb: nat)
    requires |rhs| <= |ws| && Settled(f, ws, rhs, lb) && NoCell(f, ws, rhs)
    ensures !Satisfiable(f)
  {
  }

  /** Once one less is impossible, the best count is the least. */
  lemma AtLeastBest(f: Formula, ws: seq<nat>, rhs: seq<nat>, c: nat)
    requires |rhs| < |ws| && c > 0 && NoCell(f, ws, rhs + [c - 1])
    ensures NextIsAtLeast(f, ws, rhs, c)
  {
    hide SatDb, Count;
    forall a: Assignment | Cell(f, ws, rhs, |rhs|, a)
      ensures Count(f, ws[|rhs|], a) >= c
    {
      var limits := rhs + [c - 1];
      assert forall j | 0 <= j < |rhs| :: limits[j] == rhs[j];
      assert !Cell(f, ws, limits, |limits|, a);
    }
  }

  lemma CellExtends(f: Formula, ws: seq<nat>, rhs: seq<nat>, k: nat, a: Assignment)
    requires |rhs| < |ws|
    ensures Cell(f, ws, rhs + [k], |rhs + [k]|, a) <==> Cell(f, ws, rhs, |rhs|, a) && Count(f, ws[|rhs|], a) <= k
  {
    hide SatDb, Count;
    var more := rhs + [k];
    assert forall j | 0 <= j < |rhs| :: more[j] == rhs[j];
    assert more[|rhs|] == k;
  }

  /** No model within the limits has a smaller count on the next level. */
  ghost predicate NextIsAtLeast(f: Formula, ws: seq<nat>, rhs: seq<nat>, k: nat)
    requires |rhs| < |ws|
  {
    forall a: Assignment {:trigger Cell(f, ws, rhs, |rhs|, a)} | Cell(f, ws, rhs, |rhs|, a) ::
        Count(f, ws[|rhs|], a) >= k
  }

  lemma LeastExtends(f: Formula, ws: seq<nat>, rhs: seq<nat>, k: nat)
    requires |rhs| < |ws| && Least(f, ws, rhs) && NextIsAtLeast(f, ws, rhs, k)
    ensures Least(f, ws, rhs + [k])
  {
    hide SatDb, Count;
    var more: seq<nat> := rhs + [k];
    assert forall j | 0 <= j < |rhs| :: more[j] == rhs[j];
    forall j, a: Assignment | 0 <= j < |more| && Cell(f, ws, more, j, a)
      ensures Count(f, ws[j], a) >= more[j]
    {
      assert Cell(f, ws, rhs, j, a);
    }
  }

  /** A level whose least count is reached is settled. */
  lemma SettleNext(f: Formula, ws: seq<nat>, rhs: seq<nat>, lb: nat, k: nat, best: Assignment)
    requires Weights(f, ws) && |rhs| < |ws| && Settled(f, ws, rhs, lb) && NextIsAtLeast(f, ws, rhs, k)
    requires Cell(f, ws, rhs, |rhs|, best) && Count(f, ws[|rhs|], best) == k
    ensures lb + ws[|rhs|] * k >= 0 && Settled(f, ws, rhs + [k], lb + ws[|rhs|] * k)
  {
    hide SatDb, Count, Cell, Weights, Cost, Falsified, Tail, Satisfiable, Least;
    LeastExtends(f, ws, rhs, k);
    var more: seq<nat> := rhs + [k];
    var lb': nat := lb + ws[|rhs|] * k;
    CellExtends(f, ws, rhs, k, best);
    assert Cell(f, ws, more, |more|, best);
    forall a: Assignment | Cell(f, ws, more, |more|, a)
      ensures Cost(f, Falsified(f, a)) == lb' + Cost(f, Falsified(f, a) * Tail(f, ws, |more|))
    {
      CellExtends(f, ws, rhs, k, a);
      SettledCost(f, ws, rhs, lb, k, a);
    }
  }

  lemma SettledCost(f: Formula, ws: seq<nat>, rhs: seq<nat>, lb: nat, k: nat, a: Assignment)
    requires Weights(f, ws) && |rhs| < |ws| && Settled(f, ws, rhs, lb) && Cell(f, ws, rhs, |rhs|, a) &&
        Count(f, ws[|rhs|], a) == k
    ensures Cost(f, Falsified(f, a)) == lb + ws[|rhs|] * k + Cost(f, Falsified(f, a) * Tail(f, ws, |rhs| + 1))
  {
    hide SatDb, Count, Cell, Weights, Cost, Falsified, Tail, Satisfiable, Least;
    TailCost(f, ws, |rhs|, a);
  }

  /** A level without any model comes up only when there is no hard model. */
  lemma SettleVoid(f: Formula, ws: seq<nat>, rhs: seq<nat>, lb: nat)
    requires |rhs| < |ws| && Settled(f, ws, rhs, lb) && NoCell(f, ws, rhs)
    ensures Settled(f, ws, rhs + [0], lb)
  {
    hide SatDb, Count, Cell, Cost, Falsified, Tail, Least, Satisfiable;
    LeastExtends(f, ws, rhs, 0);
    NotSatisfiable(f, ws, rhs, lb);
    var more: seq<nat> := rhs + [0];
    forall a: Assignment
      ensures !Cell(f, ws, more, |more|, a)
    {
      CellExtends(f, ws, rhs, 0, a);
    }
  }

  /** At the last level, a model with the least count has the least total cost. */
  lemma LastLevel(f: Formula, ws: seq<nat>, rhs: seq<nat>, lb: nat, m: Assignment, k: nat)
    requires Weights(f, ws) && Lexicographic(f, ws) && |rhs| + 1 == |ws| && Settled(f, ws, rhs, lb)
    requires Cell(f, ws, rhs, |rhs|, m) && Count(f, ws[|rhs|], m) == k && NextIsAtLeast(f, ws, rhs, k)
    ensures SatDb(f.hard, m) && Satisfiable(f) && Cost(f, Falsified(f, m)) == lb + ws[|rhs|] * k
    ensures forall a: Assignment | SatDb(f.hard, a) :: Cost(f, Falsified(f, m)) <= Cost(f, Falsified(f, a))
  {
    assert SatDb(f.hard, m);
    hide SatDb, Count, Weights, Cost, Falsified, Tail, Least, Lexicographic, Cell;
    LeastExtends(f, ws, rhs, k);
    SettledCost(f, ws, rhs, lb, k, m);
    WholeTail(f, ws, m);
    CellExtends(f, ws, rhs, k, m);
    var limits: seq<nat> := rhs + [k];
    assert Cell(f, ws, limits, |ws|, m);
    forall a: Assignment | SatDb(f.hard, a)
      ensures Cost(f, Falsified(f, m)) <= Cost(f, Falsified(f, a))
    {
      LexicographicIsOptimal(f, ws, limits, m, a);
    }
  }

  ghost predicate Satisfiable(f: Formula) {
    exists a: Assignment :: SatDb(f.hard, a)
  }

  lemma ClausesBelow(f: Formula, w: nat)
    requires Valid(f)
    ensures DbBelow(ClausesFrom(f, w), f.base + |f.softs|)
  {
    forall i: nat | i < |f.softs|
      ensures LitsBelow(f.softs[i].clause + {Relax(f, i)}, f.base + |f.softs|)
    {
    }
    forall c | c in f.hard
      ensures LitsBelow(c, f.base + |f.softs|)
    {
      assert LitsBelow(c, f.base);
    }
  }

  lemma RelaxBelow(f: Formula, w: nat)
    ensures LitsBelow(RelaxLits(f, w), f.base + |f.softs|)
  {
  }

  lemma Decreasing(f: Formula, ws: seq<nat>, i: nat, j: nat)
    requires Weights(f, ws) && i <= j < |ws|
    ensures ws[j] <= ws[i]
  {
  }

  // ---------------------------------------------------------------- the levels, one after the other

  lemma NothingReached(f: Formula, ws: seq<nat>)
    requires Weights(f, ws)
    ensures Reached(f, ws, [], 0, 0)
  {
    NothingSettled(f, ws);
  }

  /** A level whose least count is reached is passed. */
  lemma ReachedNext(f: Formula, ws: seq<nat>, rhs: seq<nat>, lb: nat, lbCost: nat, k: nat, x: nat,
      best: Assignment)
    requires Weights(f, ws) && |rhs| < |ws| && Reached(f, ws, rhs, lb, lbCost) && NextIsAtLeast(f, ws, rhs, k)
    requires Cell(f, ws, rhs, |rhs|, best) && Count(f, ws[|rhs|], best) == k && Passed(f, ws[|rhs|], k)
    requires x == ws[|rhs|] * k
    ensures Reached(f, ws, rhs + [k], lb + x, lbCost + x + Surplus(f, ws[|rhs|]))
  {
    hide Settled, Satisfiable, Surplus, Weights, Cell, Count, NextIsAtLeast, Extra, Passed;
    SettleNext(f, ws, rhs, lb, k, best);
    ExtraNext(f, ws, |rhs|);
    ReachedMore(f, ws, rhs, lb, lbCost, k, x);
  }

  lemma ReachedMore(f: Formula, ws: seq<nat>, rhs: seq<nat>, lb: nat, lbCost: nat, k: nat, x: nat)
    requires |rhs| < |ws| && Reached(f, ws, rhs, lb, lbCost) && Passed(f, ws[|rhs|], k) &&
        Settled(f, ws, rhs + [k], lb + x)
    requires Extra(f, ws, |rhs| + 1) == Extra(f, ws, |rhs|) + Surplus(f, ws[|rhs|])
    ensures Reached(f, ws, rhs + [k], lb + x, lbCost + x + Surplus(f, ws[|rhs|]))
  {
    hide Settled, Satisfiable, Surplus, Extra, Passed;
    var more := rhs + [k];
    forall i | 0 <= i < |more| && Satisfiable(f)
      ensures Passed(f, ws[i], more[i])
    {
      if i < |rhs| {
        assert more[i] == rhs[i];
      }
    }
  }

  lemma ExtraNext(f: Formula, ws: seq<nat>, n: nat)
    requires n < |ws|
    ensures Extra(f, ws, n + 1) == Extra(f, ws, n) + Surplus(f, ws[n])
  {
  }

  /** Without a model within the limits there is no hard model. */
  lemma ReachedVoid(f: Formula, ws: seq<nat>, rhs: seq<nat>, lb: nat, lbCost: nat)
    requires |rhs| < |ws| && Reached(f, ws, rhs, lb, lbCost) && NoCell(f, ws, rhs)
    ensures !Satisfiable(f) && Reached(f, ws, rhs + [0], lb, lbCost)
  {
    hide Settled, Surplus;
    NotSatisfiable(f, ws, rhs, lb);
    SettleVoid(f, ws, rhs, lb);
    hide Satisfiable, NoCell;
  }

  /** On the last level the surplus is nothing, or the level is stuck. */
  lemma LastSurplus(f: Formula, ws: seq<nat>)
    requires Weights(f, ws) && |ws| > 0 && Surplus(f, ws[|ws| - 1]) < ws[|ws| - 1]
    ensures Surplus(f, ws[|ws| - 1]) == 0
  {
    var w := ws[|ws| - 1];
    if i :| i in Empties(f, w) {
      var j :| 0 <= j < |ws| && ws[j] == f.softs[i].weight;
      CostWithout(f, Empties(f, w), i);
    } else {
      NothingCosts(f, |f.softs|);
      assert Empties(f, w) == {};
    }
  }

  /** At the last level, a model with the least count is optimal, and the search was never stuck. */
  lemma ReachedEnd(f: Formula, ws: seq<nat>, rhs: seq<nat>, lb: nat, lbCost: nat, m: Assignment, k: nat)
    requires Weights(f, ws) && Lexicographic(f, ws) && |rhs| + 1 == |ws| && Reached(f, ws, rhs, lb, lbCost)
    requires Cell(f, ws, rhs, |rhs|, m) && Count(f, ws[|rhs|], m) == k && NextIsAtLeast(f, ws, rhs, k)
    requires PositiveWeights(f) && Surplus(f, ws[|rhs|]) < ws[|rhs|]
    ensures SatDb(f.hard, m) && Satisfiable(f) && NeverStuck(f, ws)
    ensures Cost(f, Falsified(f, m)) + Extra(f, ws, |ws|) == ws[|rhs|] * k + Surplus(f, ws[|rhs|]) + lbCost
    ensures forall a: Assignment | SatDb(f.hard, a) :: Cost(f, Falsified(f, m)) <= Cost(f, Falsified(f, a))
  {
    hide Weights, Lexicographic, Settled, Satisfiable, Surplus, Cell, Count, NextIsAtLeast, Cost, Falsified,
         NeverStuck, SatDb, Least, PositiveWeights, Passed;
    LastSurplus(f, ws);
    LastLevel(f, ws, rhs, lb, m, k);
    SettledIsLeast(f, ws, rhs, lb);
    forall i | 0 <= i < |ws|
      ensures ws[i] > 0
    {
      WeightIsPositive(f, ws, i);
    }
    ExtraNext(f, ws, |rhs|);
    hide Extra;
    PassedIsNotStuck(f, ws, rhs, m);
  }

  lemma SettledIsLeast(f: Formula, ws: seq<nat>, rhs: seq<nat>, lb: nat)
    requires |rhs| <= |ws| && Settled(f, ws, rhs, lb)
    ensures Least(f, ws, rhs)
  {
  }

  /** When every finished level was passed and the last one has no surplus, nothing is stuck anywhere. */
  lemma PassedIsNotStuck(f: Formula, ws: seq<nat>, rhs: seq<nat>, m: Assignment)
    requires |rhs| + 1 == |ws| && Least(f, ws, rhs) && Cell(f, ws, rhs, |rhs|, m) && Surplus(f, ws[|rhs|]) == 0
    requires (forall w | w in ws :: w > 0) && forall i | 0 <= i < |rhs| :: Passed(f, ws[i], rhs[i])
    ensures NeverStuck(f, ws)
  {
    hide Surplus, Count, SatDb, Least, Cell;
    forall limits: seq<nat>, a | |limits| < |ws| && Least(f, ws, limits) && Cell(f, ws, limits, |limits|, a)
      ensures !Stuck(f, ws[|limits|], a)
    {
      var i := |limits|;
      assert ws[i] in ws;
      if i < |rhs| {
        assert Cell(f, ws, rhs, i, m) by { CellShorter(f, ws, rhs, i, |rhs|, m); }
        LeastIsUnique(f, ws, limits, rhs, i, a, m);
        SameCell(f, ws, limits, rhs, i, a);
        LeastAt(f, ws, rhs, i, a);
        assert Passed(f, ws[i], rhs[i]);
      }
    }
  }

  lemma SameCell(f: Formula, ws: seq<nat>, limits: seq<nat>, others: seq<nat>, n: nat, a: Assignment)
    requires n <= |limits| <= |ws| && n <= |others| <= |ws| && limits[..n] == others[..n] && Cell(f, ws, limits, n, a)
    ensures Cell(f, ws, others, n, a)
  {
    hide SatDb, Count;
    assert forall j | 0 <= j < n :: limits[j] == limits[..n][j] && others[j] == others[..n][j];
  }

  lemma LeastAt(f: Formula, ws: seq<nat>, limits: seq<nat>, j: nat, a: Assignment)
    requires j < |limits| <= |ws| && Least(f, ws, limits) && Cell(f, ws, limits, j, a)
    ensures Count(f, ws[j], a) >= limits[j]
  {
  }

  lemma CellAt(f: Formula, ws: seq<nat>, limits: seq<nat>, n: nat, j: nat, a: Assignment)
    requires j < n <= |limits| <= |ws| && Cell(f, ws, limits, n, a)
    ensures Count(f, ws[j], a) <= limits[j]
  {
  }

  /** Least limits that models keep are the same. */
  lemma {:induction false} LeastIsUnique(f: Formula, ws: seq<nat>, limits: seq<nat>, others: seq<nat>, n: nat,
      a: Assignment, b: Assignment)
    requires n <= |limits| <= |ws| && n <= |others| <= |ws| && Least(f, ws, limits) && Least(f, ws, others)
    requires Cell(f, ws, limits, n, a) && Cell(f, ws, others, n, b)
    ensures limits[..n] == others[..n]
    decreases n
  {
    hide Least, Cell, Count;
    if n > 0 {
      CellShorter(f, ws, limits, n - 1, n, a);
      CellShorter(f, ws, others, n - 1, n, b);
      CellAt(f, ws, limits, n, n - 1, a);
      CellAt(f, ws, others, n, n - 1, b);
      LeastIsUnique(f, ws, limits, others, n - 1, a, b);
      SameCell(f, ws, limits, others, n - 1, a);
      SameCell(f, ws, others, limits, n - 1, b);
      LeastAt(f, ws, others, n - 1, a);
      LeastAt(f, ws, limits, n - 1, b);
      assert limits[..n] == limits[..n - 1] + [limits[n - 1]] && others[..n] == others[..n - 1] + [others[n - 1]];
    }
  }

  lemma ReachedStuck(f: Formula, ws: seq<nat>, rhs: seq<nat>, lb: nat, lbCost: nat, m: Assignment)
    requires |rhs| < |ws| && Reached(f, ws, rhs, lb, lbCost) && Cell(f, ws, rhs, |rhs|, m) && Stuck(f, ws[|rhs|], m)
    ensures !NeverStuck(f, ws)
  {
    hide Stuck, Cell;
    SettledIsLeast(f, ws, rhs, lb);
  }

  lemma NoModelIsStuck(f: Formula, ws: seq<nat>)
    requires !Satisfiable(f)
    ensures NeverStuck(f, ws)
  {
    forall limits: seq<nat>, a | |limits| < |ws|
      ensures !Cell(f, ws, limits, |limits|, a)
    {
    }
  }

  /** When one less than the bound is refuted, the best count is the least, and the bound was right. */
  lemma BestIsLeast(f: Formula, ws: seq<nat>, rhs: seq<nat>, localCost: nat, encoded: bool, best: Assignment, c: nat,
      limit: nat)
    requires |rhs| < |ws| && BestSoFar(f, ws, rhs, localCost, encoded, best, c, limit) && NoCell(f, ws, rhs + [limit])
    ensures Surplus(f, ws[|rhs|]) < ws[|rhs|] && c > 0 && NextIsAtLeast(f, ws, rhs, c)
    ensures Cell(f, ws, rhs, |rhs|, best) && Count(f, ws[|rhs|], best) == c
    ensures localCost == ws[|rhs|] * c + Surplus(f, ws[|rhs|])
  {
    hide Surplus, Count, Cell;
    if Surplus(f, ws[|rhs|]) >= ws[|rhs|] {
      CellExtends(f, ws, rhs, limit, best);
      assert false;
    }
    AtLeastBest(f, ws, rhs, c);
  }

  // ---------------------------------------------------------------- how many calls are left

  lemma StartRemaining(f: Formula, ws: seq<nat>)
    requires |ws| > 0
    ensures Remaining(f, ws, [], 0, 0) == CallsFor(|ws|, |f.softs|)
  {
    OneLevelMore(|ws| - 1, |f.softs|);
  }

  lemma AtLeastOneRemains(f: Formula, ws: seq<nat>, rhs: seq<nat>, localCost: nat, c: nat)
    requires |rhs| < |ws|
    ensures Remaining(f, ws, rhs, localCost, c) >= 1
  {
    hide CallsFor;
  }

  lemma NextRemaining(f: Formula, ws: seq<nat>, rhs: seq<nat>, localCost: nat, c: nat, k: nat)
    requires |rhs| + 1 < |ws|
    ensures forall d: nat :: Remaining(f, ws, rhs + [k], 0, d) + 1 <= Remaining(f, ws, rhs, localCost, c)
  {
    OneLevelMore(|ws| - |rhs| - 2, |f.softs|);
    hide CallsFor;
  }

  /** When no level is stuck, every model of a level has a smaller count than the one before. */
  lemma LowerRemaining(f: Formula, ws: seq<nat>, rhs: seq<nat>, lb: nat, lbCost: nat, localCost: nat, encoded: bool,
      best: Assignment, c: nat, limit: nat, newCost: nat, m: Assignment)
    requires |rhs| < |ws| && Reached(f, ws, rhs, lb, lbCost) && Cell(f, ws, rhs, |rhs|, m) && newCost > 0
    requires localCost > 0 ==>
        BestSoFar(f, ws, rhs, localCost, encoded, best, c, limit) && Count(f, ws[|rhs|], m) <= limit
    ensures NeverStuck(f, ws) ==>
        Remaining(f, ws, rhs, newCost, Count(f, ws[|rhs|], m)) + 1 <= Remaining(f, ws, rhs, localCost, c)
  {
    CountAtMost(f, ws[|rhs|], m);
    hide CallsFor, Reached, Cell, Count, Surplus, NeverStuck;
    if NeverStuck(f, ws) && Stuck(f, ws[|rhs|], m) {
      ReachedStuck(f, ws, rhs, lb, lbCost, m);
    }
  }

  // ---------------------------------------------------------------- when nothing is miscounted

  /** Nothing is counted too much exactly when every level is counted right, and then no level is stuck. */
  lemma ExactIffCountedRight(f: Formula, ws: seq<nat>)
    requires PositiveWeights(f) && Weights(f, ws)
    ensures Extra(f, ws, |ws|) == 0 <==> forall w | w in ws :: CountsRight(f, w)
    ensures Extra(f, ws, |ws|) == 0 ==> NeverStuck(f, ws)
  {
    hide Surplus, CountsRight, Count, Least, Cell;
    ExtraIsNone(f, ws, |ws|);
    forall i | 0 <= i < |ws|
      ensures ws[i] > 0 && (Surplus(f, ws[i]) == 0 <==> CountsRight(f, ws[i]))
    {
      SurplusIsNone(f, ws[i]);
      WeightIsPositive(f, ws, i);
    }
  }

  lemma {:induction false} ExtraIsNone(f: Formula, ws: seq<nat>, n: nat)
    requires n <= |ws|
    ensures Extra(f, ws, n) == 0 <==> forall i | 0 <= i < n :: Surplus(f, ws[i]) == 0
  {
    hide Surplus;
    if n > 0 {
      ExtraIsNone(f, ws, n - 1);
    }
  }

  /** The instance with the empty clause: the search is never stuck on it and answers, and its upper bound
      is then 4 although every model costs 3. */
  lemma EmptyRaisesBound(a: Assignment)
    requires SatDb(WithEmpty().hard, a)
    ensures NeverStuck(WithEmpty(), [2, 1]) && Satisfiable(WithEmpty())
    ensures Cost(WithEmpty(), Falsified(WithEmpty(), a)) + Extra(WithEmpty(), [2, 1], 2) == 4
  {
    hide SatDb, Cost, Falsified, Least;
    var f, ws := WithEmpty(), [2, 1];
    assert Satisfiable(f);
    EmptyCountsTwice(a);
    EmptySurplus();
    ExtraNext(f, ws, 0);
    ExtraNext(f, ws, 1);
    hide Surplus, Extra, Count;
    forall limits: seq<nat>, b | |limits| < |ws| && Cell(f, ws, limits, |limits|, b)
      ensures !Stuck(f, ws[|limits|], b)
    {
      HeavyIsFalsified(b);
      assert |limits| == 0 || |limits| == 1;
    }
  }

  lemma EmptySurplus()
    ensures Surplus(WithEmpty(), 2) == 1 && Surplus(WithEmpty(), 1) == 0
  {
    TwoWeights(Empties(WithEmpty(), 2));
    TwoWeights(Empties(WithEmpty(), 1));
  }

  lemma HeavyIsFalsified(a: Assignment)
    requires SatDb(WithEmpty().hard, a)
    ensures Count(WithEmpty(), 2, a) > 0
  {
    assert SatClause({Lit(0, true)}, a);
    assert 0 in Falsified(WithEmpty(), a) * Level(WithEmpty(), 2);
  }
}
