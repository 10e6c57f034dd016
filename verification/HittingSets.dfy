/** The hitting-set loop: optimize over the cores found so far, check the candidates against the
    formula, learn a core from each candidate that fails. */
module HittingSets {
  import opened Cnf
  import opened Pareto
  import opened Encoding
  import opened ParallelMO
  import opened Archive
  import opened Fences
  import opened Freezing
  import opened Slices
  import opened Relaxations
  import opened SliceBlocks
  import UnsatSat

  // ---------------------------------------------------------------- soft blocks

  /** A block: the point, and the clause under its guard. */
  datatype Block = Block(point: Point, clause: Clause)

  /** What the optimizer's solver holds, and what the optimizer remembers about it: the blocks by guard
      variable, the guards of the points in play, the guards that are true for good, and the points
      accepted so far and found in this round. */
  datatype Store = Store(db: Db, nVars: nat, guard: map<nat, Block>, softBlocks: map<Point, nat>, hardened: set<nat>,
                         accepted: set<Point>, found: set<Point>)

  function SoftBlocks(guard: map<nat, Block>): Db {
    set v | v in guard :: guard[v].clause
  }

  /** The solver holds the encoding, the cores, the blocks, and the guards of accepted points. */
  ghost predicate Stored(R: Relaxation, st: Store) {
    && st.db == R.I.p.hard + R.cores + SoftBlocks(st.guard) + Units(st.hardened)
    && R.I.p.base <= st.nVars && st.hardened <= st.guard.Keys
    && (forall v | v in st.guard :: R.I.p.base <= v < st.nVars && |st.guard[v].point| == |R.I.p.objs|)
    && (forall v | v in st.guard :: FromSlice(R.I.p, v, st.guard[v].point, st.guard[v].clause))
    && forall v | v in st.hardened :: st.guard[v].point in st.accepted
  }

  /** The remembered guards and the accepted points have their blocks. */
  ghost predicate SoftVars(st: Store) {
    && (forall y | y in st.softBlocks :: st.softBlocks[y] in st.guard && st.guard[st.softBlocks[y]].point == y)
    && (forall y | y in st.accepted :: Hardened(st, y))
    && forall y | y in st.found :: y in st.softBlocks
  }

  ghost predicate Hardened(st: Store, y: Point) {
    exists v :: v in st.hardened && v in st.guard && st.guard[v].point == y
  }

  /** Every block is the clause of the complete objectives. */
  predicate AllTight(I: Instance, guard: map<nat, Block>) {
    forall v | v in guard :: Tight(I.p, v, guard[v].point, guard[v].clause)
  }

  /** With equal weights all blocks are tight, whatever slices they were made from. */
  lemma UniformIsTightStore(R: Relaxation, st: Store)
    requires ValidInstance(R.I) && AllUniform(R.I.p.objs) && Stored(R, st)
    ensures AllTight(R.I, st.guard)
  {
    hide ValidInstance, Tight, FromSlice;
    forall v | v in st.guard
      ensures Tight(R.I.p, v, st.guard[v].point, st.guard[v].clause)
    {
      UniformIsNeverLoose(R.I, v, st.guard[v].point, st.guard[v].clause);
    }
  }

  lemma SatParts(a: Db, b: Db, c: Db, d: Db, e: Assignment)
    ensures SatDb(a + b + c + d, e) <==> SatDb(a, e) && SatDb(b, e) && SatDb(c, e) && SatDb(d, e)
  {
  }

  /** With tight blocks, an open model of the relaxation extends to the solver's database, with the
      guards of all blocks true that do not dominate it. */
  lemma SoftExtension(R: Relaxation, st: Store, a: Assignment) returns (e: Assignment)
    requires Valid(R.I.p) && DbBelow(R.I.p.hard + R.cores, R.I.p.base) && Stored(R, st) && AllTight(R.I, st.guard)
    requires SatDb(R.I.p.hard, a) && SatDb(R.cores, a) && !Covered(st.accepted, Eval(R.I.p, a))
    ensures SatDb(st.db, e) && Agree(a, e, R.I.p.base)
    ensures forall v | v in st.guard && !Dominates(st.guard[v].point, Eval(R.I.p, a)) :: v in e
  {
    hide Valid, Eval, DbBelow, SatDb, SoftBlocks, Units, Dominates, Tight, FromSlice;
    var I, y := R.I, Eval(R.I.p, a);
    e := (set v | v in a && v < I.p.base) + set v | v in st.guard && !Dominates(st.guard[v].point, y);
    assert Agree(a, e, I.p.base);
    BelowParts(I.p.hard, R.cores, I.p.base);
    SatDbAgree(I.p.hard, a, e, I.p.base);
    SatDbAgree(R.cores, a, e, I.p.base);
    EvalAgree(I.p, a, e);
    SoftBlocksHold(R, st, e);
    UnitsHold(st, y, e);
    SatParts(I.p.hard, R.cores, SoftBlocks(st.guard), Units(st.hardened), e);
  }

  lemma SoftBlocksHold(R: Relaxation, st: Store, e: Assignment)
    requires Valid(R.I.p) && Stored(R, st) && AllTight(R.I, st.guard) && SatDb(R.I.p.hard, e)
    requires forall v | v in st.guard && v in e :: !Dominates(st.guard[v].point, Eval(R.I.p, e))
    ensures SatDb(SoftBlocks(st.guard), e)
  {
    hide Valid, Eval, Dominates, Tight, FromSlice, SatClause;
    forall v | v in st.guard
      ensures SatClause(st.guard[v].clause, e)
    {
      TightHolds(R.I, v, st.guard[v].point, st.guard[v].clause, e);
    }
  }

  lemma UnitsHold(st: Store, y: Point, e: Assignment)
    requires st.hardened <= st.guard.Keys && (forall v | v in st.hardened :: st.guard[v].point in st.accepted)
    requires !Covered(st.accepted, y) && forall v | v in st.guard && !Dominates(st.guard[v].point, y) :: v in e
    ensures SatDb(Units(st.hardened), e)
  {
    forall v | v in st.hardened
      ensures SatClause({Lit(v, false)}, e)
    {
      assert Lit(v, false) in {Lit(v, false)} && Holds(Lit(v, false), e);
    }
  }

  /** What a model of the solver's database says about blocked points, whatever slices the blocks are from. */
  lemma SoftModel(R: Relaxation, st: Store, m: Assignment)
    requires ValidInstance(R.I) && Stored(R, st) && SatDb(st.db, m)
    ensures SatDb(R.I.p.hard, m) && SatDb(R.cores, m)
    ensures forall v | v in st.guard && (v in m || v in st.hardened) :: !Dominates(st.guard[v].point, Eval(R.I.p, m))
  {
    hide ValidInstance, FromSlice, Eval, Dominates;
    SatParts(R.I.p.hard, R.cores, SoftBlocks(st.guard), Units(st.hardened), m);
    forall v | v in st.guard && (v in m || v in st.hardened)
      ensures !Dominates(st.guard[v].point, Eval(R.I.p, m))
    {
      if v in st.hardened {
        assert {Lit(v, false)} in Units(st.hardened);
        assert SatClause({Lit(v, false)}, m);
      }
      assert st.guard[v].clause in SoftBlocks(st.guard);
      GuardBites(R.I, v, st.guard[v].point, st.guard[v].clause, m);
    }
  }

  /** With tight blocks, every open model of the relaxation satisfies the fence part of a conflict. */
  lemma FencePartIsSound(R: Relaxation, st: Store, softs: set<nat>, below: set<Lit>, conflict: Clause)
    requires ValidRelaxation(R) && Stored(R, st) && AllTight(R.I, st.guard) && LitsBelow(below, R.I.p.base)
    requires forall v | v in softs :: v in st.guard && st.guard[v].point in st.found
    requires Entails(st.db, conflict) && Negates(conflict, HarvestAssumptions(R.frozen, softs, below))
    ensures Sound(Relaxed(R), st.accepted + st.found, {FencePart(conflict, below)})
  {
    RelaxedIsValid(R);
    hide Valid, OwnRoots, Frozen, Stored, Relaxed, DbBelow, Eval, SatDb, Covered, Entails, Negates, AllTight,
         RootsAreNew;
    var r := Relaxed(R);
    forall a: Assignment | OpenModel(r, st.accepted + st.found, a)
      ensures SatDb({FencePart(conflict, below)}, a)
    {
      RelaxedModel(R, a);
      OpenModelHolds(R, st, softs, below, conflict, a);
    }
  }

  lemma OpenModelHolds(R: Relaxation, st: Store, softs: set<nat>, below: set<Lit>, conflict: Clause, a: Assignment)
    requires Valid(R.I.p) && DbBelow(R.I.p.hard + R.cores, R.I.p.base) && R.I.n <= R.I.p.base &&
        LitsBelow(R.frozen, R.I.n)
    requires Stored(R, st) && AllTight(R.I, st.guard) && LitsBelow(below, R.I.p.base)
    requires forall v | v in softs :: v in st.guard && st.guard[v].point in st.found
    requires Entails(st.db, conflict) && Negates(conflict, HarvestAssumptions(R.frozen, softs, below))
    requires SatDb(R.I.p.hard, a) && SatDb(R.cores, a) && !Covered(st.accepted + st.found, Eval(R.I.p, a))
    requires forall l | l in R.frozen :: !Holds(l, a)
    ensures SatDb({FencePart(conflict, below)}, a)
  {
    hide Valid, Stored, Eval, SatDb, DbBelow, Dominates, FeasiblePoints, AllTight;
    var y := Eval(R.I.p, a);
    UncoveredParts(st.accepted, st.found, y);
    var e := SoftExtension(R, st, a);
    assert SatClause(conflict, e);
    var l :| l in conflict && Holds(l, e);
    assert l.Not() in HarvestAssumptions(R.frozen, softs, below);
    assert l.Not().Not() == l;
    assert forall k | k in R.frozen :: k.v < R.I.n && k.Not().Not() == k;
    assert forall k | k in R.frozen :: !Holds(k, e);
    assert forall v | v in softs :: v in e;
    assert l.Not() in below;
    SingleClause(FencePart(conflict, below), l, a);
  }

  // ---------------------------------------------------------------- what the optimizer keeps

  /** The search of one round, apart from the solver. */
  ghost predicate SearchedIn(R: Relaxation, st: Store, es: seq<Entry>)
  {
    Searched(Relaxed(R), st.accepted, st.found, es)
  }

  /** The assumed blocks belong to found points, and every candidate's block is assumed. */
  ghost predicate Softs(st: Store, es: seq<Entry>, softs: set<nat>, base: nat) {
    && (forall v | v in softs :: v in st.guard && st.guard[v].point in st.found && v >= base)
    && forall e | e in es :: e.point in st.softBlocks && st.softBlocks[e.point] in softs
  }

  /** A model under the harvest's assumptions is a new point of the relaxation. */
  lemma NewCandidate(R: Relaxation, st: Store, es: seq<Entry>, softs: set<nat>, below: set<Lit>, m: Assignment)
    requires ValidRelaxation(R) && Stored(R, st) && SoftVars(st) && SearchedIn(R, st, es) &&
        Softs(st, es, softs, R.I.p.base)
    requires SatDb(st.db, m) && AllHold(HarvestAssumptions(R.frozen, softs, below), m)
    ensures var r := Relaxed(R); var y := Eval(r, m);
      && SatDb(r.hard, m) && y in FeasiblePoints(r) && |y| == |R.I.p.objs|
      && !Covered(st.accepted, y) && !Covered(st.found, y) && !Covered(Points(es), y) && y !in st.found
  {
    RelaxedIsValid(R);
    SoftModel(R, st, m);
    AssumedHold(R.frozen, softs, below, m);
    hide Valid, OwnRoots, Frozen, Stored, DbBelow, Eval, SatDb, FeasiblePoints, StandsFor, HarvestAssumptions,
         Antichain, Candidates, RootsAreNew;
    RelaxedModel(R, m);
    var r := Relaxed(R);
    var y := Eval(r, m);
    ModelIsFeasible(r, m);
    assert |y| == |R.I.p.objs| by { EvalSize(r, m); }
    forall t | t in st.accepted
      ensures !Dominates(t, y)
    {
      assert Hardened(st, t);
      var v :| v in st.hardened && v in st.guard && st.guard[v].point == t;
    }
    forall t | t in Points(es)
      ensures !Dominates(t, y)
    {
      assert st.softBlocks[t] in softs;
    }
    OpenForFound(st.found, Points(es), y);
  }

  /** The search with one more candidate: its block is assumed from now on. */
  lemma SoftsGrow(st: Store, more: Store, es: seq<Entry>, m: Assignment, y: Point, softs: set<nat>, v: nat, base: nat)
    requires Softs(st, es, softs, base) && v >= base && more.found == st.found + {y}
    requires forall x | x in st.softBlocks :: x in more.softBlocks && more.softBlocks[x] == st.softBlocks[x]
    requires forall x | x in st.guard :: x in more.guard && more.guard[x] == st.guard[x]
    requires y in more.softBlocks && more.softBlocks[y] == v && v in more.guard && more.guard[v].point == y
    ensures Softs(more, Kept(es, y) + [Entry(m, y)], softs + {v}, base)
  {
    KeptMembers(es, y);
  }

  lemma FoundHasVar(st: Store, y: Point)
    requires SoftVars(st) && y in st.softBlocks
    ensures SoftVars(st.(found := st.found + {y}))
  {
    var more := st.(found := st.found + {y});
    forall x | x in st.accepted
      ensures Hardened(more, x)
    {
      assert Hardened(st, x);
    }
  }

  lemma FewerFound(st: Store)
    requires SoftVars(st)
    ensures SoftVars(st.(found := {}))
  {
    forall x | x in st.accepted
      ensures Hardened(st.(found := {}), x)
    {
      assert Hardened(st, x);
    }
  }

  /** Stored facts do not depend on what was found. */
  lemma StoredFound(R: Relaxation, st: Store, found: set<Point>)
    requires Stored(R, st)
    ensures Stored(R, st.(found := found))
  {
  }

  lemma StartSofts(R: Relaxation, st: Store, es: seq<Entry>, softs: set<nat>)
    requires Stored(R, st) && SoftVars(st) && SearchedIn(R, st, es)
    requires softs == set e | e in es && e.point in st.softBlocks :: st.softBlocks[e.point]
    ensures Softs(st, es, softs, R.I.p.base)
  {
    hide FeasiblePoints, Candidates, Covered, CoversAll, Antichain, FromSlice, Relaxed;
    forall e | e in es
      ensures e.point in st.found
    {
      assert e.point in Points(es);
    }
  }

  lemma EntriesBlocked(R: Relaxation, st: Store, es: seq<Entry>)
    requires SoftVars(st) && SearchedIn(R, st, es)
    ensures forall e | e in es :: e.point in st.softBlocks && |e.point| == |R.I.p.objs|
  {
    hide FeasiblePoints, Antichain, CoversAll, Covered, SatDb;
    forall e | e in es
      ensures e.point in st.softBlocks && |e.point| == |R.I.p.objs|
    {
      assert e.point in Points(es);
    }
  }

  /** An accepted point: its guard becomes true for good, its soft block is forgotten. */
  function Accept(st: Store, y: Point): Store
    requires y in st.softBlocks
  {
    var v := st.softBlocks[y];
    st.(db := st.db + {{Lit(v, false)}}, softBlocks := st.softBlocks - {y}, hardened := st.hardened + {v},
        accepted := st.accepted + {y})
  }

  lemma AcceptKeeps(R: Relaxation, st: Store, y: Point)
    requires Stored(R, st) && SoftVars(st) && st.found == {} && y in st.softBlocks
    ensures st.softBlocks[y] < st.nVars && Stored(R, Accept(st, y)) && SoftVars(Accept(st, y))
  {
    hide SoftBlocks, FromSlice;
    var v, more := st.softBlocks[y], Accept(st, y);
    assert Units(st.hardened + {v}) == Units(st.hardened) + {{Lit(v, false)}};
    forall x | x in more.accepted
      ensures Hardened(more, x)
    {
      if x in st.accepted {
        assert Hardened(st, x);
        var w :| w in st.hardened && w in st.guard && st.guard[w].point == x;
        assert w in more.hardened;
      } else {
        assert v in more.hardened;
      }
    }
  }

  lemma StoredMore(R: Relaxation, st: Store, more: Db, frozen: set<Lit>, slice: set<Lit>)
    requires Stored(R, st)
    ensures Stored(Relaxation(R.I, R.cores + more, frozen, slice), st.(db := st.db + more))
  {
    hide SoftBlocks, Units, FromSlice;
    assert st.db + more == R.I.p.hard + (R.cores + more) + SoftBlocks(st.guard) + Units(st.hardened);
  }

  lemma SoftVarsDb(st: Store, db: Db)
    requires SoftVars(st)
    ensures SoftVars(st.(db := db))
  {
    forall x | x in st.accepted
      ensures Hardened(st.(db := db), x)
    {
      assert Hardened(st, x);
    }
  }

  /** A new block from the current slice, under a fresh guard, for a point without one. */
  function Guarded(R: Relaxation, st: Store, y: Point): Store
  {
    var v, clause := st.nVars, SliceClause(R.I.p, R.slice, y) + {Lit(st.nVars, true)};
    st.(db := st.db + {clause}, nVars := v + 1, guard := st.guard[v := Block(y, clause)],
        softBlocks := st.softBlocks[y := v])
  }

  lemma GuardedKeeps(R: Relaxation, st: Store, y: Point)
    requires Stored(R, st) && SoftVars(st) && SlicePoint(R.I.p, R.slice, y) && y !in st.softBlocks
    ensures st.nVars !in st.guard && Stored(R, Guarded(R, st, y)) && SoftVars(Guarded(R, st, y))
  {
    hide SliceClause, Units, SlicePoint, FromSlice, SoftBlocks;
    var v, more := st.nVars, Guarded(R, st, y);
    assert v !in st.guard && |y| == |R.I.p.objs| by { SlicePointSize(R, y); }
    assert MadeFrom(R.I.p, R.slice, v, y, more.guard[v].clause);
    assert FromSlice(R.I.p, v, y, more.guard[v].clause) by { FromThis(R.I.p, R.slice, v, y, more.guard[v].clause); }
    MoreBlocks(st.guard, v, more.guard[v]);
    forall x | x in st.accepted
      ensures Hardened(more, x)
    {
      assert Hardened(st, x);
      var w :| w in st.hardened && w in st.guard && st.guard[w].point == x;
      assert w in more.guard && more.guard[w] == st.guard[w];
    }
  }

  lemma MoreBlocks(guard: map<nat, Block>, v: nat, b: Block)
    requires v !in guard
    ensures SoftBlocks(guard[v := b]) == SoftBlocks(guard) + {b.clause}
  {
    var more := guard[v := b];
    assert more[v].clause in SoftBlocks(more);
    assert forall w | w in guard :: more[w] == guard[w];
  }

  lemma SlicePointSize(R: Relaxation, y: Point)
    requires SlicePoint(R.I.p, R.slice, y)
    ensures |y| == |R.I.p.objs|
  {
  }

  lemma ClauseBelow(R: Relaxation, y: Point, v: nat)
    requires ValidRelaxation(R) && R.I.p.base <= v
    ensures LitsBelow(SliceClause(R.I.p, R.slice, y) + {Lit(v, true)}, v + 1)
  {
    RelaxedIsValid(R);
    ClausesBelowBase(Relaxed(R), y);
    assert LitsBelow(SliceClause(R.I.p, R.slice, y), R.I.p.base);
  }

  lemma StoreAboveBase(R: Relaxation, st: Store)
    requires Stored(R, st)
    ensures R.I.p.base <= st.nVars && forall v | v in st.guard :: v >= R.I.p.base
  {
  }

  lemma StartStored(R: Relaxation, nVars: nat)
    requires R.cores == {} && R.I.p.base <= nVars
    ensures Stored(R, Store(R.I.p.hard, nVars, map[], map[], {}, {}, {})) &&
        SoftVars(Store(R.I.p.hard, nVars, map[], map[], {}, {}, {}))
  {
    assert SoftBlocks(map[]) == {} && Units({}) == {};
  }

  lemma AssumptionsBelow(R: Relaxation, st: Store, ul: Point, softs: set<nat>)
    requires ValidRelaxation(R) && Stored(R, st) && forall v | v in softs :: v in st.guard
    ensures LitsBelow(HarvestAssumptions(R.frozen, softs, BelowLits(Relaxed(R).roots, ul)), st.nVars)
    ensures LitsBelow(BelowLits(Relaxed(R).roots, ul), R.I.p.base)
  {
    RelaxedIsValid(R);
    ClausesBelowBase(Relaxed(R), ul);
    hide Valid, OwnRoots, StandsFor, BelowLits, FromSlice, RootsAreNew, Relaxed;
    forall l | l in HarvestAssumptions(R.frozen, softs, BelowLits(Relaxed(R).roots, ul))
      ensures l.v < st.nVars
    {
    }
  }

  lemma HarvestNamesOnce(R: Relaxation, st: Store, softs: set<nat>, ul: Point, ls: seq<Lit>)
    requires ValidRelaxation(R) && Stored(R, st) && forall v | v in softs :: v in st.guard
    requires Distinct(ls) && Negates(LitSet(ls), HarvestAssumptions(R.frozen, softs, BelowLits(Relaxed(R).roots, ul)))
    ensures NamedOnce(Relaxed(R), ls)
  {
    RelaxedIsValid(R);
    StoreAboveBase(R, st);
    hide Valid, OwnRoots, StandsFor, BelowLits, HarvestAssumptions, Negates, Stored;
    ConflictNamesOnce(R.I, Relaxed(R), R.frozen, softs, ul, ls);
  }

  // ---------------------------------------------------------------- the optimizer

  lemma SameRootNames(r: Problem, q: Problem, ls: seq<Lit>)
    requires r.roots == q.roots && OwnRoots(r) && NamedOnce(r, ls)
    ensures OwnRoots(q) && NamedOnce(q, ls)
  {
    SameRoots(r, q);
    forall i, m, n | 0 <= i < |q.roots| && 0 <= m < n < |ls|
      ensures !(RootOf(q, i, ls[m]) && RootOf(q, i, ls[n]))
    {
      assert !(RootOf(r, i, ls[m]) && RootOf(r, i, ls[n]));
    }
  }

  lemma RaisedWithin(r: Problem, q: Problem, u: Point, conflict: Clause, objv: seq<nat>, objix: seq<nat>,
      raised: seq<nat>)
    requires Valid(r) && r.roots == q.roots && |u| == |r.roots| == |objv| == |objix| == |raised|
    requires forall k | 0 <= k < |u| :: objv[k] == u[k] + 1 && objix[k] == KeyIndex(q.roots[k], u[k] + 1)
    requires forall k | 0 <= k < |u| :: raised[k] == RaisedValue(q, conflict, objv, objix, k)
    ensures forall k | 0 <= k < |u| :: Extendable(q, conflict, u, k) <==> Extendable(r, conflict, u, k)
    ensures forall k | 0 <= k < |u| :: raised[k] == RaisedValue(r, conflict, objv, objix, k)
    ensures |r.max| == |u| && forall k | 0 <= k < |u| ::
              if Extendable(q, conflict, u, k) then u[k] + 1 < raised[k] <= r.max[k] + 1 else raised[k] == u[k] + 1
  {
    forall k | 0 <= k < |u|
      ensures Extendable(q, conflict, u, k) <==> Extendable(r, conflict, u, k)
      ensures raised[k] == RaisedValue(r, conflict, objv, objix, k)
    {
      SameNames(r, q, conflict, k);
    }
    UnsatSat.RaisedFence(r, u, conflict, objv, objix, raised);
  }

  /** The complete and sliced root literals of all objectives, with the same literals in every slice. */
  ghost predicate SlicedFrom(I: Instance, sliced: seq<RootLitsSliced>, slice: set<Lit>)
    reads sliced
  {
    && |sliced| == |I.p.objs| == |I.p.roots|
    && AllDistinct(sliced)
    && forall k | 0 <= k < |sliced| :: SlicesOf(sliced[k], I.p.roots[k], I.p.objs[k], slice)
  }

  /** The object slices this objective, and has taken in these literals. */
  ghost predicate SlicesOf(r: RootLitsSliced, muse: Roots, pb: seq<Term>, slice: set<Lit>)
    reads r
  {
    r.muse == muse && r.pb == pb && r.taken == slice && r.Valid()
  }

  ghost predicate AllDistinct(rs: seq<RootLitsSliced>) {
    forall j, k | 0 <= j < k < |rs| :: rs[j] != rs[k]
  }

  lemma DistinctMore(rs: seq<RootLitsSliced>, r: RootLitsSliced)
    requires AllDistinct(rs) && r !in rs
    ensures AllDistinct(rs + [r])
  {
  }

  method NewSlice(muse: Roots, pb: seq<Term>) returns (r: RootLitsSliced)
    requires SortedKeys(muse) && muse[0].key == 0 && KeyedSums(muse, Sums(pb))
    ensures fresh(r) && SlicesOf(r, muse, pb, {})
  {
    r := new RootLitsSliced(muse, pb);
  }

  lemma SumKeysAt(I: Instance, k: nat)
    requires ValidInstance(I) && k < |I.p.objs| == |I.p.roots|
    ensures SortedKeys(I.p.roots[k]) && I.p.roots[k][0].key == 0 && KeyedSums(I.p.roots[k], Sums(I.p.objs[k]))
  {
    assert EncodesObjective(I.p, k) && SumKeys(I.p, k);
  }

  ghost predicate SlicedUpTo(I: Instance, sliced: seq<RootLitsSliced>, k: nat)
    reads sliced
  {
    && |sliced| == k <= |I.p.objs| == |I.p.roots| && AllDistinct(sliced)
    && forall j | 0 <= j < k :: SlicesOf(sliced[j], I.p.roots[j], I.p.objs[j], {})
  }

  lemma SlicedOneMore(I: Instance, sliced: seq<RootLitsSliced>, k: nat, r: RootLitsSliced)
    requires SlicedUpTo(I, sliced, k) && k < |I.p.objs| && SlicesOf(r, I.p.roots[k], I.p.objs[k], {}) && r !in sliced
    ensures SlicedUpTo(I, sliced + [r], k + 1)
  {
    hide SlicesOf;
    DistinctMore(sliced, r);
  }

  /** `buildWorkFormula`: an empty slice of each objective. */
  method BuildWorkFormula(I: Instance) returns (sliced: seq<RootLitsSliced>)
    requires ValidInstance(I)
    ensures SlicedFrom(I, sliced, {}) && forall r | r in sliced :: fresh(r)
  {
    assert |I.p.objs| == |I.p.roots|;
    sliced := [];
    assert SlicedUpTo(I, sliced, 0);
    hide ValidInstance, SlicesOf, SortedKeys, KeyedSums, Sums, AllDistinct, SlicedUpTo;
    for k := 0 to |I.p.objs|
      invariant SlicedUpTo(I, sliced, k) && forall r | r in sliced :: fresh(r)
    {
      SumKeysAt(I, k);
      var r := NewSlice(I.p.roots[k], I.p.objs[k]);
      SlicedOneMore(I, sliced, k, r);
      sliced := sliced + [r];
    }
    SlicedAll(I, sliced);
  }

  lemma SlicedAll(I: Instance, sliced: seq<RootLitsSliced>)
    requires SlicedUpTo(I, sliced, |I.p.objs|)
    ensures SlicedFrom(I, sliced, {})
  {
    hide SlicesOf, AllDistinct;
  }

  method StartFrozen(objs: Objectives) returns (frozen: set<Lit>)
    ensures Frozen(objs, {}, frozen, {})
  {
    hide FreezesSingles, Frozen;
    frozen := Build(objs);
    BuildFreezes(objs, frozen);
  }

  class Optimizer {
    const I: Instance
    const solver: Solver
    const solution: Solution
    const sliced: seq<RootLitsSliced>
    var frozen: set<Lit>
    var softBlocks: map<Point, nat>
    var lowerBound: seq<Entry>
    ghost var slice: set<Lit>
    ghost var cores: Db
    ghost var guard: map<nat, Block>
    ghost var hardened: set<nat>
    ghost var accepted: set<Point>
    ghost var found: set<Point>

    /** `build`: freeze what no core can ask for yet. */
    constructor (I: Instance, solver: Solver, solution: Solution, sliced: seq<RootLitsSliced>)
      requires ValidInstance(I) && solver.Valid() && solver.nVars >= I.p.base && solver.clauses == I.p.hard &&
          solution.entries == []
      requires SlicedFrom(I, sliced, {})
      ensures this.I == I && this.solver == solver && this.solution == solution && this.sliced == sliced
      ensures Inv() && cores == {} && accepted == {} && found == {} && lowerBound == []
    {
      hide ValidInstance, Frozen, SlicedFrom, Inv;
      var blocked := StartFrozen(I.p.objs);
      this.I, this.solver, this.solution, this.sliced := I, solver, solution, sliced;
      frozen, slice, softBlocks, lowerBound := blocked, {}, map[], [];
      cores, guard, hardened, accepted, found := {}, map[], {}, {}, {};
      new;
      StartInv();
    }

    lemma StartInv()
      requires ValidInstance(I) && solver.Valid() && solver.nVars >= I.p.base && solver.clauses == I.p.hard &&
          solution.entries == []
      requires SlicedFrom(I, sliced, slice) && Frozen(I.p.objs, {}, frozen, {}) && slice == {} && softBlocks == map[]
      requires cores == {} && guard == map[] && hardened == {} && accepted == {} && found == {}
      ensures Inv()
    {
      hide ValidInstance, Frozen, Stored, SoftVars, SlicedFrom, Searched, Relaxed, DbBelow;
      KeysAre();
      NoCores(I.n);
      StartStored(Rel(), solver.nVars);
      NothingLeft(Relaxed(Rel()), {});
    }

    ghost function Rel(): Relaxation
      reads this
    {
      Relaxation(I, cores, frozen, slice)
    }

    ghost function St(): Store
      reads this, solver
    {
      Store(solver.clauses, solver.nVars, guard, softBlocks, hardened, accepted, found)
    }

    /** The root literals of the slice. */
    function Keys(): seq<Roots>
      reads sliced
    {
      seq(|sliced|, k requires 0 <= k < |sliced| reads sliced => sliced[k].me)
    }

    lemma KeysAre()
      requires SlicedFrom(I, sliced, slice)
      ensures |I.p.objs| == |I.p.roots| && Keys() == SlicedRoots(I.p.objs, I.p.roots, slice) == Relaxed(Rel()).roots
    {
    }

    /** The database, the frozen literals, the slices and the soft blocks, apart from the candidates. */
    ghost predicate Base()
      reads this, solver, sliced
    {
      ValidRelaxation(Rel()) && solver.Valid() && Stored(Rel(), St()) && SoftVars(St()) && SlicedFrom(I, sliced, slice)
    }

    ghost predicate Inv()
      reads this, solver, solution, sliced
    {
      Base() && SearchedIn(Rel(), St(), solution.entries)
    }

    /** If all blocks made so far are tight, accepted points and candidates cover the whole relaxation. */
    ghost predicate Done()
      reads this
    {
      AllTight(I, guard) ==> CoversAll(accepted + found, FeasiblePoints(Relaxed(Rel())))
    }

    /** `blockStep`: a block clause is made once for each point, from the keys of the slice; its guard is
        reused afterwards. */
    method BlockStep(y: Point) returns (v: nat)
      requires Base() && SlicePoint(I.p, slice, y)
      modifies this`softBlocks, this`guard, solver`clauses, solver`nVars
      ensures Base() && y in softBlocks && softBlocks[y] == v && v in guard && guard[v].point == y
      ensures forall x | x in old(softBlocks) :: x in softBlocks && softBlocks[x] == old(softBlocks)[x]
      ensures forall x | x in old(guard) :: x in guard && guard[x] == old(guard)[x]
      ensures y in old(softBlocks) ==> guard == old(guard)
      ensures forall x | x in guard :: x in old(guard) || x == v
      ensures y !in old(softBlocks) ==> guard[v].clause == SliceClause(I.p, slice, y) + {Lit(v, true)}
    {
      hide ValidInstance, Frozen, LitsBelow, DbBelow, Stored, SoftVars, SlicedFrom, SlicePoint, Relaxed;
      KeysAre();
      if y in softBlocks {
        v := softBlocks[y];
        BlockKnown(St(), y);
      } else {
        SizeOf(y);
        GuardedKeeps(Rel(), St(), y);
        StoreAboveBase(Rel(), St());
        ClauseBelow(Rel(), y, solver.nVars);
        var clause := BlockClause(Keys(), y);
        assert clause == SliceClause(I.p, slice, y);
        v := solver.NewVar();
        solver.AddClause(clause + {Lit(v, true)});
        guard := guard[v := Block(y, clause + {Lit(v, true)})];
        softBlocks := softBlocks[y := v];
        assert St() == Guarded(old(Rel()), old(St()), y);
      }
    }

    /** The last conflict refutes the fence under the assumptions of the harvest. */
    ghost predicate Refuted(ul: Point, softs: set<nat>)
      reads this, solver
    {
      && Entails(solver.clauses, solver.conflict)
      && Negates(solver.conflict, HarvestAssumptions(frozen, softs, BelowLits(Relaxed(Rel()).roots, ul)))
    }

    ghost predicate HarvestInv(softs: set<nat>)
      reads this, solver, solution, sliced
    {
      Inv() && Softs(St(), solution.entries, softs, I.p.base)
    }

    method SolveHarvest(ul: Point, softs: set<nat>, below: set<Lit>) returns (sat: Outcome)
      requires HarvestInv(softs) && below == BelowLits(Relaxed(Rel()).roots, ul)
      modifies solver`model, solver`conflict, solver`gaveUp
      ensures HarvestInv(softs) && sat != Undef
      ensures sat == Sat ==>
          SatDb(solver.clauses, solver.model) && AllHold(HarvestAssumptions(frozen, softs, below), solver.model)
      ensures sat == Unsat ==> Refuted(ul, softs)
    {
      hide ValidInstance, Frozen, DbBelow, LitsBelow, BelowLits, Stored, SoftVars, Searched, SatDb, AllHold, Negates,
           Entails, Softs, HarvestAssumptions, SlicedFrom, Relaxed, FromSlice;
      SoftsGuarded(St(), solution.entries, softs, I.p.base);
      AssumptionsBelow(Rel(), St(), ul, softs);
      sat := solver.Solve(HarvestAssumptions(frozen, softs, below), false);
    }

    /** Take in a candidate: it enters the archive, its region is blocked softly from now on. */
    method Collect(softs: set<nat>, below: set<Lit>) returns (softs': set<nat>)
      requires HarvestInv(softs) && SatDb(solver.clauses, solver.model) &&
          AllHold(HarvestAssumptions(frozen, softs, below), solver.model)
      modifies this`softBlocks, this`guard, this`found, solver`clauses, solver`nVars, solution
      ensures HarvestInv(softs') && old(found) < found <= FeasiblePoints(Relaxed(Rel()))
      ensures forall x | x in old(guard) :: x in guard && guard[x] == old(guard)[x]
    {
      hide ValidInstance, Frozen, DbBelow, LitsBelow, Stored, SoftVars, Searched, Softs, SatDb, AllHold, Kept, Points,
           Covered, HarvestAssumptions, FeasiblePoints, Eval, Relaxed, SlicedFrom, SlicePoint;
      KeysAre();
      var y := PointOf(solver.model);
      ghost var R, st, es := Rel(), St(), solution.entries;
      NewCandidate(R, st, es, softs, below, solver.model);
      SearchedGrows(Relaxed(R), accepted, found, es, solver.model);
      RelaxedPoint(R, solver.model);
      var added := solution.PushSafe(solver.model, y);
      var v := BlockStep(y);
      StoreAboveBase(R, St());
      FoundHasVar(St(), y);
      StoredFound(R, St(), found + {y});
      softs' := softs + {v};
      found := found + {y};
      SoftsGrow(st, St(), es, solver.model, y, softs, v, I.p.base);
      SearchedIsFeasible(Relaxed(R), accepted, found, solution.entries);
    }

    /** The point of a model under the sliced objectives. */
    method PointOf(a: Assignment) returns (y: Point)
      requires SlicedFrom(I, sliced, slice)
      ensures y == Eval(Relaxed(Rel()), a)
    {
      y := seq(|sliced|, k requires 0 <= k < |sliced| reads sliced => Value(sliced[k].cur, a));
    }

    /** The harvest of `rootedSearch` below a fence: it ends with a conflict. */
    method Harvest(ul: Point) returns (softs: set<nat>)
      requires Inv() && |ul| == |I.p.objs|
      modifies this`softBlocks, this`guard, this`found, solver, solution
      ensures HarvestInv(softs) && Refuted(ul, softs)
      ensures forall x | x in old(guard) :: x in guard && guard[x] == old(guard)[x]
    {
      hide ValidInstance, Frozen, DbBelow, LitsBelow, BelowLits, Stored, SoftVars, Searched, SatDb, AllHold, Negates,
           Entails, Softs, HarvestAssumptions, FeasiblePoints, Relaxed, SlicedFrom;
      KeysAre();
      var below := AssumeDominatingRegion(Keys(), ul, {});
      assert below == BelowLits(Relaxed(Rel()).roots, ul);
      softs := set e | e in solution.entries && e.point in softBlocks :: softBlocks[e.point];
      StartSofts(Rel(), St(), solution.entries, softs);
      var sat := SolveHarvest(ul, softs, below);
      SearchedIsFeasible(Relaxed(Rel()), accepted, found, solution.entries);
      while sat == Sat
        invariant HarvestInv(softs) && found <= FeasiblePoints(Relaxed(Rel())) && sat != Undef
        invariant forall x | x in old(guard) :: x in guard && guard[x] == old(guard)[x]
        invariant sat == Sat ==>
            SatDb(solver.clauses, solver.model) && AllHold(HarvestAssumptions(frozen, softs, below), solver.model)
        invariant sat == Unsat ==> Refuted(ul, softs)
        decreases FeasiblePoints(Relaxed(Rel())) - found, sat == Sat
      {
        softs := Collect(softs, below);
        sat := SolveHarvest(ul, softs, below);
      }
    }

    /** `extendUL`: every objective that the conflict names rises to one below its next key. */
    method ExtendUL(ul: Point, ghost softs: set<nat>) returns (extend: bool, next: Point)
      requires HarvestInv(softs) && |ul| == |I.p.objs| && Refuted(ul, softs)
      ensures RisesToKeys(Relaxed(Rel()), solver.conflict, ul, next)
      ensures |next| == |ul| == |I.p.max| && (forall k | 0 <= k < |ul| ::
          next[k] == ul[k] || ul[k] < next[k] <= I.p.max[k])
      ensures extend ==> next != ul
      ensures !extend ==> Done()
    {
      hide ValidInstance, Frozen, DbBelow, LitsBelow, BelowLits, Stored, SoftVars, Searched, Negates, Entails,
           HarvestAssumptions, FeasiblePoints, OwnRoots, Valid, Sound, NamedOnce, CoversAll, NamedBy, LitSet, Distinct,
           Relaxed, SlicedFrom, Softs, Done, Extendable, RaisedValue, FromSlice, RisesToKeys;
      KeysAre();
      SizeMax();
      SoftsGuarded(St(), solution.entries, softs, I.p.base);
      var conflict := UnsatSat.ToList(solver.conflict);
      ghost var R, r := Rel(), Relaxed(Rel());
      RelaxedIsSized(R);
      HarvestNamesOnce(R, St(), softs, ul, conflict);
      var q := Problem(I.p.base, {}, I.p.objs, Keys(), I.p.max);
      SameRootNames(r, q, conflict);
      var objv := seq(|ul|, i requires 0 <= i < |ul| => ul[i] + 1);
      var objix := EvalToIndex(Keys(), ul);
      var upperObjv;
      extend, upperObjv := Fences.ExtendUL(q, conflict, objv, objix);
      RaisedWithin(r, q, ul, LitSet(conflict), objv, objix, upperObjv);
      next := seq(|ul|, i requires 0 <= i < |ul| => upperObjv[i] - 1);
      ExtendedRises(r, LitSet(conflict), ul, objv, objix, next);
      ExtendMeans(q, LitSet(conflict), ul, objix, extend);
      if extend {
        var k :| 0 <= k < |ul| && Extendable(q, LitSet(conflict), ul, k);
        assert next[k] > ul[k];
      } else {
        NothingRaised(ul, softs);
      }
    }

    /** When the conflict raises nothing and all blocks are tight, the relaxation is covered. */
    lemma NothingRaised(ul: Point, softs: set<nat>)
      requires Base() && Softs(St(), solution.entries, softs, I.p.base) && |ul| == |I.p.objs| && Refuted(ul, softs)
      requires forall k | 0 <= k < |ul| :: !Extendable(Relaxed(Rel()), solver.conflict, ul, k)
      ensures Done()
    {
      if AllTight(I, guard) {
        hide ValidInstance, Frozen, DbBelow, LitsBelow, BelowLits, Stored, SoftVars, Negates, Entails,
             HarvestAssumptions, FeasiblePoints, OwnRoots, Valid, Sound, CoversAll, Extendable, Relaxed, SlicedFrom,
             Softs, AllTight;
        SizeMax();
        var R, below := Rel(), BelowLits(Relaxed(Rel()).roots, ul);
        RelaxedIsSized(R);
        SoftsGuarded(St(), solution.entries, softs, I.p.base);
        AssumptionsBelow(R, St(), ul, softs);
        FencePartIsSound(R, St(), softs, below, solver.conflict);
        NothingToRaise(Relaxed(R), accepted + found, solver.conflict, ul);
      }
    }

    lemma SizeMax()
      requires Base()
      ensures |I.p.objs| == |I.p.roots| == |I.p.max|
    {
    }

    lemma SizeOf(y: Point)
      requires SlicePoint(I.p, slice, y)
      ensures |y| == |I.p.objs|
    {
    }

    /** `rootedSearch`: harvest and extend until no objective can be raised. */
    method RootedSearch(yp: Point)
      requires Inv() && |yp| == |I.p.objs|
      modifies this`softBlocks, this`guard, this`found, solver, solution
      ensures Inv() && Done()
      ensures forall x | x in old(guard) :: x in guard && guard[x] == old(guard)[x]
    {
      hide ValidInstance, Frozen, DbBelow, Stored, SoftVars, Searched, Negates, Entails, Softs, FeasiblePoints,
           CoversAll, Relaxed, SlicedFrom, Done, Refuted;
      SizeMax();
      var ul := yp;
      var softs := Harvest(ul);
      var done := false;
      while !done
        invariant |ul| == |I.p.objs| == |I.p.max| == |I.p.roots|
        invariant HarvestInv(softs) && (if done then Done() else Refuted(ul, softs))
        invariant forall x | x in old(guard) :: x in guard && guard[x] == old(guard)[x]
        decreases UnsatSat.Room(ul, I.p.max), !done
      {
        var extend, next := ExtendUL(ul, softs);
        if extend {
          UnsatSat.RoomShrinks(ul, next, I.p.max);
          ul := next;
          softs := Harvest(ul);
        } else {
          done := true;
        }
      }
    }

    /** `searchUnsatSatMO`: start below the rejected points of the last round. */
    method SearchAgain()
      requires Inv() && forall e | e in lowerBound :: |e.point| == |I.p.objs|
      modifies this`softBlocks, this`guard, this`found, solver, solution
      ensures Inv() && Done()
      ensures forall x | x in old(guard) :: x in guard && guard[x] == old(guard)[x]
    {
      var ul := Dominator(lowerBound, |I.p.objs|);
      RootedSearch(ul);
    }

    /** `checkSols`: rejected candidates become the next lower bounds, the others are blocked for good. */
    method CheckSols(marked: set<Point>)
      requires Base() && found == {}
      requires forall e | e in solution.entries :: e.point in softBlocks && |e.point| == |I.p.objs|
      modifies this`softBlocks, this`lowerBound, this`hardened, this`accepted, solver`clauses, solution
      ensures Base() && solution.entries == []
      ensures accepted == old(accepted) + (Points(old(solution.entries)) - marked)
      ensures forall e | e in lowerBound :: |e.point| == |I.p.objs|
      ensures forall e :: e in lowerBound <==> e in old(solution.entries) && e.point in marked
    {
      hide ValidInstance, Frozen, DbBelow, LitsBelow, Stored, SatDb, FeasiblePoints, Relaxed, Searched, SoftVars,
           Points, SlicedFrom;
      var es := solution.entries;
      assert es[..0] == [] && Points([]) == {} by { NoPoints(); }
      lowerBound := [];
      for i := 0 to |es|
        invariant Base() && es == solution.entries == old(solution.entries) && found == {}
        invariant accepted == old(accepted) + (Points(es[..i]) - marked)
        invariant forall e :: e in lowerBound <==> e in es[..i] && e.point in marked
        invariant forall k | i <= k < |es| && es[k].point !in accepted :: es[k].point in softBlocks
      {
        PointsNext(es, i);
        assert es[..i + 1] == es[..i] + [es[i]];
        var y := es[i].point;
        if y in marked {
          lowerBound := lowerBound + [es[i]];
        } else if y in softBlocks {
          AcceptKeeps(Rel(), St(), y);
          ghost var next := Accept(St(), y);
          var bvar := softBlocks[y];
          softBlocks := softBlocks - {y};
          solver.AddClause({Lit(bvar, false)});
          hardened := hardened + {bvar};
          accepted := accepted + {y};
          assert St() == next;
        }
      }
      assert es[..|es|] == es;
      solution.Clear();
    }

    /** The new cores enter the solver, and their literals are thawed, in the frozen set and in every slice. */
    method AddCores(diagnoses: Db)
      requires Base() && DbBelow(diagnoses, I.n)
      modifies this`frozen, this`slice, this`cores, solver`clauses, sliced
      ensures Base() && cores == old(cores) + diagnoses
    {
      hide ValidInstance, LitsBelow, DbBelow, SatDb, FeasiblePoints, Relaxed, Searched, Stored, SoftVars, Frozen,
           SlicedFrom;
      var lits: set<Lit> := set c, l | c in diagnoses && l in c :: l;
      ThawKeepsFrozen(I.p.objs, cores, frozen, slice, diagnoses, lits);
      StoreAboveBase(Rel(), St());
      CoresBelow(Rel(), diagnoses, solver.nVars);
      InsertClauses(diagnoses);
      var taken;
      frozen, taken := Thaw(frozen, lits);
      ThawSlices(taken);
      StoredMore(old(Rel()), old(St()), diagnoses, frozen, slice + taken);
      SoftVarsDb(old(St()), solver.clauses);
      slice := slice + taken;
      cores := cores + diagnoses;
    }

    /** The loop of `thaw` over the root literals. */
    method ThawSlices(taken: set<Lit>)
      requires SlicedFrom(I, sliced, slice)
      modifies sliced
      ensures SlicedFrom(I, sliced, slice + taken)
    {
      for k := 0 to |sliced|
        invariant |sliced| == |I.p.objs| == |I.p.roots| && AllDistinct(sliced)
        invariant forall j | 0 <= j < |sliced| :: SlicesOf(sliced[j], I.p.roots[j], I.p.objs[j],
            if j < k then slice + taken else slice)
      {
        sliced[k].Thaw(taken);
      }
    }

    /** `incrementFormula`, on the optimizer's side. */
    method IncrementFormula(diagnoses: Db, marked: set<Point>)
      requires Inv() && DbBelow(diagnoses, I.n)
      modifies this, solver`clauses, solution, sliced
      ensures Inv() && found == {} && solution.entries == []
      ensures cores == old(cores) + diagnoses && guard == old(guard)
      ensures accepted == old(accepted) + (Points(old(solution.entries)) - marked)
      ensures forall e | e in lowerBound :: |e.point| == |I.p.objs|
      ensures forall e :: e in lowerBound <==> e in old(solution.entries) && e.point in marked
    {
      hide ValidInstance, Frozen, DbBelow, LitsBelow, Stored, SatDb, FeasiblePoints, Relaxed, Searched, SoftVars,
           Points, SlicedFrom;
      KeysAre();
      EntriesBlocked(Rel(), St(), solution.entries);
      FewerFound(St());
      StoredFound(Rel(), St(), {});
      found := {};
      AddCores(diagnoses);
      CheckSols(marked);
      NothingLeft(Relaxed(Rel()), accepted);
    }

    method InsertClauses(more: Db)
      requires solver.Valid() && DbBelow(more, solver.nVars)
      modifies solver`clauses
      ensures solver.Valid() && solver.clauses == old(solver.clauses) + more
    {
      var todo := more;
      while todo != {}
        invariant todo <= more && solver.Valid() && solver.clauses == old(solver.clauses) + (more - todo)
        decreases todo
      {
        var c :| c in todo;
        solver.AddClause(c);
        todo := todo - {c};
      }
      assert more - todo == more;
    }
  }

  lemma BlockKnown(st: Store, y: Point)
    requires SoftVars(st) && y in st.softBlocks
    ensures st.softBlocks[y] in st.guard && st.guard[st.softBlocks[y]].point == y
  {
  }

  lemma ExtendMeans(q: Problem, conflict: Clause, u: Point, objix: seq<nat>, extend: bool)
    requires |u| == |q.roots| == |objix| && forall k | 0 <= k < |u| :: objix[k] == KeyIndex(q.roots[k], u[k] + 1)
    requires extend <==> exists k | 0 <= k < |u| :: NamedBy(q, conflict, k) && objix[k] + 1 < |q.roots[k]|
    ensures extend <==> exists k | 0 <= k < |u| :: Extendable(q, conflict, u, k)
  {
    hide NamedBy;
    if extend {
      var k :| 0 <= k < |u| && NamedBy(q, conflict, k) && objix[k] + 1 < |q.roots[k]|;
      assert Extendable(q, conflict, u, k);
    }
  }

  lemma SoftsGuarded(st: Store, es: seq<Entry>, softs: set<nat>, base: nat)
    requires Softs(st, es, softs, base)
    ensures forall v | v in softs :: v in st.guard && st.guard[v].point in st.found && v >= base
  {
  }

  lemma RelaxedIsSized(R: Relaxation)
    requires ValidRelaxation(R)
    ensures |R.I.p.objs| == |R.I.p.roots| == |R.I.p.max| && Valid(Relaxed(R)) && OwnRoots(Relaxed(R)) &&
        Relaxed(R).max == R.I.p.max
  {
    RelaxedIsValid(R);
  }

  lemma NoCores(n: nat)
    ensures DbBelow({}, n)
  {
  }

  lemma NoPoints()
    ensures Points([]) == {}
  {
  }

  lemma PointsNext(es: seq<Entry>, i: nat)
    requires i < |es|
    ensures Points(es[..i + 1]) == Points(es[..i]) + {es[i].point}
  {
    assert es[..i + 1] == es[..i] + [es[i]];
  }

  lemma CoresBelow(R: Relaxation, more: Db, nVars: nat)
    requires ValidRelaxation(R) && DbBelow(more, R.I.n) && R.I.p.base <= nVars
    ensures DbBelow(more, nVars) && DbBelow(R.cores + more, R.I.n)
  {
    forall c | c in more
      ensures LitsBelow(c, nVars)
    {
      assert LitsBelow(c, R.I.n);
    }
  }

  // ---------------------------------------------------------------- the master

  class Search {
    const I: Instance
    const optim: Optimizer
    const solver: Solver
    const solution: Solution
    const first: Assignment
    ghost var pushed: set<Point>

    constructor (I: Instance, optim: Optimizer, solver: Solver, solution: Solution, first: Assignment)
      requires ValidInstance(I) && optim.I == I && optim.Inv() && optim.cores == {} && optim.accepted == {} &&
          optim.found == {} && optim.lowerBound == []
      requires solver.Valid() && solver.nVars >= I.n && solver.clauses == I.hard && solution.entries == []
      requires SatDb(Whole(I).hard, first) && optim.solver != solver && optim.solution != solution
      ensures this.I == I && this.optim == optim && this.solver == solver && this.solution == solution &&
          this.first == first
      ensures Inv() && optim.found == {} && optim.lowerBound == []
    {
      hide ValidInstance, Frozen, DbBelow, LitsBelow, Stored, SoftVars, SatDb, FeasiblePoints, Relaxed, Whole,
           ParetoFront, CoversAll, Entails, SlicedFrom, Searched, AllTight;
      NothingPushed();
      this.I, this.optim, this.solver, this.solution, this.first := I, optim, solver, solution, first;
      pushed := {};
    }

    /** Every block of the optimizer is the clause of the complete objectives. */
    ghost predicate Sharp()
      reads this, optim
    {
      AllTight(I, optim.guard)
    }

    /** The master: the archive covers what was pushed, and with tight blocks accepted points are Pareto-optimal. */
    ghost predicate Inv()
      reads this, solver, solution, optim, optim.solver, optim.solution, optim.sliced
    {
      && optim.I == I && optim.solver != solver && optim.solution != solution
      && optim.Inv() && (forall k | k in optim.cores :: Entails(I.hard, k))
      && solver.Valid() && solver.nVars >= I.n && solver.clauses == I.hard && SatDb(Whole(I).hard, first)
      && Fronts(pushed, Points(solution.entries)) && optim.accepted <= pushed <= FeasiblePoints(Whole(I))
      && (Sharp() ==> optim.accepted <= ParetoFront(FeasiblePoints(Whole(I))))
    }

    /** One candidate: solve under its complete model; accept it, or learn a core. */
    method Check(e: Entry) returns (accepted: bool, diagnosis: Clause)
      requires Inv() && e in optim.solution.entries
      modifies solver`model, solver`conflict, solver`gaveUp, solution, this`pushed
      ensures Inv() && (accepted <==> SatDb(I.hard, e.model)) &&
          pushed == old(pushed) + if accepted then {e.point} else {}
      ensures !accepted ==> Entails(I.hard, diagnosis) && !SatClause(diagnosis, e.model) && LitsBelow(diagnosis, I.n)
    {
      hide ValidInstance, Frozen, DbBelow, LitsBelow, Stored, SoftVars, SatDb, FeasiblePoints, Relaxed, Whole,
           ParetoFront, CoversAll, Entails, Negates, AllHold, Antichain, Covered, VarsBelow, Points, Eval, SlicedFrom,
           Searched, AllTight;
      diagnosis := {};
      FixedBelow(I.n, e.model, solver.nVars);
      var sat := solver.Solve(FullModel(I.n, e.model), false);
      accepted := sat == Sat;
      if accepted {
        optim.KeysAre();
        FullModelDecides(I, e.model, solver.model);
        SatHard(I, e.model, solver.model);
        EntryIsPoint(Relaxed(optim.Rel()), optim.accepted, optim.found, optim.solution.entries, e);
        CheckedIsFeasible(optim.Rel(), e.model, solver.model);
        // absorb
        var y := Eval(I.p, e.model);
        PushedStaysFront(pushed, solution.entries, e.model, y);
        var added := solution.PushSafe(e.model, y);
        pushed := pushed + {y};
      } else {
        diagnosis := solver.conflict;
        CoreExcludes(I.n, e.model, diagnosis);
        CoreFails(I.hard, e.model, diagnosis);
      }
    }

    /** `recycleLowerBoundSet`: check all candidates. Those that satisfy the formula are archived, the points
        of the others are marked, and each of the others is excluded by a core. */
    method Recycle() returns (marked: set<Point>, diagnoses: Db)
      requires Inv() && optim.Done()
      modifies solver`model, solver`conflict, solver`gaveUp, solution, this`pushed
      ensures Inv() && pushed == old(pushed) + Passing(I.hard, optim.solution.entries)
      ensures marked == Failing(I.hard, optim.solution.entries)
      ensures Sharp() ==> Passing(I.hard, optim.solution.entries) <= ParetoFront(FeasiblePoints(Whole(I)))
      ensures (forall k | k in diagnoses :: Entails(I.hard, k)) && DbBelow(diagnoses, I.n)
      ensures forall e | e in optim.solution.entries && !SatDb(I.hard, e.model) :: Excluded(e, diagnoses)
    {
      hide ValidInstance, Frozen, Stored, SoftVars, SatDb, FeasiblePoints, Relaxed, Whole, ParetoFront, CoversAll,
           Entails, Searched, SatClause, LitsBelow, Passing, Failing, Excluded, SlicedFrom, AllTight, Points,
           Antichain;
      marked, diagnoses := {}, {};
      var es := optim.solution.entries;
      NothingChecked(I.hard, es);
      for i := 0 to |es|
        invariant Inv() && pushed == old(pushed) + Passing(I.hard, es[..i]) && es == optim.solution.entries
        invariant marked == Failing(I.hard, es[..i])
        invariant (forall k | k in diagnoses :: Entails(I.hard, k)) && DbBelow(diagnoses, I.n)
        invariant forall k | 0 <= k < i && !SatDb(I.hard, es[k].model) :: Excluded(es[k], diagnoses)
      {
        var accepted, diagnosis := Check(es[i]);
        OneMoreChecked(I.hard, es, i);
        if !accepted {
          marked := marked + {es[i].point};
          ExcludedBy(es, i, diagnoses, diagnosis);
          diagnoses := diagnoses + {diagnosis};
        }
      }
      assert es[..|es|] == es;
      if Sharp() {
        PassingIsOptimal(optim.Rel(), optim.accepted, optim.found, es);
      }
    }

    /** `consolidateSolution`: the first solution goes into the archive. */
    method Consolidate()
      requires Inv()
      modifies solution, this`pushed
      ensures Inv() && pushed == old(pushed) + {Eval(I.p, first)}
    {
      hide ValidInstance, Frozen, DbBelow, LitsBelow, Stored, SoftVars, SatDb, FeasiblePoints, Relaxed, Whole,
           ParetoFront, CoversAll, Entails, Antichain, Covered, SlicedFrom, AllTight, Searched, Points;
      FirstIsFeasible(I, first);
      var y := Eval(I.p, first);
      PushedStaysFront(pushed, solution.entries, first, y);
      var added := solution.PushSafe(first, y);
      pushed := pushed + {y};
    }

    /** `searchMasterMO`: the loop always ends. The archive is the Pareto front of the formula when no block
        was made that differs from the block of the complete objectives, and so for every instance whose
        objectives have equal weights. */
    method Run()
      requires Inv() && optim.found == {} && optim.solution.entries == [] && forall e | e in optim.lowerBound ::
          |e.point| == |I.p.objs|
      modifies this`pushed, solver, solution, optim, optim.solver, optim.solution, optim.sliced
      ensures Antichain(Points(solution.entries)) && Points(solution.entries) <= FeasiblePoints(Whole(I))
      ensures Covered(Points(solution.entries), Eval(I.p, first))
      ensures Sharp() ==> Points(solution.entries) == ParetoFront(FeasiblePoints(Whole(I)))
      ensures AllUniform(I.p.objs) ==> Points(solution.entries) == ParetoFront(FeasiblePoints(Whole(I)))
    {
      hide ValidInstance, Frozen, DbBelow, LitsBelow, Stored, SoftVars, SatDb, FeasiblePoints, Relaxed, Whole,
           ParetoFront, CoversAll, Entails, SatClause, Antichain, Admitted, Covered, SlicedFrom, AllTight, Searched,
           AllUniform, Passing, Failing, Excluded, Fronts, Points, Eval;
      while true
        invariant Inv() && optim.found == {} && optim.solution.entries == []
        invariant forall e | e in optim.lowerBound :: |e.point| == |I.p.objs|
        decreases Admitted(I.n, optim.cores)
      {
        label Round:
        optim.SearchAgain();
        TightBefore(I, old@Round(optim.guard), optim.guard);
        var marked, diagnoses := Recycle();
        Consolidate();
        if marked == {} {
          Finish();
          return;
        }
        ghost var R := optim.Rel();
        ghost var e: Entry := SomeFails(I.hard, optim.solution.entries);
        EntryShrinks(R, optim.accepted, optim.found, optim.solution.entries, e, diagnoses);
        NotMarkedPasses(I.hard, optim.solution.entries);
        optim.IncrementFormula(diagnoses, marked);
        MoreEntailed(I.hard, R.cores, diagnoses);
      }
    }

    /** Nothing was rejected: all candidates are accepted, and they complete the front. */
    lemma Finish()
      requires Inv() && optim.Done()
      requires Failing(I.hard, optim.solution.entries) == {} && Passing(I.hard, optim.solution.entries) <= pushed
      requires Eval(I.p, first) in pushed
      requires Sharp() ==> Passing(I.hard, optim.solution.entries) <= ParetoFront(FeasiblePoints(Whole(I)))
      ensures Antichain(Points(solution.entries)) && Points(solution.entries) <= FeasiblePoints(Whole(I))
      ensures Covered(Points(solution.entries), Eval(I.p, first))
      ensures Sharp() ==> Points(solution.entries) == ParetoFront(FeasiblePoints(Whole(I)))
      ensures AllUniform(I.p.objs) ==> Sharp()
    {
      hide ValidInstance, Frozen, DbBelow, LitsBelow, Stored, SoftVars, SatDb, FeasiblePoints, Relaxed, Whole,
           ParetoFront, CoversAll, Entails, SatClause, Antichain, Covered, Points, Candidates, SlicedFrom, AllTight,
           Searched, AllUniform, Passing, Failing, Eval;
      PushedIsCovered(pushed, Points(solution.entries), Eval(I.p, first));
      if AllUniform(I.p.objs) {
        UniformIsTightStore(optim.Rel(), optim.St());
      }
      if Sharp() {
        AllPass(I.hard, optim.solution.entries);
        SearchedFronts(Relaxed(optim.Rel()), optim.accepted, optim.found, optim.solution.entries);
        var points := Points(optim.solution.entries);
        AllAcceptedIsTheFront(optim.Rel(), optim.accepted, optim.found, points);
        CoverAllMore(optim.accepted + points, pushed, FeasiblePoints(Whole(I)));
        FinalFront(pushed, Points(solution.entries), FeasiblePoints(Whole(I)));
      }
    }
  }

  lemma PushedIsCovered(pushed: set<Point>, points: set<Point>, y: Point)
    requires Fronts(pushed, points) && y in pushed
    ensures Covered(points, y)
  {
  }

  lemma TightBefore(I: Instance, guard: map<nat, Block>, more: map<nat, Block>)
    requires forall x | x in guard :: x in more && more[x] == guard[x]
    ensures AllTight(I, more) ==> AllTight(I, guard)
  {
  }
}
