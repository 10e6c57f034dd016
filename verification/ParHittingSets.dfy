/** The hitting-set loop around the parallel optimizer: rounds of harvests, with new cores in between. */
module ParHittingSets {
  import opened Cnf
  import opened Pareto
  import opened Encoding
  import opened ParallelMO
  import opened Archive
  import opened Fences
  import opened FenceQueue
  import opened Freezing
  import opened Slices
  import opened Relaxations
  import opened SliceBlocks
  import opened ParHarvest

  /** A round and what happened in it. */
  datatype Stage = Stage(round: Round, run: seq<State>)

  function Last(run: seq<State>): State
    requires |run| > 0
  {
    run[|run| - 1]
  }

  function Zeros(n: nat): Point {
    seq(n, _ => 0)
  }

  /** `build`: no core, nothing blocked, everything frozen that no core can ask for yet. */
  ghost predicate Start(I: Instance, R: Round, s: State) {
    && R == Round(I, {}, R.frozen, {}, {}, {}, Zeros(|I.p.objs|), R.stride) && R.stride >= 1.0
    && FreezesSingles(I.p.objs, R.frozen)
    && s == State([R.root], {R.root}, 0, [], {}, s.nVars, map[], [], {}, s.workers) && s.nVars >= I.p.base
    && forall w | w in s.workers :: w.pc == Idle && w.next == 0 && w.guards == {} && w.db == I.p.hard
  }

  function Literals(db: Db): set<Lit> {
    set c, l | c in db && l in c :: l
  }

  /** The greatest lower bound of the points. */
  ghost predicate Infimum(root: Point, ys: set<Point>) {
    forall q: Point | |q| == |root| :: Dominates(q, root) <==> forall y | y in ys :: Dominates(q, y)
  }

  /** The variables of the blocks of the candidates that passed. */
  ghost function PassedVars(hard: Db, s: State): set<nat> {
    set e | e in s.entries && SatDb(hard, e.model) && e.point in s.softBlocks :: s.softBlocks[e.point]
  }

  /** The last synchronization of a round, then `addDiagnosis` and `checkSols` on a worker. */
  function Renewed(w: Worker, us: seq<Update>, more: Db): Worker
    requires w.next <= |us|
  {
    w.(pc := Idle, next := |us|, guards := {}, db := w.db + Clauses(us[w.next..]) + more)
  }

  /** From one round to the next: every failed candidate is excluded by a new core, the others are
      accepted and blocked for good, the cores are thawed, and the failed points bound the next start. */
  ghost predicate Advance(R: Round, s: State, R': Round, s': State, diagnoses: Db) {
    var hard, lits := R.I.hard, Literals(diagnoses);
    && Failing(hard, s.entries) != {}
    && (forall c | c in diagnoses :: Entails(hard, c)) && DbBelow(diagnoses, R.I.n)
    && (forall e | e in s.entries && !SatDb(hard, e.model) :: Excluded(e, diagnoses))
    && |R'.root| == |R.I.p.objs| && Infimum(R'.root, Failing(hard, s.entries))
    && R' == Round(R.I, R.cores + diagnoses, R.frozen - lits, R.slice + Thawed(R.frozen, lits),
                   R.accepted + Passing(hard, s.entries), R.hardened + PassedVars(hard, s), R'.root, R.stride)
    && s' == State([R'.root], {R'.root}, 0, s.updates, {}, s.nVars, s.softBlocks - Passing(hard, s.entries), [], {},
                   s'.workers)
    && |s'.workers| == |s.workers|
    && forall i | 0 <= i < |s.workers| ::
        s.workers[i].next <= |s.updates|
        && s'.workers[i] == Renewed(s.workers[i], s.updates, diagnoses + Units(PassedVars(hard, s)))
  }

  /** A run of the whole loop: rounds that end when a worker leaves, each prepared by the one before. */
  ghost predicate Master(I: Instance, stages: seq<Stage>) {
    && |stages| > 0
    && (forall k | 0 <= k < |stages| :: Steps(stages[k].round, stages[k].run))
    && Start(I, stages[0].round, stages[0].run[0])
    && forall k | 0 <= k < |stages| - 1 :: Follows(stages[k], stages[k + 1])
  }

  ghost predicate Follows(st: Stage, st': Stage) {
    && |st.run| > 0 && |st'.run| > 0 && Finished(Last(st.run))
    && exists diagnoses :: Advance(st.round, Last(st.run), st'.round, st'.run[0], diagnoses)
  }

  // ---------------------------------------------------------------- the first round

  lemma StartIsReady(I: Instance, R: Round, s: State)
    requires ValidInstance(I) && Start(I, R, s)
    ensures ValidRound(R) && Ready(R, s)
  {
    hide ValidInstance, FreezesSingles, ValidRound, Shared, WorkerInv, Zeros;
    StartIsValid(I, R, s);
    StartShares(R, s);
    forall w | w in s.workers
      ensures WorkerInv(R, s.updates, s.blocks, w)
    {
      StartWorker(R, w);
    }
  }

  lemma StartShares(R: Round, s: State)
    requires s.updates == [] && s.softBlocks == map[] && s.blocks == {} && s.entries == [] && s.found == {}
    requires R.I.p.base <= s.nVars
    ensures Shared(R, s)
  {
    hide Searched, Rel, BlocksFound, Logged, FromSlice;
    NothingLeft(Rel(R), R.accepted);
  }

  lemma StartIsValid(I: Instance, R: Round, s: State)
    requires ValidInstance(I) && Start(I, R, s)
    ensures ValidRound(R)
  {
    hide Frozen, FreezesSingles, ValidInstance, Valid, OwnRoots, StandsFor, RootsAreNew, Relaxed, SlicedRoots;
    BuildFreezes(I.p.objs, R.frozen);
    RelaxedIsValid(R.Part());
    assert |R.Keys()| == |I.p.objs|;
  }

  lemma StartWorker(R: Round, w: Worker)
    requires R.cores == {} && R.accepted == {} && R.hardened == {}
    requires w.pc == Idle && w.next == 0 && w.guards == {} && w.db == R.I.p.hard
    ensures WorkerInv(R, [], {}, w)
  {
    assert Clauses([][..0]) == {} && Units({}) == {};
  }

  // ---------------------------------------------------------------- from round to round

  /** The points of models with the frozen literals false lie within the last keys of the slice. */
  lemma PointWithinBounds(R: Relaxation, m: Assignment)
    requires ValidRelaxation(R) && SatDb(R.I.p.hard, m) && forall l | l in R.frozen :: !Holds(l, m)
    ensures Dominates(Eval(R.I.p, m), Bounds(SlicedRoots(R.I.p.objs, R.I.p.roots, R.slice)))
  {
    var R0 := R.(cores := {});
    FewerCores(R);
    RelaxedIsValid(R0);
    RelaxedModel(R0, m);
    hide ValidInstance, Frozen, StandsFor, OwnRoots, DbBelow, Valid, RootsAreNew;
    assert SatDb({}, m);
    var r := Relaxed(R0);
    assert Eval(r, m) == Eval(R.I.p, m);
    forall i | 0 <= i < |r.objs|
      ensures Value(r.objs[i], m) <= LastValue(r.roots[i])
    {
      ValueWithinKeys(r, i, m);
    }
  }

  lemma FewerCores(R: Relaxation)
    requires ValidRelaxation(R)
    ensures ValidRelaxation(R.(cores := {}))
  {
  }

  lemma ValueWithinKeys(r: Problem, i: nat, m: Assignment)
    requires Valid(r) && i < |r.objs| && SatDb(r.hard, m)
    ensures Value(r.objs[i], m) <= LastValue(r.roots[i])
  {
    assert EncodesObjective(r, i);
    var j :| 1 <= j < |r.roots[i]| && r.roots[i][j].key == Value(r.objs[i], m) + 1;
    assert j < |r.roots[i]| - 1 ==> r.roots[i][j].key < r.roots[i][|r.roots[i]| - 1].key;
  }

  /** A candidate's model satisfies the cores with the frozen literals false, and has the candidate's point. */
  lemma CandidateModel(R: Round, s: State, e: Entry)
    requires ValidRound(R) && Shared(R, s) && e in s.entries
    ensures SatDb(R.I.p.hard, e.model) && SatDb(R.cores, e.model) && forall l | l in R.frozen :: !Holds(l, e.model)
    ensures e.point == Eval(R.I.p, e.model) && e.point in Points(s.entries) && !Covered(R.accepted, e.point)
  {
    RelaxedIsValid(R.Part());
    hide ValidInstance, Frozen, Valid, OwnRoots, StandsFor, Log, Logged, BlocksFound, Eval, Searched, DbBelow;
    EntryIsPoint(Rel(R), R.accepted, s.found, s.entries, e);
    RelaxedModel(R.Part(), e.model);
    SameFeasible(Relaxed(R.Part()), Rel(R));
  }

  lemma AdvancedRound(R: Round, s: State, R': Round, s': State, diagnoses: Db)
    requires ValidRound(R) && Shared(R, s) && Advance(R, s, R', s', diagnoses)
    ensures ValidRound(R')
  {
    var lits := Literals(diagnoses);
    ThawKeepsFrozen(R.I.p.objs, R.cores, R.frozen, R.slice, diagnoses, lits);
    BelowBoth(R.cores, diagnoses, R.I.n);
    hide ValidInstance, Frozen, DbBelow, Shared, Eval, Bounds, Excluded, Entails, Renewed;
    var e := SomeFails(R.I.hard, s.entries);
    CandidateModel(R, s, e);
    PointWithinBounds(R'.Part(), e.model);
    InfimumIsBelow(R'.root, R.I.hard, s.entries, e);
    DominatesTransitive(R'.root, e.point, Bounds(R'.Keys()));
  }

  lemma InfimumIsBelow(root: Point, hard: Db, es: seq<Entry>, e: Entry)
    requires Infimum(root, Failing(hard, es)) && e in es && !SatDb(hard, e.model)
    ensures Dominates(root, e.point)
  {
    DominatesItself(root);
    assert e.point in Failing(hard, es);
  }

  lemma BelowBoth(s: Db, t: Db, n: nat)
    requires DbBelow(s, n) && DbBelow(t, n)
    ensures DbBelow(s + t, n)
  {
  }

  /** What is open for the next round was open for this one. */
  lemma ExtendedBefore(R: Round, R': Round, us: seq<Update>, e: Assignment)
    requires R'.I == R.I && R.cores <= R'.cores && R.accepted <= R'.accepted && Extended(R', us, e)
    ensures Extended(R, us, e)
  {
    hide Eval, Dominates;
    if Covered(R.accepted, Eval(R.I.p, e)) {
      CoverGrows(R.accepted, R'.accepted, Eval(R.I.p, e));
    }
  }

  /** The block variables of accepted points are true in extended models. */
  lemma PassedHold(R: Round, s: State, R': Round, e: Assignment)
    requires Shared(R, s) && R'.I == R.I && R'.accepted == R.accepted + Passing(R.I.hard, s.entries) &&
        Extended(R', s.updates, e)
    ensures SatDb(Units(PassedVars(R.I.hard, s)), e)
  {
    hide Log, Searched, BlocksFound, Eval, Dominates;
    forall v | v in PassedVars(R.I.hard, s)
      ensures SatClause({Lit(v, false)}, e)
    {
      var x :| x in s.entries && SatDb(R.I.hard, x.model) && x.point in s.softBlocks && s.softBlocks[x.point] == v;
      assert Logged(s.updates, v, x.point);
      var i :| 0 <= i < |s.updates| && s.updates[i].v == v && s.updates[i].point == x.point;
      assert x.point in R'.accepted;
      assert Lit(v, false) in {Lit(v, false)} && Holds(Lit(v, false), e);
    }
  }

  lemma AdvancedSound(R: Round, s: State, R': Round, s': State, diagnoses: Db, w: Worker)
    requires ValidRound(R) && Shared(R, s) && Advance(R, s, R', s', diagnoses)
    requires WorkerInv(R, s.updates, s.blocks, w) && AllTight(R.I, s.updates)
    ensures SoundFor(R', s.updates, Renewed(w, s.updates, diagnoses + Units(PassedVars(R.I.hard, s))).db)
  {
    InstanceIsValid(R);
    hide ValidInstance, Frozen, Valid, Shared, Clauses, SatDb, Extended, AllTight, Entails, Negates, AllHold,
         Assumptions, Units, PassedVars, Passing, Failing;
    var us, n := s.updates, w.next;
    SomeClauses(us, n);
    forall e: Assignment | Extended(R', us, e)
      ensures SatDb(w.db + Clauses(us[n..]) + (diagnoses + Units(PassedVars(R.I.hard, s))), e)
    {
      ExtendedBefore(R, R', us, e);
      LogIsOk(R, s);
      LogHolds(R, us, s.nVars, e);
      assert SatDb(w.db, e);
      SatBoth(w.db, Clauses(us[..n]), Clauses(us[n..]), e);
      PassedHold(R, s, R', e);
      ExtendedCores(R', us, e);
      SatAll(w.db + Clauses(us[n..]), R.cores, diagnoses, Units(PassedVars(R.I.hard, s)), e);
    }
  }

  lemma LogIsOk(R: Round, s: State)
    requires Shared(R, s)
    ensures Log(R.I, s.updates, s.nVars)
  {
  }

  lemma ExtendedCores(R: Round, us: seq<Update>, e: Assignment)
    requires Extended(R, us, e)
    ensures SatDb(R.cores, e)
  {
  }

  lemma SatAll(db: Db, cores: Db, more: Db, units: Db, e: Assignment)
    requires SatDb(db, e) && SatDb(cores + more, e) && SatDb(units, e)
    ensures SatDb(db + (more + units), e)
  {
  }

  lemma UnitsBoth(s: set<nat>, t: set<nat>)
    ensures Units(s + t) == Units(s) + Units(t)
  {
  }

  lemma AdvancedReplays(R: Round, s: State, R': Round, s': State, diagnoses: Db, w: Worker)
    requires Shared(R, s) && Advance(R, s, R', s', diagnoses) && WorkerInv(R, s.updates, s.blocks, w)
    ensures R'.I == R.I && Replays(R', s.updates, Renewed(w, s.updates, diagnoses + Units(PassedVars(R.I.hard, s))))
  {
    hide Log, Searched, BlocksFound, Clauses, SatDb, Entails, SoundFor, Units, Infimum, Excluded, Failing;
    var us, n := s.updates, w.next;
    SomeClauses(us, n);
    assert us[..|us|] == us;
    UnitsBoth(R.hardened, PassedVars(R.I.hard, s));
    forall y | y in R'.accepted
      ensures Barred(R'.hardened, us, y)
    {
      if y in R.accepted {
        assert Barred(R.hardened, us[..n], y);
        var i :| 0 <= i < n && us[..n][i].point == y && us[..n][i].v in R.hardened;
        assert us[i] == us[..n][i];
      } else {
        var e :| e in s.entries && SatDb(R.I.hard, e.model) && e.point == y;
        assert Logged(us, s.softBlocks[y], y);
        var i :| 0 <= i < |us| && us[i].v == s.softBlocks[y] && us[i].point == y;
        assert us[i].v in PassedVars(R.I.hard, s);
      }
    }
  }

  lemma AdvancedWorker(R: Round, s: State, R': Round, s': State, diagnoses: Db, w: Worker)
    requires ValidRound(R) && Shared(R, s) && Advance(R, s, R', s', diagnoses)
    requires WorkerInv(R, s.updates, s.blocks, w)
    ensures WorkerInv(R', s.updates, {}, Renewed(w, s.updates, diagnoses + Units(PassedVars(R.I.hard, s))))
  {
    hide ValidRound, Shared, Advance, SoundFor, Replays, AllTight, Units, PassedVars, Assumptions, Entails, Negates,
         SatDb, AllHold, Clauses;
    if AllTight(R.I, s.updates) {
      AdvancedSound(R, s, R', s', diagnoses, w);
    }
    AdvancedReplays(R, s, R', s', diagnoses, w);
  }

  lemma AdvancedShared(R: Round, s: State, R': Round, s': State, diagnoses: Db)
    requires Shared(R, s) && Advance(R, s, R', s', diagnoses)
    ensures Shared(R', s')
  {
    hide Log, Logged, Searched, Infimum, Excluded, Entails, Failing, Passing, PassedVars, Renewed, Rel;
    NothingLeft(Rel(R'), R'.accepted);
  }

  lemma AdvancedWorkers(R: Round, s: State, R': Round, s': State, diagnoses: Db)
    requires ValidRound(R) && Shared(R, s) && Advance(R, s, R', s', diagnoses)
    requires forall w | w in s.workers :: WorkerInv(R, s.updates, s.blocks, w)
    ensures forall w | w in s'.workers :: w.pc == Idle && WorkerInv(R', s'.updates, s'.blocks, w)
  {
    hide ValidRound, Shared, WorkerInv, AllTight, Infimum, Excluded, Entails, Failing, Passing, PassedVars, Units,
         Clauses, DbBelow;
    forall i | 0 <= i < |s.workers|
      ensures s'.workers[i].pc == Idle && WorkerInv(R', s'.updates, s'.blocks, s'.workers[i])
    {
      assert s.workers[i] in s.workers;
      AdvancedWorker(R, s, R', s', diagnoses, s.workers[i]);
    }
  }

  /** A finished round hands over: the next one starts with everybody idle and the whole log replayed. */
  lemma AdvanceIsReady(R: Round, s: State, R': Round, s': State, diagnoses: Db)
    requires ValidRound(R) && Inv(R, s) && Advance(R, s, R', s', diagnoses)
    ensures ValidRound(R') && Ready(R', s')
  {
    hide QueueInv;
    AdvancedRound(R, s, R', s', diagnoses);
    AdvancedShared(R, s, R', s', diagnoses);
    AdvancedWorkers(R, s, R', s', diagnoses);
    hide ValidRound, Shared, WorkerInv, AllTight, Infimum, Excluded, Entails, Failing, Passing, PassedVars, Renewed;
  }

  // ---------------------------------------------------------------- what the loop promises

  /** Every stage starts ready, with cores of the formula. As long as all blocks are tight, the accepted
      points are Pareto-optimal. */
  ghost predicate StageInv(I: Instance, st: Stage) {
    && |st.run| > 0 && st.round.I == I && ValidRound(st.round) && Ready(st.round, st.run[0])
    && (forall c | c in st.round.cores :: Entails(I.hard, c))
    && (AllTight(I, st.run[0].updates) ==> st.round.accepted <= ParetoFront(FeasiblePoints(Whole(I))))
  }

  /** In a finished stage nobody explores. If all blocks are tight, accepted points and candidates cover
      the relaxation, and the candidates that satisfy the formula are Pareto-optimal. */
  lemma StageFinishes(I: Instance, st: Stage)
    requires StageInv(I, st) && Steps(st.round, st.run) && Finished(Last(st.run))
    ensures Inv(st.round, Last(st.run)) && Done(st.round, Last(st.run)) && st.run[0].updates <= Last(st.run).updates
    ensures AllTight(I, Last(st.run).updates) ==>
              Passing(I.hard, Last(st.run).entries) <= ParetoFront(FeasiblePoints(Whole(I)))
  {
    hide ValidRound, Ready, Next, Shared, WorkerInv, QueueInv, AllCovered, Entails, ParetoFront, FeasiblePoints, Whole,
         Passing, AllTight;
    RoundIsComplete(st.round, st.run, |st.run| - 1);
    UpdatesGrow(st.round, st.run, |st.run| - 1);
    if AllTight(I, Last(st.run).updates) {
      RoundPassing(st.round, Last(st.run));
    }
  }

  lemma {:induction false} UpdatesGrow(R: Round, run: seq<State>, k: nat)
    requires Steps(R, run) && k < |run|
    ensures run[0].updates <= run[k].updates
  {
    hide Step;
    if k > 0 {
      UpdatesGrow(R, run, k - 1);
      assert Next(R, run[k - 1], run[k - 1 + 1]);
      var i, act :| 0 <= i < |run[k - 1].workers| && Step(R, run[k - 1], i, act, run[k]);
      StepFrame(R, run[k - 1], i, act, run[k]);
    }
  }

  lemma RoundPassing(R: Round, s: State)
    requires ValidRound(R) && Shared(R, s) && AllCovered(R, s) && forall c | c in R.cores :: Entails(R.I.hard, c)
    ensures Passing(R.I.hard, s.entries) <= ParetoFront(FeasiblePoints(Whole(R.I)))
  {
    hide ValidInstance, Frozen, Log, Logged, BlocksFound, FeasiblePoints, Relaxed, Whole, ParetoFront, CoversAll,
         Entails, Passing, Dominates;
    RelIsValid(R);
    SearchedRelaxed(R, s);
    PassingIsOptimal(R.Part(), R.accepted, s.found, s.entries);
  }

  /** The bounds on expansions do not matter to what was searched. */
  lemma SearchedRelaxed(R: Round, s: State)
    requires Searched(Rel(R), R.accepted, s.found, s.entries)
    ensures Searched(Relaxed(R.Part()), R.accepted, s.found, s.entries)
  {
    SameFeasible(Relaxed(R.Part()), Rel(R));
  }

  lemma StageAdvances(I: Instance, st: Stage, st': Stage, diagnoses: Db)
    requires StageInv(I, st) && Steps(st.round, st.run) && Finished(Last(st.run))
    requires |st'.run| > 0 && Advance(st.round, Last(st.run), st'.round, st'.run[0], diagnoses)
    ensures StageInv(I, st')
    ensures Admitted(I.n, st'.round.cores) < Admitted(I.n, st.round.cores)
  {
    hide ValidRound, Ready, Next, Inv, AllCovered, Entails, ParetoFront, FeasiblePoints, Whole, Passing, Failing,
         Infimum, Excluded, PassedVars, Renewed, Admitted, AllTight, Done;
    StageFinishes(I, st);
    AdvanceIsReady(st.round, Last(st.run), st'.round, st'.run[0], diagnoses);
    MoreEntailed(I.hard, st.round.cores, diagnoses);
    InvShares(st.round, Last(st.run));
    CoresShrink(st.round, Last(st.run), st'.round, st'.run[0], diagnoses);
    if AllTight(I, st'.run[0].updates) {
      TightPrefix(I, st.run[0].updates, Last(st.run).updates);
    }
  }

  lemma InvShares(R: Round, s: State)
    requires Inv(R, s)
    ensures Shared(R, s)
  {
  }

  lemma CoresShrink(R: Round, s: State, R': Round, s': State, diagnoses: Db)
    requires ValidRound(R) && Shared(R, s) && Advance(R, s, R', s', diagnoses)
    ensures Admitted(R.I.n, R'.cores) < Admitted(R.I.n, R.cores)
  {
    hide ValidRound, Shared, Entails, SatDb, Passing, PassedVars, Infimum, Renewed, LitsBelow, Units;
    var e := SomeFails(R.I.hard, s.entries);
    assert Excluded(e, diagnoses);
    CandidateModel(R, s, e);
    var c :| c in diagnoses && !SatClause(c, e.model);
    assert LitsBelow(c, R.I.n);
    CoresAreBelow(R);
    AdmittedShrinks(R.I.n, R.cores, diagnoses, e.model, c);
  }

  lemma CoresAreBelow(R: Round)
    requires ValidRound(R)
    ensures DbBelow(R.cores, R.I.n)
  {
  }

  lemma {:induction false} StagesKeepInv(I: Instance, stages: seq<Stage>, k: nat)
    requires ValidInstance(I) && Master(I, stages) && k < |stages|
    ensures StageInv(I, stages[k])
  {
    hide ValidInstance, Steps, Start, Advance, Finished, StageInv;
    if k == 0 {
      assert Steps(stages[0].round, stages[0].run);
      FirstStage(I, stages[0]);
    } else {
      StagesKeepInv(I, stages, k - 1);
      assert Steps(stages[k - 1].round, stages[k - 1].run) && Steps(stages[k].round, stages[k].run);
      assert Follows(stages[k - 1], stages[k - 1 + 1]);
      var diagnoses :| Advance(stages[k - 1].round, Last(stages[k - 1].run), stages[k].round, stages[k].run[0],
          diagnoses);
      StageAdvances(I, stages[k - 1], stages[k], diagnoses);
    }
  }

  lemma FirstStage(I: Instance, st: Stage)
    requires ValidInstance(I) && Steps(st.round, st.run) && Start(I, st.round, st.run[0])
    ensures StageInv(I, st)
  {
    StartIsReady(I, st.round, st.run[0]);
    hide ValidInstance, ValidRound, Ready;
  }

  /** In every run of the loop without a loose block, accepted points are Pareto-optimal, and when all
      candidates of a finished round satisfy the formula, they complete the Pareto front. */
  lemma ExactUnlessLoose(I: Instance, stages: seq<Stage>, k: nat)
    requires ValidInstance(I) && Master(I, stages) && k < |stages|
    ensures |stages[k].run| > 0 && Last(stages[k].run) == stages[k].run[|stages[k].run| - 1]
    ensures AllTight(I, Last(stages[k].run).updates) ==>
        stages[k].round.accepted <= ParetoFront(FeasiblePoints(Whole(I)))
    ensures var s := Last(stages[k].run); AllTight(I, s.updates) && Finished(s) && Failing(I.hard, s.entries) == {} ==>
              stages[k].round.accepted + Points(s.entries) == ParetoFront(FeasiblePoints(Whole(I)))
  {
    hide ValidInstance, ValidRound, Ready, Next, Start, AllTight, Finished, FeasiblePoints, ParetoFront, Whole, Inv,
         AllCovered, Passing, Failing, Points, Entails, Follows;
    StagesKeepInv(I, stages, k);
    assert Steps(stages[k].round, stages[k].run);
    var R, s := stages[k].round, Last(stages[k].run);
    UpdatesGrow(R, stages[k].run, |stages[k].run| - 1);
    if AllTight(I, s.updates) {
      TightPrefix(I, stages[k].run[0].updates, s.updates);
      if Finished(s) && Failing(I.hard, s.entries) == {} {
        StageFinishes(I, stages[k]);
        AllPass(I.hard, s.entries);
        InvShares(R, s);
        StageCompletes(R, s);
      }
    }
  }

  lemma StageCompletes(R: Round, s: State)
    requires ValidRound(R) && Shared(R, s) && AllCovered(R, s) && forall c | c in R.cores :: Entails(R.I.hard, c)
    requires R.accepted + Points(s.entries) <= ParetoFront(FeasiblePoints(Whole(R.I)))
    ensures R.accepted + Points(s.entries) == ParetoFront(FeasiblePoints(Whole(R.I)))
  {
    hide ValidInstance, Frozen, DbBelow, Log, Logged, BlocksFound, FeasiblePoints, Relaxed, Whole, ParetoFront,
         CoversAll, Entails, Valid, OwnRoots, Points, Dominates;
    RelIsValid(R);
    SearchedRelaxed(R, s);
    SearchedFronts(Relaxed(R.Part()), R.accepted, s.found, s.entries);
    AllAcceptedIsTheFront(R.Part(), R.accepted, s.found, Points(s.entries));
  }

  /** With equal weights no run ever logs a loose block. */
  lemma UniformIsTightLog(I: Instance, us: seq<Update>, nVars: nat)
    requires ValidInstance(I) && AllUniform(I.p.objs) && Log(I, us, nVars)
    ensures AllTight(I, us)
  {
    hide ValidInstance, Tight, FromSlice;
    forall i | 0 <= i < |us|
      ensures Tight(I.p, us[i].v, us[i].point, us[i].clause)
    {
      UniformIsNeverLoose(I, us[i].v, us[i].point, us[i].clause);
    }
  }

  lemma UniformStageIsTight(I: Instance, st: Stage)
    requires ValidInstance(I) && AllUniform(I.p.objs) && StageInv(I, st) && Steps(st.round, st.run)
    ensures AllTight(I, Last(st.run).updates)
  {
    hide ValidInstance, AllUniform, ValidRound, Next, WorkerInv, QueueInv, Searched, Logged, BlocksFound, Log;
    RunKeepsInv(st.round, st.run, |st.run| - 1);
    UniformIsTightLog(I, Last(st.run).updates, Last(st.run).nVars);
  }

  /** When in every objective all positive weights are equal, every run of the loop is exact: accepted points
      are Pareto-optimal, and a finished round without a rejection completes the Pareto front. */
  lemma ParallelHittingSetsIsExact(I: Instance, stages: seq<Stage>, k: nat)
    requires ValidInstance(I) && AllUniform(I.p.objs) && Master(I, stages) && k < |stages|
    ensures stages[k].round.accepted <= ParetoFront(FeasiblePoints(Whole(I))) && |stages[k].run| > 0
    ensures var s := Last(stages[k].run); Finished(s) && Failing(I.hard, s.entries) == {} ==>
              stages[k].round.accepted + Points(s.entries) == ParetoFront(FeasiblePoints(Whole(I)))
  {
    hide ValidInstance, AllUniform, Steps, Start, AllTight, Finished, StageInv, Failing, Points, ParetoFront,
         FeasiblePoints, Whole, Follows;
    StagesKeepInv(I, stages, k);
    assert Steps(stages[k].round, stages[k].run);
    ExactUnlessLoose(I, stages, k);
    UniformStageIsTight(I, stages[k]);
  }

  /** The loop ends: every further round excludes an assignment that the cores admitted. */
  lemma {:induction false} RoundsAreBounded(I: Instance, stages: seq<Stage>, k: nat)
    requires ValidInstance(I) && Master(I, stages) && k < |stages|
    ensures k + |Admitted(I.n, stages[k].round.cores)| <= |Admitted(I.n, {})|
  {
    hide ValidInstance, Steps, Advance, Finished, StageInv, Admitted;
    if k > 0 {
      RoundsAreBounded(I, stages, k - 1);
      StagesKeepInv(I, stages, k - 1);
      assert Steps(stages[k - 1].round, stages[k - 1].run) && Steps(stages[k].round, stages[k].run);
      assert Follows(stages[k - 1], stages[k - 1 + 1]);
      var diagnoses :| Advance(stages[k - 1].round, Last(stages[k - 1].run), stages[k].round, stages[k].run[0],
          diagnoses);
      StageAdvances(I, stages[k - 1], stages[k], diagnoses);
      SmallerSet(Admitted(I.n, stages[k].round.cores), Admitted(I.n, stages[k - 1].round.cores));
    }
  }
}
