/** Parallel P-minimal: every worker descends below its last solution and then looks elsewhere,
    sharing solutions and learnt clauses with the others at any time. */
module ParPMinimal {
  import opened Cnf
  import opened Pareto
  import opened Encoding
  import opened ParallelMO

  datatype Pc = Sampling | HasModel | Publishing | Blocking | Descending | Free | Done

  datatype Worker = Worker(pc: Pc, ul: Point, model: Assignment, conflict: Clause, db: Db)

  datatype State = State(archive: set<Point>, workers: seq<Worker>)

  datatype Action =
    | ShareClauses(k: nat, clause: Clause)
    | Pull(pulled: set<Point>)
    | AddCore
    | SampleSat(sampled: set<Lit>, a: Assignment)
    | SampleUnsat(sampled: set<Lit>, conflict: Clause)
    | Read
    | Publish(pulled: set<Point>)
    | Block
    | DescendSat(a: Assignment)
    | DescendUnsat(conflict: Clause)
    | FreeSat(a: Assignment)
    | FreeUnsat(conflict: Clause)
    | Undef

  function SetWorker(s: State, i: nat, w: Worker): State
    requires i < |s.workers|
  {
    s.(workers := s.workers[i := w])
  }

  ghost predicate Init(p: Problem, s: State) {
    s.archive == {} && forall w | w in s.workers :: w.pc == Sampling && w.conflict == {} && w.db == p.hard
  }

  /** One step of worker `i`. Worker 0 samples no literals; the others sample any. */
  ghost predicate Step(p: Problem, s: State, i: nat, act: Action, s': State)
    requires i < |s.workers|
  {
    var w := s.workers[i];
    match act
    case ShareClauses(k, clause) =>
      && w.pc in {Sampling, Publishing, Descending, Free} && k < |s.workers| && Entails(s.workers[k].db, clause)
      && s' == SetWorker(s, i, w.(db := w.db + {clause}))
    case Pull(pulled) =>
      && w.pc in {Descending, Free} && pulled <= s.archive
      && s' == SetWorker(s, i, w.(db := w.db + Blocks(p, pulled)))
    case AddCore =>
      && w.pc == Sampling && w.conflict != {}
      && s' == SetWorker(s, i, w.(db := w.db + {w.conflict}))
    case SampleSat(sampled, a) =>
      && w.pc == Sampling && (i == 0 ==> sampled == {}) && SatDb(w.db, a) && AllHold(sampled, a)
      && s' == SetWorker(s, i, w.(pc := HasModel, model := a))
    case SampleUnsat(sampled, conflict) =>
      && w.pc == Sampling && (i == 0 ==> sampled == {}) && Entails(w.db, conflict) && Negates(conflict, sampled)
      && s' == SetWorker(s, i, w.(pc := if conflict == {} then Done else Sampling, conflict := conflict))
    case Read =>
      && w.pc == HasModel
      && s' == SetWorker(s, i, w.(pc := Publishing, ul := Eval(p, w.model)))
    case Publish(pulled) =>
      && w.pc == Publishing && pulled <= s.archive
      && s' == SetWorker(s, i, w.(pc := Blocking, db := w.db + Blocks(p, pulled))).(archive := s.archive + {w.ul})
    case Block =>
      && w.pc == Blocking
      && s' == SetWorker(s, i, w.(pc := Descending, db := w.db + Blocks(p, {w.ul})))
    case DescendSat(a) =>
      && w.pc == Descending && SatDb(w.db, a) && AllHold(BelowLits(p.roots, w.ul), a)
      && s' == SetWorker(s, i, w.(pc := HasModel, model := a))
    case DescendUnsat(conflict) =>
      && w.pc == Descending && Entails(w.db, conflict) && Negates(conflict, BelowLits(p.roots, w.ul))
      && s' == SetWorker(s, i, w.(pc := Free, db := w.db + Blocks(p, {w.ul})))
    case FreeSat(a) =>
      && w.pc == Free && SatDb(w.db, a)
      && s' == SetWorker(s, i, w.(pc := HasModel, model := a))
    case FreeUnsat(conflict) =>
      && w.pc == Free && Entails(w.db, conflict) && Negates(conflict, {})
      && s' == SetWorker(s, i, w.(pc := Done, conflict := conflict))
    case Undef =>
      w.pc in {Sampling, Descending, Free} && s' == s
  }

  ghost predicate Next(p: Problem, s: State, s': State) {
    exists i, act :: 0 <= i < |s.workers| && Step(p, s, i, act, s')
  }

  ghost predicate Run(p: Problem, run: seq<State>) {
    && |run| > 0 && Init(p, run[0])
    && forall k | 0 <= k < |run| - 1 :: Next(p, run[k], run[k + 1])
  }

  // ---------------------------------------------------------------- the invariant

  ghost predicate WorkerInv(p: Problem, archive: set<Point>, w: Worker) {
    && p.hard <= w.db && Sound(p, archive, w.db)
    && (w.pc == Sampling ==> Sound(p, archive, {w.conflict}) || w.conflict == {})
    && (w.pc == HasModel ==> SatDb(w.db, w.model))
    && (w.pc == Publishing ==> w.ul in FeasiblePoints(p))
    && (w.pc in {Blocking, Descending, Free} ==> w.ul in archive)
    && (w.pc == Done ==> CoversAll(archive, FeasiblePoints(p)))
  }

  /** Every clause of every worker is entailed by the formula and the blocks of archived points. */
  ghost predicate Inv(p: Problem, s: State) {
    && s.archive <= FeasiblePoints(p)
    && forall w | w in s.workers :: WorkerInv(p, s.archive, w)
  }

  lemma WorkerInvGrows(p: Problem, archive: set<Point>, more: set<Point>, w: Worker)
    requires WorkerInv(p, archive, w) && archive <= more
    ensures WorkerInv(p, more, w)
  {
    forall q | Covered(archive, q)
      ensures Covered(more, q)
    {
      CoverGrows(archive, more, q);
    }
    SoundGrows(p, archive, more, w.db);
    if Sound(p, archive, {w.conflict}) {
      SoundGrows(p, archive, more, {w.conflict});
    }
  }

  lemma BlocksOfArchive(p: Problem, archive: set<Point>, db: Db, ys: set<Point>)
    requires Valid(p) && Sound(p, archive, db) && archive <= FeasiblePoints(p) && ys <= archive
    ensures Sound(p, archive, db + Blocks(p, ys))
  {
    forall y | y in ys
      ensures Covered(archive, y)
    {
      DominatesItself(y);
    }
    SoundBlocks(p, archive, db, ys);
  }

  lemma SoundConflict(p: Problem, archive: set<Point>, db: Db, c: Clause)
    requires Sound(p, archive, db) && Entails(db, c)
    ensures Sound(p, archive, {c})
  {
  }

  lemma KeepsOwn(p: Problem, s: State, i: nat, act: Action, s': State)
    requires Valid(p) && Inv(p, s) && i < |s.workers| && Step(p, s, i, act, s')
    ensures s'.archive <= FeasiblePoints(p) && s.archive <= s'.archive
    ensures WorkerInv(p, s'.archive, s'.workers[i])
  {
    var w := s.workers[i];
    assert WorkerInv(p, s.archive, w);
    WorkerInvGrows(p, s.archive, s'.archive, w);
    match act {
      case ShareClauses(k, clause) =>
        assert WorkerInv(p, s.archive, s.workers[k]);
        SoundLearnt(p, s.archive, w.db, s.workers[k].db, clause);
      case Pull(pulled) => BlocksOfArchive(p, s'.archive, w.db, pulled);
      case AddCore =>
      case SampleUnsat(_, conflict) =>
        SoundConflict(p, s.archive, w.db, conflict);
        if conflict == {} {
          EmptyConflictCovers(p, s.archive, w.db);
        }
      case Read => ModelIsFeasible(p, w.model);
      case Publish(pulled) => BlocksOfArchive(p, s'.archive, w.db, pulled);
      case Block => BlocksOfArchive(p, s.archive, w.db, {w.ul});
      case DescendUnsat(_) => BlocksOfArchive(p, s.archive, w.db, {w.ul});
      case FreeUnsat(conflict) =>
        NegatesNothing(conflict);
        EmptyConflictCovers(p, s.archive, w.db);
      case _ =>
    }
  }

  lemma StepKeepsInv(p: Problem, s: State, i: nat, act: Action, s': State)
    requires Valid(p) && Inv(p, s) && i < |s.workers| && Step(p, s, i, act, s')
    ensures Inv(p, s')
  {
    KeepsOwn(p, s, i, act, s');
    forall j | 0 <= j < |s'.workers| && j != i
      ensures WorkerInv(p, s'.archive, s'.workers[j])
    {
      assert s'.workers[j] == s.workers[j];
      assert WorkerInv(p, s.archive, s.workers[j]);
      WorkerInvGrows(p, s.archive, s'.archive, s.workers[j]);
    }
  }

  lemma {:induction false} RunKeepsInv(p: Problem, run: seq<State>, k: nat)
    requires Valid(p) && Run(p, run) && k < |run|
    ensures Inv(p, run[k])
  {
    hide Step, Valid;
    if k > 0 {
      RunKeepsInv(p, run, k - 1);
      assert Next(p, run[k - 1], run[k - 1 + 1]);
      var i, act :| 0 <= i < |run[k - 1].workers| && Step(p, run[k - 1], i, act, run[k]);
      StepKeepsInv(p, run[k - 1], i, act, run[k]);
    }
  }

  /** The first worker that gets an unassumed refutation proves that the archive, whoever filled
      it, covers every feasible point: its non-dominated points are the Pareto front. */
  lemma RefutationMeansExact(p: Problem, run: seq<State>, k: nat)
    requires Valid(p) && Run(p, run) && k < |run|
    requires exists w :: w in run[k].workers && w.pc == Done
    ensures CoversAll(run[k].archive, FeasiblePoints(p))
    ensures ParetoFront(run[k].archive) == ParetoFront(FeasiblePoints(p))
  {
    RunKeepsInv(p, run, k);
    var w :| w in run[k].workers && w.pc == Done;
    assert WorkerInv(p, run[k].archive, w);
    CoverHasTheFront(run[k].archive, FeasiblePoints(p));
  }

  /** Every clause in any worker's solver follows from the formula and the blocks of archived points. */
  lemma ClausesAreEntailed(p: Problem, run: seq<State>, k: nat, w: Worker, c: Clause)
    requires Valid(p) && Run(p, run) && k < |run| && w in run[k].workers && c in w.db
    ensures Entails(p.hard + Blocks(p, run[k].archive), c)
  {
    RunKeepsInv(p, run, k);
    assert WorkerInv(p, run[k].archive, w);
    forall a: Assignment | SatDb(p.hard + Blocks(p, run[k].archive), a)
      ensures SatClause(c, a)
    {
      forall y | y in run[k].archive
        ensures !Dominates(y, Eval(p, a))
      {
        var _ := FeasiblePoint(p, y);
        BlockMeaning(p, y, a);
      }
      assert OpenModel(p, run[k].archive, a);
    }
  }
}
