/** Parallel P-minimal never hangs: whatever has happened so far, some worker can move on, and with an
    oracle that answers every worker reaches a refutation without assumptions. */
module ParPMinimalProgress {
  import opened Cnf
  import opened Pareto
  import opened Encoding
  import opened ParallelMO
  import opened ParPMinimal

  ghost predicate AllDone(s: State) {
    forall w | w in s.workers :: w.pc == Done
  }

  /** The step is neither mere sharing nor an oracle call without an answer. */
  predicate MovesOn(act: Action) {
    !act.ShareClauses? && !act.Pull? && !act.AddCore? && !act.Undef?
  }

  // ---------------------------------------------------------------- what is left to do

  /** The steps that a worker needs at most until it is done, new models not counted; one that is
      about to block a point that it rejects already needs more. */
  ghost function Steps(p: Problem, w: Worker): nat {
    match w.pc
    case Done => 0
    case HasModel => 5
    case Publishing => if Rejects(p, w.db, w.ul) then 10 else 4
    case Blocking => if Rejects(p, w.db, w.ul) then 9 else 3
    case Descending => 7
    case _ => 6
  }

  ghost function StepsOf(p: Problem): Worker -> nat {
    (w: Worker) => Steps(p, w)
  }

  ghost function Work(p: Problem, s: State): nat {
    SumOf(StepsOf(p), s.workers)
  }

  ghost function UnrejectedBy(p: Problem): Worker -> nat {
    (w: Worker) => |Unrejected(p, w.db)|
  }

  /** The feasible points that a worker does not reject yet, over all workers. */
  ghost function AllUnrejected(p: Problem, s: State): nat {
    SumOf(UnrejectedBy(p), s.workers)
  }

  /** Less is left: fewer points to reject, or as many and less work. */
  ghost predicate Less(p: Problem, s': State, s: State) {
    || AllUnrejected(p, s') < AllUnrejected(p, s)
    || (AllUnrejected(p, s') <= AllUnrejected(p, s) && Work(p, s') < Work(p, s))
  }

  /** The worker has less left: fewer points to reject, or as many and fewer steps. */
  ghost predicate LessOf(p: Problem, w': Worker, w: Worker) {
    || |Unrejected(p, w'.db)| < |Unrejected(p, w.db)|
    || (|Unrejected(p, w'.db)| <= |Unrejected(p, w.db)| && Steps(p, w') < Steps(p, w))
  }

  // ---------------------------------------------------------------- every worker can move

  lemma SampleStep(p: Problem, s: State, i: nat) returns (act: Action, s': State)
    requires i < |s.workers| && s.workers[i].pc == Sampling
    ensures Step(p, s, i, act, s') && MovesOn(act) && LessOf(p, s'.workers[i], s.workers[i])
  {
    hide SatDb, Entails, Unrejected;
    var w := s.workers[i];
    var sat, a, conflict := OracleAnswers(w.db, {});
    if sat {
      act, s' := SampleSat({}, a), SetWorker(s, i, w.(pc := HasModel, model := a));
    } else {
      NegatesNothing(conflict);
      act, s' := SampleUnsat({}, conflict), SetWorker(s, i, w.(pc := Done, conflict := conflict));
    }
  }

  lemma DescendStep(p: Problem, s: State, i: nat) returns (act: Action, s': State)
    requires i < |s.workers| && s.workers[i].pc == Descending
    ensures Step(p, s, i, act, s') && MovesOn(act) && LessOf(p, s'.workers[i], s.workers[i])
  {
    hide SatDb, AllHold, Entails, Negates, BelowLits, Unrejected, Blocks;
    var w := s.workers[i];
    var sat, a, conflict := OracleAnswers(w.db, BelowLits(p.roots, w.ul));
    if sat {
      act, s' := DescendSat(a), SetWorker(s, i, w.(pc := HasModel, model := a));
    } else {
      act, s' := DescendUnsat(conflict), SetWorker(s, i, w.(pc := Free, db := w.db + Blocks(p, {w.ul})));
      UnrejectedShrinks(p, w.db, w.db + Blocks(p, {w.ul}));
    }
  }

  lemma FreeStep(p: Problem, s: State, i: nat) returns (act: Action, s': State)
    requires i < |s.workers| && s.workers[i].pc == Free
    ensures Step(p, s, i, act, s') && MovesOn(act) && LessOf(p, s'.workers[i], s.workers[i])
  {
    hide SatDb, AllHold, Entails, Negates, Unrejected;
    var w := s.workers[i];
    var sat, a, conflict := OracleAnswers(w.db, {});
    if sat {
      act, s' := FreeSat(a), SetWorker(s, i, w.(pc := HasModel, model := a));
    } else {
      act, s' := FreeUnsat(conflict), SetWorker(s, i, w.(pc := Done, conflict := conflict));
    }
  }

  /** The point of a model is not rejected yet. */
  lemma ReadStep(p: Problem, s: State, i: nat) returns (act: Action, s': State)
    requires i < |s.workers| && s.workers[i].pc == HasModel && WorkerInv(p, s.archive, s.workers[i])
    ensures Step(p, s, i, act, s') && MovesOn(act) && LessOf(p, s'.workers[i], s.workers[i])
  {
    hide Eval, SatDb, Sound, Rejects, Unrejected;
    var w := s.workers[i];
    SatFewer(p.hard, w.db, w.model);
    ModelNotRejected(p, w.db, w.model);
    act, s' := Read, SetWorker(s, i, w.(pc := Publishing, ul := Eval(p, w.model)));
  }

  lemma PublishStep(p: Problem, s: State, i: nat) returns (act: Action, s': State)
    requires i < |s.workers| && s.workers[i].pc == Publishing
    ensures Step(p, s, i, act, s') && MovesOn(act) && LessOf(p, s'.workers[i], s.workers[i])
  {
    hide Rejects, Unrejected, BlockClause;
    var w := s.workers[i];
    assert w.db + Blocks(p, {}) == w.db;
    act := Publish({});
    s' := SetWorker(s, i, w.(pc := Blocking, db := w.db + Blocks(p, {}))).(archive := s.archive + {w.ul});
  }

  /** Blocking a point that was not rejected yet leaves fewer points. */
  lemma BlockStep(p: Problem, s: State, i: nat) returns (act: Action, s': State)
    requires Valid(p) && Inv(p, s) && i < |s.workers| && s.workers[i].pc == Blocking
    ensures Step(p, s, i, act, s') && MovesOn(act) && LessOf(p, s'.workers[i], s.workers[i])
  {
    hide Valid, Sound, Rejects, FeasiblePoints, BlockClause, SatDb;
    var w := s.workers[i];
    assert WorkerInv(p, s.archive, w);
    var db := w.db + Blocks(p, {w.ul});
    act, s' := Block, SetWorker(s, i, w.(pc := Descending, db := db));
    UnrejectedShrinks(p, w.db, db);
    if !Rejects(p, w.db, w.ul) {
      var a := FeasiblePoint(p, w.ul);
      SizeOfEval(p, a);
      assert BlockClause(p.roots, w.ul) in Blocks(p, {w.ul});
      BlockRejects(p, db, w.ul);
      assert w.ul in Unrejected(p, w.db) && w.ul !in Unrejected(p, db);
      SmallerSet(Unrejected(p, db), Unrejected(p, w.db));
    }
  }

  lemma SizeOfEval(p: Problem, a: Assignment)
    requires Valid(p)
    ensures |Eval(p, a)| == |p.roots|
  {
  }

  /** Unless all workers are done, any of those that are not can move on, and less is left to do then. */
  lemma Progress(p: Problem, s: State, i: nat) returns (act: Action, s': State)
    requires Valid(p) && Inv(p, s) && i < |s.workers| && s.workers[i].pc != Done
    ensures Step(p, s, i, act, s') && MovesOn(act) && Less(p, s', s) && s' != s
  {
    hide Valid, Step, WorkerInv, Steps, Unrejected;
    assert WorkerInv(p, s.archive, s.workers[i]);
    match s.workers[i].pc {
      case Sampling => act, s' := SampleStep(p, s, i);
      case HasModel => act, s' := ReadStep(p, s, i);
      case Publishing => act, s' := PublishStep(p, s, i);
      case Blocking => act, s' := BlockStep(p, s, i);
      case Descending => act, s' := DescendStep(p, s, i);
      case Free => act, s' := FreeStep(p, s, i);
    }
    OneWorkerMoves(p, s, i, act, s');
    SumUpdate(UnrejectedBy(p), s.workers, i, s'.workers[i]);
    SumUpdate(StepsOf(p), s.workers, i, s'.workers[i]);
  }

  lemma OneWorkerMoves(p: Problem, s: State, i: nat, act: Action, s': State)
    requires i < |s.workers| && Step(p, s, i, act, s')
    ensures |s'.workers| == |s.workers| && s'.workers == s.workers[i := s'.workers[i]]
  {
    hide SatDb, AllHold, Entails, Negates, BelowLits, Eval, Blocks;
  }

  // ---------------------------------------------------------------- every run can finish

  /** In no run is there a state in which somebody is not done and cannot move on. */
  lemma NeverStuck(p: Problem, run: seq<State>, k: nat, i: nat)
    requires Valid(p) && Run(p, run) && k < |run| && i < |run[k].workers| && run[k].workers[i].pc != Done
    ensures exists act, s' :: Step(p, run[k], i, act, s') && MovesOn(act) && s' != run[k]
  {
    RunKeepsInv(p, run, k);
    hide Valid, Inv, Step, Run, Less;
    var act, s' := Progress(p, run[k], i);
  }

  function Last(run: seq<State>): State
    requires run != []
  {
    run[|run| - 1]
  }

  /** Unless all workers are done, the run goes on with less to do. */
  lemma GoOn(p: Problem, run: seq<State>) returns (more: seq<State>)
    requires Valid(p) && Run(p, run) && !AllDone(Last(run))
    ensures Run(p, more) && run <= more && Less(p, Last(more), Last(run))
  {
    RunKeepsInv(p, run, |run| - 1);
    RunStarts(p, run);
    hide Valid, Inv, Step, Run, Less, MovesOn;
    var w :| w in Last(run).workers && w.pc != Done;
    var i :| 0 <= i < |Last(run).workers| && Last(run).workers[i] == w;
    var act, s' := Progress(p, Last(run), i);
    OneMoreState(p, run, i, act, s');
    more := run + [s'];
  }

  lemma RunStarts(p: Problem, run: seq<State>)
    requires Run(p, run)
    ensures run != []
  {
  }

  lemma OneMoreState(p: Problem, run: seq<State>, i: nat, act: Action, s': State)
    requires Run(p, run) && i < |Last(run).workers| && Step(p, Last(run), i, act, s')
    ensures Run(p, run + [s'])
  {
    assert Next(p, Last(run), s');
    hide Init, Next, Step;
    var more := run + [s'];
    forall k | 0 <= k < |more| - 1
      ensures Next(p, more[k], more[k + 1])
    {
      if k < |run| - 1 {
        assert Next(p, run[k], run[k + 1]);
      }
    }
  }

  /** Every run can go on until all workers are done. */
  lemma {:induction false} CanFinish(p: Problem, run: seq<State>) returns (whole: seq<State>)
    requires Valid(p) && Run(p, run)
    ensures Run(p, whole) && run <= whole && AllDone(Last(whole))
    decreases AllUnrejected(p, Last(run)), Work(p, Last(run))
  {
    hide Valid, Run, AllDone, AllUnrejected, Work;
    RunStarts(p, run);
    whole := run;
    if !AllDone(Last(run)) {
      var more := GoOn(p, run);
      RunStarts(p, more);
      whole := CanFinish(p, more);
    }
  }

  lemma {:induction false} SameWorkers(p: Problem, run: seq<State>, k: nat)
    requires Run(p, run) && k < |run|
    ensures |run[k].workers| == |run[0].workers|
  {
    hide Step;
    if k > 0 {
      SameWorkers(p, run, k - 1);
      assert Next(p, run[k - 1], run[k - 1 + 1]);
      var i, act :| 0 <= i < |run[k - 1].workers| && Step(p, run[k - 1], i, act, run[k]);
      OneWorkerMoves(p, run[k - 1], i, act, run[k]);
    }
  }

  /** From every state that a run reaches with at least one worker, all workers can come to their
      refutation, and then the archive has the Pareto front. */
  lemma EveryRunCanFinish(p: Problem, run: seq<State>, k: nat) returns (whole: seq<State>)
    requires Valid(p) && Run(p, run) && k < |run| && run[0].workers != []
    ensures Run(p, whole) && run[..k + 1] <= whole
    ensures AllDone(Last(whole)) && ParetoFront(Last(whole).archive) == ParetoFront(FeasiblePoints(p))
  {
    hide Valid, Init, Next, FeasiblePoints, ParetoFront;
    var start := run[..k + 1];
    forall j | 0 <= j < |start| - 1
      ensures Next(p, start[j], start[j + 1])
    {
      assert Next(p, run[j], run[j + 1]);
    }
    whole := CanFinish(p, start);
    SameWorkers(p, whole, |whole| - 1);
    assert Last(whole).workers[0] in Last(whole).workers;
    RefutationMeansExact(p, whole, |whole| - 1);
  }
}
