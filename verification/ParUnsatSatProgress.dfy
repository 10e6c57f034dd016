/** Parallel core-guided search never hangs: whatever has happened so far, some worker can move on, and
    with an oracle that answers all workers can leave their loop. */
module ParUnsatSatProgress {
  import opened Cnf
  import opened Pareto
  import opened Encoding
  import opened ParallelMO
  import opened Fences
  import opened FenceQueue
  import opened ParUnsatSat

  ghost predicate AllExited(s: State) {
    forall w | w in s.workers :: w.pc == Exited
  }

  /** The step is neither mere sharing nor an oracle call without an answer. */
  predicate MovesOn(s: State, i: nat, act: Action)
    requires i < |s.workers|
  {
    !act.ShareClauses? && !act.SolveUndef? && (act.Share? ==> s.workers[i].solutions != {})
  }

  // ---------------------------------------------------------------- own solutions are blocked

  /** Nobody waits for a log, and each worker blocks the solutions that it has not shared yet. */
  ghost predicate Blocked(p: Problem, w: Worker) {
    w.pc != Synced && forall y | y in w.solutions :: BlockClause(p.roots, y) in w.db
  }

  ghost predicate AllBlocked(p: Problem, s: State) {
    forall i | 0 <= i < |s.workers| :: Blocked(p, s.workers[i])
  }

  lemma StepKeepsBlocked(p: Problem, stride: real, s: State, i: nat, act: Action, s': State)
    requires stride >= 0.0 && AllBlocked(p, s) && i < |s.workers| && Step(p, stride, s, i, act, s')
    ensures AllBlocked(p, s')
  {
    hide BlockClause, Eval, Entails, Negates, SatDb, AllHold, Expansions, InsertAll, Dominates;
    if act.Record? {
      OneBlock(p, Eval(p, s.workers[i].model));
    }
  }

  lemma {:induction false} RunKeepsBlocked(p: Problem, stride: real, root: Point, run: seq<State>, k: nat)
    requires stride >= 0.0 && Run(p, stride, root, run) && k < |run|
    ensures AllBlocked(p, run[k])
  {
    hide Step, BlockClause;
    if k > 0 {
      RunKeepsBlocked(p, stride, root, run, k - 1);
      assert Next(p, stride, run[k - 1], run[k - 1 + 1]);
      var i, act :| 0 <= i < |run[k - 1].workers| && Step(p, stride, run[k - 1], i, act, run[k]);
      StepKeepsBlocked(p, stride, run[k - 1], i, act, run[k]);
    }
  }

  // ---------------------------------------------------------------- what is left to do

  const FENCE := 5

  /** The steps that a worker needs at most until it is done with its fence, new finds not counted. */
  function Steps(w: Worker): nat {
    match w.pc
    case Exited => 0
    case Idle => 1
    case Expanded => 2
    case Refuted => if w.solutions == {} then 3 else 4
    case HasModel => 4
    case _ => 5
  }

  function Work(s: State): nat {
    FENCE * |s.stack| + SumOf(Steps, s.workers)
  }

  ghost function UnrejectedBy(p: Problem): Worker -> nat {
    (w: Worker) => |Unrejected(p, w.db)|
  }

  /** The feasible points that a worker does not reject yet, over all workers. */
  ghost function AllUnrejected(p: Problem, s: State): nat {
    SumOf(UnrejectedBy(p), s.workers)
  }

  function Fencing(p: Problem, s: State): nat {
    Potential(p, QueueOf(s))
  }

  /** Less is left: lighter fences, or as heavy ones and fewer points to reject, or as many and less work. */
  ghost predicate Less(p: Problem, s': State, s: State) {
    || Fencing(p, s') < Fencing(p, s)
    || (Fencing(p, s') <= Fencing(p, s) && AllUnrejected(p, s') < AllUnrejected(p, s))
    || (Fencing(p, s') <= Fencing(p, s) && AllUnrejected(p, s') <= AllUnrejected(p, s) && Work(s') < Work(s))
  }

  // ---------------------------------------------------------------- some worker can move

  predicate AtWork(w: Worker) {
    w.pc != Idle && w.pc != Exited
  }

  lemma SolveStep(p: Problem, stride: real, s: State, i: nat) returns (act: Action, s': State)
    requires stride >= 0.0 && i < |s.workers| && s.workers[i].pc == Harvesting
    ensures (act.SolveSat? || act.SolveUnsat?) && Step(p, stride, s, i, act, s')
  {
    hide SatDb, AllHold, Entails, Negates, BelowLits, Distinct, LitSet;
    var w := s.workers[i];
    var sat, a, conflict := OracleAnswers(w.db, BelowLits(p.roots, w.fence));
    if sat {
      act := SolveSat(a);
      s' := SetWorker(s, i, w.(pc := HasModel, model := a));
    } else {
      var core := Listed(conflict);
      act := SolveUnsat(core);
      s' := SetWorker(s, i, w.(pc := Refuted, core := core));
    }
  }

  /** A model that a worker holds is always a new solution. */
  lemma RecordStep(p: Problem, stride: real, s: State, i: nat) returns (act: Action, s': State)
    requires Valid(p) && stride >= 0.0 && i < |s.workers| && s.workers[i].pc == HasModel
    requires WorkerInv(p, Found(s), s.workers[i]) && Blocked(p, s.workers[i])
    ensures act.Record? && Step(p, stride, s, i, act, s')
    ensures |Unrejected(p, s'.workers[i].db)| < |Unrejected(p, s.workers[i].db)|
  {
    hide Eval, SatDb, BlockClause, PushSafe, Unrejected, Sound, FeasiblePoints, Rejects, Blocks;
    var w := s.workers[i];
    var y := Eval(p, w.model);
    assert SatDb(p.hard, w.model) by { SatFewer(p.hard, w.db, w.model); }
    forall t | t in w.solutions
      ensures !Dominates(t, y)
    {
      var _ := FeasiblePoint(p, t);
      BlockRejects(p, w.db, t);
      RejectedModel(p, w.db, t, w.model);
    }
    act := Record;
    s' := SetWorker(s, i, w.(pc := Harvesting, solutions := PushSafe(w.solutions, y), db := w.db + Blocks(p, {y})));
    ModelIsFeasible(p, w.model);
    var _ := FeasiblePoint(p, y);
    OneBlock(p, y);
    BlockRejects(p, s'.workers[i].db, y);
    NewlyRejected(p, w.db, s'.workers[i].db, w.model);
  }

  lemma RejectedModel(p: Problem, db: Db, y: Point, a: Assignment)
    requires Rejects(p, db, y) && SatDb(p.hard, a) && SatDb(db, a)
    ensures !Dominates(y, Eval(p, a))
  {
  }

  lemma RefutedStep(p: Problem, stride: real, s: State, i: nat) returns (act: Action, s': State)
    requires stride >= 0.0 && i < |s.workers| && s.workers[i].pc == Refuted
    requires |s.workers[i].fence| == |p.roots| == |p.max|
    ensures act.InsertExpansions? || (act == Share({}) && s.workers[i].solutions != {})
    ensures Step(p, stride, s, i, act, s')
  {
    hide InsertAll, Expansions;
    var w := s.workers[i];
    if w.solutions != {} {
      act := Share({});
      s' := SetWorker(s, i, w.(db := w.db + Blocks(p, {}), solutions := {})).(archive := s.archive + w.solutions);
    } else {
      var order := Expansions(p, stride, w.fence, LitSet(w.core));
      var (stack, seen) := InsertAll(s.stack, s.seen, order);
      act := InsertExpansions(order);
      s' := SetWorker(s, i, w.(pc := Expanded)).(stack := stack, seen := seen);
    }
  }

  /** A worker that has a fence can always move on with it. */
  lemma BusyMoves(p: Problem, stride: real, s: State, i: nat) returns (act: Action, s': State)
    requires Valid(p) && stride >= 0.0 && i < |s.workers| && AtWork(s.workers[i])
    requires WorkerInv(p, Found(s), s.workers[i]) && Blocked(p, s.workers[i])
    requires s.workers[i].pc == Refuted ==> |s.workers[i].fence| == |p.roots| == |p.max|
    ensures Step(p, stride, s, i, act, s') && MovesOn(s, i, act) && (act.Share? ==> s.workers[i].pc == Refuted)
    ensures act.Record? ==> |Unrejected(p, s'.workers[i].db)| < |Unrejected(p, s.workers[i].db)|
  {
    hide Valid, WorkerInv, Step, Unrejected;
    match s.workers[i].pc {
      case Harvesting => act, s' := SolveStep(p, stride, s, i);
      case HasModel => act, s' := RecordStep(p, stride, s, i);
      case Refuted => act, s' := RefutedStep(p, stride, s, i);
      case Expanded => act, s' := FinishStep(p, stride, s, i);
      case _ =>
    }
  }

  lemma FinishStep(p: Problem, stride: real, s: State, i: nat) returns (act: Action, s': State)
    requires stride >= 0.0 && i < |s.workers| && s.workers[i].pc == Expanded
    ensures act.Finish? && Step(p, stride, s, i, act, s')
  {
    act, s' := Finish, SetWorker(s, i, s.workers[i].(pc := Idle)).(active := s.active - 1);
  }

  /** When nobody has a fence, an idle worker takes one or leaves. */
  lemma IdleMoves(p: Problem, stride: real, s: State, i: nat) returns (act: Action, s': State)
    requires stride >= 0.0 && i < |s.workers| && s.workers[i].pc == Idle && (s.stack == [] ==> s.active == 0)
    ensures Step(p, stride, s, i, act, s') && (act.TakeFence? || act.LeaveLoop?)
  {
    var w := s.workers[i];
    if s.stack == [] {
      act, s' := LeaveLoop, SetWorker(s, i, w.(pc := Exited));
    } else {
      act := TakeFence;
      s' := SetWorker(s, i, w.(pc := Harvesting, fence := s.stack[|s.stack| - 1]))
              .(stack := s.stack[..|s.stack| - 1], active := s.active + 1);
    }
  }

  // ---------------------------------------------------------------- every such move leaves less

  lemma FencingFalls(p: Problem, stride: real, s: State, i: nat, act: Action, s': State)
    requires Valid(p) && stride >= 0.0 && Inv(p, s) && i < |s.workers| && Step(p, stride, s, i, act, s')
    ensures Fencing(p, s') <= Fencing(p, s)
    ensures act.InsertExpansions? ==> Fencing(p, s') < Fencing(p, s)
  {
    StepMoves(p, stride, s, i, act, s');
    hide Step, Valid, Moves, QueueInv, Potential, WorkerInv;
    MoveWeighs(p, AllCovered(p, s), QueueOf(s), i, MoveOf(act), QueueOf(s'));
    if act.InsertExpansions? {
      Completing(p, stride, s, i, act, s');
    }
  }

  lemma Completing(p: Problem, stride: real, s: State, i: nat, act: Action, s': State)
    requires stride >= 0.0 && i < |s.workers| && Step(p, stride, s, i, act, s') && act.InsertExpansions?
    ensures Completes(QueueOf(s), QueueOf(s'))
  {
    hide InsertAll, Expansions;
    assert QueueOf(s).slots[i].Exploring? && QueueOf(s').slots[i] == Leaving;
  }

  lemma UnrejectedFalls(p: Problem, stride: real, s: State, i: nat, act: Action, s': State)
    requires stride >= 0.0 && i < |s.workers| && Step(p, stride, s, i, act, s')
    ensures AllUnrejected(p, s') <= AllUnrejected(p, s)
    ensures |Unrejected(p, s'.workers[i].db)| < |Unrejected(p, s.workers[i].db)| ==>
        AllUnrejected(p, s') < AllUnrejected(p, s)
  {
    OneWorkerMoves(p, stride, s, i, act, s');
    hide Step, Unrejected;
    UnrejectedShrinks(p, s.workers[i].db, s'.workers[i].db);
    SumUpdate(UnrejectedBy(p), s.workers, i, s'.workers[i]);
  }

  lemma OneWorkerMoves(p: Problem, stride: real, s: State, i: nat, act: Action, s': State)
    requires stride >= 0.0 && i < |s.workers| && Step(p, stride, s, i, act, s')
    ensures |s'.workers| == |s.workers| && s'.workers == s.workers[i := s'.workers[i]]
    ensures s.workers[i].db <= s'.workers[i].db
  {
    hide SatDb, AllHold, Entails, Negates, BelowLits, InsertAll, Expansions, Eval, PushSafe, Blocks, Dominates;
  }

  lemma WorkFalls(p: Problem, stride: real, s: State, i: nat, act: Action, s': State)
    requires stride >= 0.0 && i < |s.workers| && Step(p, stride, s, i, act, s') && MovesOn(s, i, act)
    requires !act.Record? && !act.InsertExpansions? && (act.Share? ==> s.workers[i].pc == Refuted)
    ensures Work(s') < Work(s)
  {
    OneWorkerMoves(p, stride, s, i, act, s');
    OwnStepFalls(p, stride, s, i, act, s');
    hide Step, Steps;
    SumUpdate(Steps, s.workers, i, s'.workers[i]);
  }

  lemma OwnStepFalls(p: Problem, stride: real, s: State, i: nat, act: Action, s': State)
    requires stride >= 0.0 && i < |s.workers| && Step(p, stride, s, i, act, s') && MovesOn(s, i, act)
    requires !act.Record? && !act.InsertExpansions? && (act.Share? ==> s.workers[i].pc == Refuted)
    ensures FENCE * |s'.stack| + Steps(s'.workers[i]) < FENCE * |s.stack| + Steps(s.workers[i])
  {
    hide SatDb, AllHold, Entails, Negates, BelowLits, InsertAll, Expansions, Eval, PushSafe, Blocks, Dominates;
  }

  /** Unless all workers have left, one of them can move on, and less is left to do then. */
  lemma Progress(p: Problem, stride: real, s: State) returns (i: nat, act: Action, s': State)
    requires Valid(p) && stride >= 0.0 && Inv(p, s) && AllBlocked(p, s) && !AllExited(s)
    ensures i < |s.workers| && Step(p, stride, s, i, act, s') && MovesOn(s, i, act) && Less(p, s', s) && s' != s
  {
    hide Valid, Step, WorkerInv, Blocked, QueueInv, Fencing, AllUnrejected, Unrejected, Work, Found;
    if exists v :: v in s.workers && AtWork(v) {
      var v :| v in s.workers && AtWork(v);
      i :| 0 <= i < |s.workers| && s.workers[i] == v;
      FenceFits(p, s, i);
      act, s' := BusyMoves(p, stride, s, i);
    } else {
      var w :| w in s.workers && w.pc != Exited;
      i :| 0 <= i < |s.workers| && s.workers[i] == w;
      NobodyActive(p, s);
      act, s' := IdleMoves(p, stride, s, i);
    }
    FencingFalls(p, stride, s, i, act, s');
    UnrejectedFalls(p, stride, s, i, act, s');
    if !act.Record? && !act.InsertExpansions? {
      WorkFalls(p, stride, s, i, act, s');
    }
  }

  /** An explored fence lies within the maximum. */
  lemma FenceFits(p: Problem, s: State, i: nat)
    requires Valid(p) && QueueInv(p, AllCovered(p, s), QueueOf(s)) && i < |s.workers|
    ensures s.workers[i].pc == Refuted ==> |s.workers[i].fence| == |p.roots| == |p.max|
  {
    if s.workers[i].pc == Refuted {
      assert QueueOf(s).slots[i] == Exploring(s.workers[i].fence) && QueueOf(s).slots[i] in QueueOf(s).slots;
      assert s.workers[i].fence in Explored(QueueOf(s));
    }
  }

  lemma NobodyActive(p: Problem, s: State)
    requires QueueInv(p, AllCovered(p, s), QueueOf(s)) && forall w | w in s.workers :: !AtWork(w)
    ensures s.active == 0
  {
    forall j | 0 <= j < |s.workers|
      ensures !Busy(QueueOf(s).slots[j])
    {
      assert s.workers[j] in s.workers;
    }
    NoneBusy(QueueOf(s).slots);
  }

  // ---------------------------------------------------------------- every run can finish

  /** A search with a well-formed encoding from a fence within the maximum. */
  ghost predicate Search(p: Problem, stride: real, root: Point) {
    Valid(p) && OwnRoots(p) && stride >= 0.0 && Dominates(root, p.max)
  }

  /** In no run is there a state in which somebody has not left and nobody can move on. */
  lemma NeverStuck(p: Problem, stride: real, root: Point, run: seq<State>, k: nat)
    requires Search(p, stride, root) && Run(p, stride, root, run) && k < |run| && !AllExited(run[k])
    ensures exists i, act, s' ::
        0 <= i < |run[k].workers| && Step(p, stride, run[k], i, act, s') && MovesOn(run[k], i, act) && s' != run[k]
  {
    RunKeepsInv(p, stride, root, run, k);
    RunKeepsBlocked(p, stride, root, run, k);
    hide Inv, AllBlocked, Run, Valid, OwnRoots, Step, Less, AllExited;
    var i, act, s' := Progress(p, stride, run[k]);
  }

  function Last(run: seq<State>): State
    requires run != []
  {
    run[|run| - 1]
  }

  /** Unless all workers have left, the run goes on with less to do. */
  lemma GoOn(p: Problem, stride: real, root: Point, run: seq<State>) returns (more: seq<State>)
    requires Search(p, stride, root) && Run(p, stride, root, run) && !AllExited(Last(run))
    ensures Run(p, stride, root, more) && run <= more && Less(p, Last(more), Last(run))
  {
    RunKeepsInv(p, stride, root, run, |run| - 1);
    RunKeepsBlocked(p, stride, root, run, |run| - 1);
    RunStarts(p, stride, root, run);
    hide Inv, AllBlocked, Run, Valid, OwnRoots, Step, Less, AllExited, MovesOn;
    var i, act, s' := Progress(p, stride, Last(run));
    OneMoreState(p, stride, root, run, i, act, s');
    more := run + [s'];
  }

  lemma RunStarts(p: Problem, stride: real, root: Point, run: seq<State>)
    requires stride >= 0.0 && Run(p, stride, root, run)
    ensures run != []
  {
  }

  lemma OneMoreState(p: Problem, stride: real, root: Point, run: seq<State>, i: nat, act: Action, s': State)
    requires stride >= 0.0 && Run(p, stride, root, run)
    requires i < |Last(run).workers| && Step(p, stride, Last(run), i, act, s')
    ensures Run(p, stride, root, run + [s'])
  {
    assert Next(p, stride, Last(run), s');
    hide Init, Next, Step;
    var more := run + [s'];
    forall k | 0 <= k < |more| - 1
      ensures Next(p, stride, more[k], more[k + 1])
    {
      if k < |run| - 1 {
        assert Next(p, stride, run[k], run[k + 1]);
      }
    }
  }

  /** Every run can go on until all workers have left. */
  lemma {:induction false} CanFinish(p: Problem, stride: real, root: Point, run: seq<State>) returns (whole: seq<State>)
    requires Search(p, stride, root) && Run(p, stride, root, run)
    ensures Run(p, stride, root, whole) && run <= whole && AllExited(Last(whole))
    decreases Fencing(p, Last(run)), AllUnrejected(p, Last(run)), Work(Last(run))
  {
    hide Valid, OwnRoots, Run, AllExited, Fencing, AllUnrejected, Work;
    RunStarts(p, stride, root, run);
    whole := run;
    if !AllExited(Last(run)) {
      var more := GoOn(p, stride, root, run);
      RunStarts(p, stride, root, more);
      whole := CanFinish(p, stride, root, more);
    }
  }

  lemma {:induction false} SameWorkers(p: Problem, stride: real, root: Point, run: seq<State>, k: nat)
    requires stride >= 0.0 && Run(p, stride, root, run) && k < |run|
    ensures |run[k].workers| == |run[0].workers|
  {
    hide Step;
    if k > 0 {
      SameWorkers(p, stride, root, run, k - 1);
      assert Next(p, stride, run[k - 1], run[k - 1 + 1]);
      var i, act :| 0 <= i < |run[k - 1].workers| && Step(p, stride, run[k - 1], i, act, run[k]);
      OneWorkerMoves(p, stride, run[k - 1], i, act, run[k]);
    }
  }

  /** From every state that a run reaches with at least one worker, the search can end with all workers
      gone, and then it has found the Pareto front. */
  lemma EveryRunCanFinish(p: Problem, stride: real, root: Point, run: seq<State>, k: nat) returns (whole: seq<State>)
    requires Search(p, stride, root) && Run(p, stride, root, run) && k < |run| && run[0].workers != []
    ensures Run(p, stride, root, whole) && run[..k + 1] <= whole
    ensures AllExited(Last(whole)) && ParetoFront(Last(whole).archive) == ParetoFront(FeasiblePoints(p))
  {
    hide Valid, OwnRoots, Dominates, Init, Next, FeasiblePoints, ParetoFront, AllExited;
    var start := run[..k + 1];
    forall j | 0 <= j < |start| - 1
      ensures Next(p, stride, start[j], start[j + 1])
    {
      assert Next(p, stride, run[j], run[j + 1]);
    }
    whole := CanFinish(p, stride, root, start);
    SameWorkers(p, stride, root, whole, |whole| - 1);
    SomebodyExited(Last(whole));
    CoreGuidedIsExact(p, stride, root, whole, |whole| - 1);
  }

  lemma SomebodyExited(s: State)
    requires AllExited(s) && s.workers != []
    ensures Finished(s)
  {
    assert s.workers[0] in s.workers;
  }
}
