/** A round of the parallel hitting-set optimizer never hangs: whatever has happened so far, some worker
    can move on, and with an oracle that answers all workers can leave their loop. */
module ParHarvestProgress {
  import opened Cnf
  import opened Pareto
  import opened Encoding
  import opened ParallelMO
  import opened Archive
  import opened Fences
  import opened FenceQueue
  import opened Slices
  import opened Relaxations
  import opened ParHarvest

  ghost predicate AllExited(s: State) {
    forall w | w in s.workers :: w.pc == Exited
  }

  /** The step is neither mere sharing nor an oracle call without an answer. */
  predicate MovesOn(act: Action) {
    !act.ShareClauses? && !act.SolveUndef?
  }

  // ---------------------------------------------------------------- what is left to do

  const FENCE := 6

  /** The steps that a worker needs at most until it is done with its fence, new candidates not counted;
      one that does not assume all blocks may have to start over. */
  function Steps(blocks: set<nat>, w: Worker): nat {
    match w.pc
    case Exited => 0
    case Idle => 1
    case Expanded => 2
    case Refuted => 3
    case HasModel => if w.guards == blocks then 4 else 8
    case Synced => if w.guards == blocks then 5 else 9
    case Harvesting => 6
  }

  function StepsOf(blocks: set<nat>): Worker -> nat {
    (w: Worker) => Steps(blocks, w)
  }

  function Work(s: State): nat {
    FENCE * |s.stack| + SumOf(StepsOf(s.blocks), s.workers)
  }

  /** The points of the relaxation that nobody has found yet. */
  ghost function Unfound(R: Round, s: State): set<Point> {
    FeasiblePoints(Rel(R)) - s.found
  }

  function Fencing(R: Round, s: State): nat {
    Potential(Rel(R), QueueOf(s))
  }

  /** Less is left: lighter fences, or as heavy ones and fewer points to find, or as many and less work. */
  ghost predicate Less(R: Round, s': State, s: State) {
    || Fencing(R, s') < Fencing(R, s)
    || (Fencing(R, s') <= Fencing(R, s) && |Unfound(R, s')| < |Unfound(R, s)|)
    || (Fencing(R, s') <= Fencing(R, s) && |Unfound(R, s')| <= |Unfound(R, s)| && Work(s') < Work(s))
  }

  // ---------------------------------------------------------------- some worker can move

  predicate AtWork(w: Worker) {
    w.pc != Idle && w.pc != Exited
  }

  lemma SyncStep(R: Round, s: State, i: nat) returns (act: Action, s': State)
    requires R.stride >= 1.0 && i < |s.workers| && s.workers[i].pc == Harvesting && s.workers[i].next <= |s.updates|
    ensures act.Synchronize? && Step(R, s, i, act, s')
  {
    var w := s.workers[i];
    act := Synchronize;
    s' := SetWorker(s, i, w.(pc := Synced, next := |s.updates|, guards := s.blocks,
        db := w.db + Clauses(s.updates[w.next..])));
  }

  lemma SolveStep(R: Round, s: State, i: nat) returns (act: Action, s': State)
    requires R.stride >= 1.0 && i < |s.workers| && s.workers[i].pc == Synced
    ensures (act.SolveSat? || act.SolveUnsat?) && Step(R, s, i, act, s')
  {
    hide SatDb, AllHold, Entails, Negates, Assumptions, Distinct, LitSet;
    var w := s.workers[i];
    var sat, a, conflict := OracleAnswers(w.db, Assumptions(R, w));
    if sat {
      act := SolveSat(a);
      s' := SetWorker(s, i, w.(pc := HasModel, model := a));
    } else {
      var core := Listed(conflict);
      act := SolveUnsat(core);
      s' := SetWorker(s, i, w.(pc := Refuted, core := core));
    }
  }

  lemma PublishStep(R: Round, s: State, i: nat) returns (act: Action, s': State)
    requires R.stride >= 1.0 && i < |s.workers| && s.workers[i].pc == HasModel
    ensures act.Publish? && Step(R, s, i, act, s')
  {
    hide Published;
    PublishedQueue(R, s, s.workers[i].model);
    act, s' := Publish, SetWorker(Published(R, s, s.workers[i].model), i, s.workers[i].(pc := Harvesting));
  }

  lemma ExpandStep(R: Round, s: State, i: nat) returns (act: Action, s': State)
    requires R.stride >= 1.0 && i < |s.workers| && s.workers[i].pc == Refuted
    requires |s.workers[i].fence| == |Rel(R).roots| == |Rel(R).max|
    ensures act.InsertExpansions? && Step(R, s, i, act, s')
  {
    hide InsertAll, Expansions, Rel;
    var w := s.workers[i];
    var order := Expansions(Rel(R), R.stride, w.fence, LitSet(w.core));
    var (stack, seen) := InsertAll(s.stack, s.seen, order);
    act := InsertExpansions(order);
    s' := SetWorker(s, i, w.(pc := Expanded)).(stack := stack, seen := seen);
  }

  lemma FinishStep(R: Round, s: State, i: nat) returns (act: Action, s': State)
    requires R.stride >= 1.0 && i < |s.workers| && s.workers[i].pc == Expanded
    ensures act.Finish? && Step(R, s, i, act, s')
  {
    act, s' := Finish, SetWorker(s, i, s.workers[i].(pc := Idle)).(active := s.active - 1);
  }

  /** A worker that has a fence can always move on with it. */
  lemma BusyMoves(R: Round, s: State, i: nat) returns (act: Action, s': State)
    requires R.stride >= 1.0 && i < |s.workers| && AtWork(s.workers[i])
    requires s.workers[i].next <= |s.updates|
    requires s.workers[i].pc == Refuted ==> |s.workers[i].fence| == |Rel(R).roots| == |Rel(R).max|
    ensures Step(R, s, i, act, s') && MovesOn(act)
  {
    hide Step, Rel;
    match s.workers[i].pc {
      case Harvesting => act, s' := SyncStep(R, s, i);
      case Synced => act, s' := SolveStep(R, s, i);
      case HasModel => act, s' := PublishStep(R, s, i);
      case Refuted => act, s' := ExpandStep(R, s, i);
      case Expanded => act, s' := FinishStep(R, s, i);
      case _ =>
    }
  }

  /** When nobody has a fence, an idle worker takes one or leaves. */
  lemma IdleMoves(R: Round, s: State, i: nat) returns (act: Action, s': State)
    requires R.stride >= 1.0 && i < |s.workers| && s.workers[i].pc == Idle && (s.stack == [] ==> s.active == 0)
    ensures Step(R, s, i, act, s') && MovesOn(act)
  {
    var w := s.workers[i];
    if s.stack == [] {
      act, s' := LeaveLoop, SetWorker(s, i, w.(pc := Exited));
    } else {
      act := TakeFence;
      s' := SetWorker(s, i, w.(pc := Harvesting, fence := s.stack[|s.stack| - 1]))
              .(stack := s.stack[..|s.stack| - 1], active := s.active + 1);
    }
  }

  // ---------------------------------------------------------------- every such move leaves less

  lemma FencingFalls(R: Round, s: State, i: nat, act: Action, s': State)
    requires ValidRound(R) && Inv(R, s) && i < |s.workers| && Step(R, s, i, act, s')
    ensures Fencing(R, s') <= Fencing(R, s)
    ensures act.InsertExpansions? ==> Fencing(R, s') < Fencing(R, s)
  {
    StepMoves(R, s, i, act, s');
    hide Step, ValidRound, Moves, QueueInv, Potential, WorkerInv, Shared, Rel, QueueOf, Completes;
    SlotsOfWorkers(s);
    MoveWeighs(Rel(R), Done(R, s), QueueOf(s), i, MoveOf(act), QueueOf(s'));
    if act.InsertExpansions? {
      Completing(R, s, i, act, s');
    }
  }

  lemma Completing(R: Round, s: State, i: nat, act: Action, s': State)
    requires R.stride >= 1.0 && i < |s.workers| && Step(R, s, i, act, s') && act.InsertExpansions?
    ensures Completes(QueueOf(s), QueueOf(s'))
  {
    hide InsertAll, Expansions, Rel;
    assert QueueOf(s).slots[i].Exploring? && QueueOf(s').slots[i] == Leaving;
  }

  /** Some candidate is at least as good as the model. */
  predicate Outdone(R: Round, s: State, m: Assignment) {
    exists e | e in s.entries :: Dominates(e.point, Eval(Rel(R), m))
  }

  /** A worker that assumes all blocks has found a point that no candidate dominates. */
  lemma FreshIsNew(R: Round, s: State, i: nat)
    requires ValidRound(R) && Shared(R, s) && i < |s.workers| && s.workers[i].pc == HasModel
    requires WorkerInv(R, s.updates, s.blocks, s.workers[i]) && s.workers[i].guards == s.blocks
    ensures !Outdone(R, s, s.workers[i].model)
  {
    var w := s.workers[i];
    FoundIsOpen(R, s.updates, s.nVars, s.blocks, w);
    hide ValidRound, Rel, Eval, FeasiblePoints, SatDb, Searched, SoundFor, Barred, AllTight, Dominates;
    forall e | e in s.entries
      ensures !Dominates(e.point, Eval(Rel(R), w.model))
    {
      var v := s.softBlocks[e.point];
      assert Logged(s.updates, v, e.point) && Known(s.updates[..w.next], v);
      var j :| 0 <= j < w.next && s.updates[..w.next][j].v == v;
      var k :| 0 <= k < |s.updates| && s.updates[k].v == v && s.updates[k].point == e.point;
      assert s.updates[..w.next][j] == s.updates[j] && j == k;
    }
  }

  /** What publishing a candidate that is not dominated adds was not found before. */
  lemma NewIsUnfound(R: Round, s: State, m: Assignment)
    requires Searched(Rel(R), R.accepted, s.found, s.entries) && !Outdone(R, s, m)
    ensures Eval(Rel(R), m) !in s.found
  {
    hide Rel, FeasiblePoints, Candidates, Eval;
    DominatedIsCovered(s.entries, Eval(Rel(R), m));
  }

  lemma DominatedChangesNothing(R: Round, s: State, m: Assignment)
    requires Searched(Rel(R), R.accepted, s.found, s.entries)
    requires Outdone(R, s, m)
    ensures Published(R, s, m) == s
  {
    hide Rel, FeasiblePoints, Candidates, Eval;
    DominatedIsCovered(s.entries, Eval(Rel(R), m));
    BarredChangesNothing(s.entries, Eval(Rel(R), m));
  }

  lemma NewCandidate(R: Round, s: State, m: Assignment)
    requires Searched(Rel(R), R.accepted, s.found, s.entries) && Eval(Rel(R), m) in FeasiblePoints(Rel(R))
    requires !Outdone(R, s, m)
    ensures |Unfound(R, Published(R, s, m))| < |Unfound(R, s)|
  {
    NewIsUnfound(R, s, m);
    hide Rel, Eval, FeasiblePoints, Searched, BlockUpdate, Kept;
    var s' := Published(R, s, m);
    assert s'.found == s.found + {Eval(Rel(R), m)};
    assert Eval(Rel(R), m) in Unfound(R, s) && Eval(Rel(R), m) !in Unfound(R, s');
    SmallerSet(Unfound(R, s'), Unfound(R, s));
  }

  lemma PublishedState(R: Round, s: State, i: nat, s': State)
    requires R.stride >= 1.0 && i < |s.workers| && Step(R, s, i, Publish, s')
    ensures s.workers[i].pc == HasModel && Published(R, s, s.workers[i].model).workers == s.workers
    ensures s' == SetWorker(Published(R, s, s.workers[i].model), i, s.workers[i].(pc := Harvesting))
  {
    hide Published;
    PublishedQueue(R, s, s.workers[i].model);
  }

  lemma FoundIsFeasible(R: Round, s: State, w: Worker)
    requires ValidRound(R) && Shared(R, s) && WorkerInv(R, s.updates, s.blocks, w) && w.pc == HasModel
    ensures Eval(Rel(R), w.model) in FeasiblePoints(Rel(R)) && Searched(Rel(R), R.accepted, s.found, s.entries)
  {
    FoundIsOpen(R, s.updates, s.nVars, s.blocks, w);
  }

  /** A published candidate is new, or it leaves the shared state as it was. */
  lemma UnfoundFalls(R: Round, s: State, i: nat, s': State)
    requires ValidRound(R) && Shared(R, s) && i < |s.workers| && Step(R, s, i, Publish, s')
    requires WorkerInv(R, s.updates, s.blocks, s.workers[i])
    ensures |Unfound(R, s')| < |Unfound(R, s)| ||
        (s' == SetWorker(s, i, s.workers[i].(pc := Harvesting)) && s.workers[i].guards != s.blocks)
  {
    PublishedState(R, s, i, s');
    var w := s.workers[i];
    hide ValidRelaxation, Dominates, Rel, Eval, FeasiblePoints, Searched, WorkerInv, Shared, Published, Step, Outdone;
    FoundIsFeasible(R, s, w);
    if Outdone(R, s, w.model) {
      DominatedChangesNothing(R, s, w.model);
      if w.guards == s.blocks {
        FreshIsNew(R, s, i);
      }
    } else {
      NewCandidate(R, s, w.model);
      assert Unfound(R, s') == Unfound(R, Published(R, s, w.model));
    }
  }

  lemma OneWorkerMoves(R: Round, s: State, i: nat, act: Action, s': State)
    requires R.stride >= 1.0 && i < |s.workers| && Step(R, s, i, act, s')
    ensures |s'.workers| == |s.workers| && s'.workers == s.workers[i := s'.workers[i]]
  {
    StepFrame(R, s, i, act, s');
    hide Step;
  }

  lemma WorkFalls(R: Round, s: State, i: nat, act: Action, s': State)
    requires R.stride >= 1.0 && i < |s.workers| && Step(R, s, i, act, s') && MovesOn(act) && !act.InsertExpansions?
    requires act.Publish? ==>
        s' == SetWorker(s, i, s.workers[i].(pc := Harvesting)) && s.workers[i].guards != s.blocks
    ensures Work(s') < Work(s)
  {
    OneWorkerMoves(R, s, i, act, s');
    OwnStepFalls(R, s, i, act, s');
    hide Step, Steps;
    SumUpdate(StepsOf(s.blocks), s.workers, i, s'.workers[i]);
  }

  lemma OwnStepFalls(R: Round, s: State, i: nat, act: Action, s': State)
    requires R.stride >= 1.0 && i < |s.workers| && Step(R, s, i, act, s') && MovesOn(act) && !act.InsertExpansions?
    requires act.Publish? ==>
        s' == SetWorker(s, i, s.workers[i].(pc := Harvesting)) && s.workers[i].guards != s.blocks
    ensures s'.blocks == s.blocks
    ensures FENCE * |s'.stack| + Steps(s.blocks, s'.workers[i]) < FENCE * |s.stack| + Steps(s.blocks, s.workers[i])
  {
    hide SatDb, AllHold, Entails, Negates, Assumptions, InsertAll, Expansions, Rel, Published, Clauses;
  }

  /** Unless all workers have left, one of them can move on, and less is left to do then. */
  lemma Progress(R: Round, s: State) returns (i: nat, act: Action, s': State)
    requires ValidRound(R) && Inv(R, s) && !AllExited(s)
    ensures i < |s.workers| && Step(R, s, i, act, s') && MovesOn(act) && Less(R, s', s) && s' != s
  {
    RelIsValid(R);
    hide ValidRound, Valid, OwnRoots, Rel, Step, WorkerInv, Shared, QueueInv, Fencing, Unfound, Work, FeasiblePoints,
         Dominates;
    if exists v :: v in s.workers && AtWork(v) {
      var v :| v in s.workers && AtWork(v);
      i :| 0 <= i < |s.workers| && s.workers[i] == v;
      FenceFits(R, s, i);
      PrefixReplayed(R, s, i);
      act, s' := BusyMoves(R, s, i);
    } else {
      var w :| w in s.workers && w.pc != Exited;
      i :| 0 <= i < |s.workers| && s.workers[i] == w;
      NobodyActive(R, s);
      act, s' := IdleMoves(R, s, i);
    }
    LessIsLeft(R, s, i, act, s');
  }

  lemma LessIsLeft(R: Round, s: State, i: nat, act: Action, s': State)
    requires ValidRound(R) && Inv(R, s) && i < |s.workers| && Step(R, s, i, act, s') && MovesOn(act)
    ensures Less(R, s', s) && s' != s
  {
    FencingFalls(R, s, i, act, s');
    StepFrame(R, s, i, act, s');
    hide ValidRound, Shared, WorkerInv, QueueInv, Step, Fencing, Work, FeasiblePoints, Rel;
    if act.Publish? {
      UnfoundFalls(R, s, i, s');
      if |Unfound(R, s')| >= |Unfound(R, s)| {
        WorkFalls(R, s, i, act, s');
      }
    } else if !act.InsertExpansions? {
      WorkFalls(R, s, i, act, s');
    }
  }

  lemma PrefixReplayed(R: Round, s: State, i: nat)
    requires Inv(R, s) && i < |s.workers|
    ensures s.workers[i].next <= |s.updates|
  {
    hide Shared, QueueInv;
    assert WorkerInv(R, s.updates, s.blocks, s.workers[i]);
  }

  /** An explored fence lies within the bounds of the round. */
  lemma FenceFits(R: Round, s: State, i: nat)
    requires |Rel(R).roots| == |Rel(R).max| && QueueInv(Rel(R), Done(R, s), QueueOf(s)) && i < |s.workers|
    ensures s.workers[i].pc == Refuted ==> |s.workers[i].fence| == |Rel(R).roots| == |Rel(R).max|
  {
    hide Rel, Done;
    if s.workers[i].pc == Refuted {
      assert QueueOf(s).slots[i] == Exploring(s.workers[i].fence) && QueueOf(s).slots[i] in QueueOf(s).slots;
      assert s.workers[i].fence in Explored(QueueOf(s));
    }
  }

  lemma NobodyActive(R: Round, s: State)
    requires QueueInv(Rel(R), Done(R, s), QueueOf(s)) && forall w | w in s.workers :: !AtWork(w)
    ensures s.active == 0
  {
    hide Rel, Done;
    forall j | 0 <= j < |s.workers|
      ensures !Busy(QueueOf(s).slots[j])
    {
      assert s.workers[j] in s.workers;
    }
    NoneBusy(QueueOf(s).slots);
  }

  // ---------------------------------------------------------------- every round can finish

  /** In no run of a round is there a state in which somebody has not left and nobody can move on. */
  lemma NeverStuck(R: Round, run: seq<State>, k: nat)
    requires ValidRound(R) && RoundRun(R, run) && k < |run| && !AllExited(run[k])
    ensures exists i, act, s' ::
        0 <= i < |run[k].workers| && Step(R, run[k], i, act, s') && MovesOn(act) && s' != run[k]
  {
    RunKeepsInv(R, run, k);
    hide ValidRelaxation, Dominates, Inv, RoundRun, Step, Less, AllExited;
    var i, act, s' := Progress(R, run[k]);
  }

  function Last(run: seq<State>): State
    requires run != []
  {
    run[|run| - 1]
  }

  /** Unless all workers have left, the run goes on with less to do. */
  lemma GoOn(R: Round, run: seq<State>) returns (more: seq<State>)
    requires ValidRound(R) && RoundRun(R, run) && !AllExited(Last(run))
    ensures RoundRun(R, more) && run <= more && Less(R, Last(more), Last(run))
  {
    RunKeepsInv(R, run, |run| - 1);
    RunStarts(R, run);
    hide ValidRelaxation, Dominates, Inv, RoundRun, Step, Less, AllExited, MovesOn;
    var i, act, s' := Progress(R, Last(run));
    OneMoreState(R, run, i, act, s');
    more := run + [s'];
  }

  lemma RunStarts(R: Round, run: seq<State>)
    requires RoundRun(R, run)
    ensures run != [] && R.stride >= 1.0
  {
  }

  lemma OneMoreState(R: Round, run: seq<State>, i: nat, act: Action, s': State)
    requires RoundRun(R, run) && i < |Last(run).workers| && Step(R, Last(run), i, act, s')
    ensures RoundRun(R, run + [s'])
  {
    assert Next(R, Last(run), s');
    hide Ready, Next, Step;
    var more := run + [s'];
    forall k | 0 <= k < |more| - 1
      ensures Next(R, more[k], more[k + 1])
    {
      if k < |run| - 1 {
        assert Next(R, run[k], run[k + 1]);
      }
    }
  }

  /** Every run of a round can go on until all workers have left. */
  lemma {:induction false} CanFinish(R: Round, run: seq<State>) returns (whole: seq<State>)
    requires ValidRound(R) && RoundRun(R, run)
    ensures RoundRun(R, whole) && run <= whole && AllExited(Last(whole))
    decreases Fencing(R, Last(run)), |Unfound(R, Last(run))|, Work(Last(run))
  {
    hide ValidRound, RoundRun, AllExited, Fencing, Unfound, Work;
    RunStarts(R, run);
    whole := run;
    if !AllExited(Last(run)) {
      var more := GoOn(R, run);
      RunStarts(R, more);
      whole := CanFinish(R, more);
    }
  }

  lemma {:induction false} SameWorkers(R: Round, run: seq<State>, k: nat)
    requires RoundRun(R, run) && k < |run|
    ensures |run[k].workers| == |run[0].workers|
  {
    hide Step, Ready;
    if k > 0 {
      SameWorkers(R, run, k - 1);
      assert Next(R, run[k - 1], run[k - 1 + 1]);
      var i, act :| 0 <= i < |run[k - 1].workers| && Step(R, run[k - 1], i, act, run[k]);
      OneWorkerMoves(R, run[k - 1], i, act, run[k]);
    }
  }

  /** From every state that a round reaches with at least one worker, the round can end with all workers
      gone, and then, if all logged blocks are tight, the candidates complete the relaxation. */
  lemma EveryRoundCanFinish(R: Round, run: seq<State>, k: nat) returns (whole: seq<State>)
    requires ValidRound(R) && RoundRun(R, run) && k < |run| && run[0].workers != []
    ensures RoundRun(R, whole) && run[..k + 1] <= whole
    ensures AllExited(Last(whole)) && Done(R, Last(whole))
  {
    hide ValidRound, Ready, Next, Done, AllExited;
    var start := run[..k + 1];
    forall j | 0 <= j < |start| - 1
      ensures Next(R, start[j], start[j + 1])
    {
      assert Next(R, run[j], run[j + 1]);
    }
    whole := CanFinish(R, start);
    SameWorkers(R, whole, |whole| - 1);
    SomebodyExited(Last(whole));
    RoundIsComplete(R, whole, |whole| - 1);
  }

  lemma SomebodyExited(s: State)
    requires AllExited(s) && s.workers != []
    ensures Finished(s)
  {
    assert s.workers[0] in s.workers;
  }
}
