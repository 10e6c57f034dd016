/** Parallel slide-and-drill never hangs: whatever has happened so far, some worker can move on, and
    with an oracle that answers all workers can leave their loop. */
module ParSlideDrillProgress {
  import opened Cnf
  import opened Pareto
  import opened Encoding
  import opened ParallelMO
  import opened ParSlideDrill

  ghost predicate AllExited(s: State) {
    forall w | w in s.workers :: w.pc == Exited
  }

  /** The step is neither mere sharing or replaying nor an oracle call without an answer. */
  predicate MovesOn(act: Action) {
    !act.ApplyUpdates? && !act.ShareClauses? && !act.DrillUndef? && !act.SlideUndef?
  }

  // ---------------------------------------------------------------- what is left to do

  const CELL := 5
  const FIND := 6

  /** The steps that a worker needs at most until it is done with its cell, new finds not counted. */
  function Steps(w: Worker): nat {
    (if w.pc in {Publishing, Inserting, Retiring} && w.requeue then CELL else 0) +
      match w.pc
      case Exited => 0
      case Idle => 1
      case Retiring => 2
      case HasModel => 3 + FIND * |w.batch|
      case Inserting => 3 + FIND * |w.batch|
      case Drilling => 4
      case Publishing => 4 + FIND * |w.batch|
      case Fetched => 5
      case Finalizing => 5 + FIND * |w.batch|
      case Sliding => 6 + FIND * |w.batch|
  }

  function Work(s: State): nat {
    CELL * |s.waiting| + SumOf(Steps, s.workers)
  }

  /** The guards that are still to be finalized. */
  function OpenGuards(s: State): set<nat> {
    set v | v in s.slideMap && FinalizeVar(v) !in s.log
  }

  /** Less is left: fewer points to reject, or as many and fewer open guards, or as many and less work. */
  ghost predicate Less(p: Problem, s': State, s: State) {
    || AllUnrejected(p, s') < AllUnrejected(p, s)
    || (AllUnrejected(p, s') <= AllUnrejected(p, s) && |OpenGuards(s')| < |OpenGuards(s)|)
    || (AllUnrejected(p, s') <= AllUnrejected(p, s) && |OpenGuards(s')| <= |OpenGuards(s)| && Work(s') < Work(s))
  }

  // ---------------------------------------------------------------- some worker can move

  /** A worker that has a cell can always move on with it. */
  lemma BusyMoves(p: Problem, first: Point, s: State, i: nat) returns (act: Action, s': State)
    requires Valid(p) && Inv(p, first, s) && i < |s.workers| && Busy(s.workers[i])
    ensures Step(p, s, i, act, s') && MovesOn(act)
    ensures !act.Pop? && !act.Exit? && (act.Record? ==> s'.log != s.log) && (act.Finalize? ==> act.v in OpenGuards(s))
  {
    hide Valid, Inv, Eval, SatDb, AllHold, Entails, Negates, BlockClause, GuardClause, PushSafe, Dominates;
    var w := s.workers[i];
    match w.pc {
      case Fetched => act, s' := ImportStep(p, first, s, i);
      case Drilling => act, s' := DrillStep(p, s, i);
      case HasModel => act, s' := RecordStep(p, first, s, i);
      case Sliding => act, s' := SlideStep(p, s, i);
      case Finalizing => act, s' := FinalizeStep(p, first, s, i);
      case Publishing =>
        act := Publish({});
        s' := SetWorker(s, i, w.(pc := Inserting, solutions := {}, db := w.db + Blocks(p, {})))
                .(archive := s.archive + w.solutions);
      case Inserting => act, s' := InsertStep(p, s, i);
      case Retiring =>
        act := Retire;
        s' := SetWorker(s, i, w.(pc := Idle))
                .(active := s.active - 1, waiting := if w.requeue then s.waiting + multiset{w.cell} else s.waiting);
      case _ =>
    }
  }

  lemma ImportStep(p: Problem, first: Point, s: State, i: nat) returns (act: Action, s': State)
    requires Valid(p) && Inv(p, first, s) && i < |s.workers| && s.workers[i].pc == Fetched
    ensures act.Import? && Step(p, s, i, act, s')
  {
    var w := s.workers[i];
    act := Import(s.archive);
    s' := SetWorker(s, i, w.(db := w.db + Blocks(p, s.archive), pc := Drilling));
    forall y | y in s.archive
      ensures Reflected(p, w.db + Blocks(p, s.archive), y)
    {
      var _ := FeasiblePoint(p, y);
      DominatesItself(y);
      assert BlockClause(p.roots, y) in Blocks(p, s.archive);
    }
  }

  lemma DrillStep(p: Problem, s: State, i: nat) returns (act: Action, s': State)
    requires i < |s.workers| && s.workers[i].pc == Drilling
    ensures (act.DrillSat? || act.DrillUnsat?) && Step(p, s, i, act, s')
  {
    hide SatDb, AllHold, Entails, Negates, Assumed;
    var w := s.workers[i];
    var sat, a, conflict := OracleAnswers(w.db, Assumed(p, s, w.cell));
    if sat {
      act := DrillSat(a);
      s' := SetWorker(s, i, w.(pc := HasModel, model := a)).(mem := s.mem[w.cell := Deps(s, w.cell)]);
    } else {
      act := DrillUnsat(conflict);
      s' := SetWorker(s, i, w.(pc := Retiring, requeue := false));
    }
  }

  lemma SlideStep(p: Problem, s: State, i: nat) returns (act: Action, s': State)
    requires i < |s.workers| && s.workers[i].pc == Sliding
    ensures (act.SlideSat? || act.SlideUnsat?) && Step(p, s, i, act, s')
  {
    hide SatDb, AllHold, Entails, Negates, Assumed;
    var w := s.workers[i];
    var sat, a, conflict := OracleAnswers(w.db, Assumed(p, s, w.cell));
    if sat {
      act := SlideSat(a);
      s' := SetWorker(s, i, w.(pc := HasModel, model := a));
    } else {
      act := SlideUnsat(conflict);
      s' := SetWorker(s, i, w.(pc := Finalizing, requeue := false));
    }
  }

  /** A model that a worker holds is always a new find. */
  lemma RecordStep(p: Problem, first: Point, s: State, i: nat) returns (act: Action, s': State)
    requires Valid(p) && Inv(p, first, s) && i < |s.workers| && s.workers[i].pc == HasModel
    ensures act.Record? && Step(p, s, i, act, s') && s'.log != s.log
  {
    hide Valid, Inv, Eval, BlockClause, PushSafe, Dominates;
    var w := s.workers[i];
    var y := Eval(p, w.model);
    ModelIsStrictlyBelow(p, first, s, i);
    act := Record;
    s' := SetWorker(s, i, w.(pc := Sliding, solutions := PushSafe(w.solutions, y), batch := w.batch + {y},
        db := w.db + {BlockClause(p.roots, y)}))
            .(log := s.log + [DefineVar(s.nextVar, y)], nextVar := s.nextVar + 1,
              mem := s.mem[w.cell := Deps(s, w.cell) + {s.nextVar}], slideMap := s.slideMap[s.nextVar := y]);
    assert |s'.log| == |s.log| + 1;
  }

  lemma FinalizeStep(p: Problem, first: Point, s: State, i: nat) returns (act: Action, s': State)
    requires Inv(p, first, s) && i < |s.workers| && s.workers[i].pc == Finalizing
    ensures Step(p, s, i, act, s') && (act.FinalizeDone? || (act.Finalize? && act.v in OpenGuards(s)))
  {
    hide LogInv, PrefixInv, UniqueInv, PublishedInv, WorkerInv, AllSound, Coverage, GuardsDefined, GuardsOwned,
         GuardsLive;
    var w := s.workers[i];
    if v :| v in Deps(s, w.cell) && FinalizeVar(v) !in s.log {
      act := Finalize(v);
      s' := s.(log := s.log + [FinalizeVar(v)]);
    } else {
      act := FinalizeDone;
      s' := SetWorker(s, i, w.(pc := Publishing));
    }
  }

  lemma InsertStep(p: Problem, s: State, i: nat) returns (act: Action, s': State)
    requires i < |s.workers| && s.workers[i].pc == Inserting
    ensures (act.Insert? || act.Erase?) && Step(p, s, i, act, s')
  {
    var w := s.workers[i];
    if w.batch != {} {
      var b :| b in w.batch;
      act := Insert(b);
      s' := SetWorker(s, i, w.(batch := w.batch - {b}))
              .(seen := s.seen + {b}, waiting := if b in s.seen then s.waiting else s.waiting + multiset{b});
    } else {
      act := Erase;
      s' := SetWorker(s, i, w.(pc := Retiring)).(mem := if w.requeue then s.mem else s.mem - {w.cell});
    }
  }

  /** When nobody has a cell, an idle worker takes one or leaves. */
  lemma IdleMoves(p: Problem, s: State, i: nat) returns (act: Action, s': State)
    requires i < |s.workers| && s.workers[i].pc == Idle && (s.waiting == multiset{} ==> s.active == 0)
    ensures Step(p, s, i, act, s') && (act.Pop? || act.Exit?)
  {
    var w := s.workers[i];
    if s.waiting == multiset{} {
      act, s' := Exit, SetWorker(s, i, w.(pc := Exited));
    } else {
      var c :| c in s.waiting;
      act := Pop(c);
      s' := SetWorker(s, i, w.(pc := Fetched, cell := c)).(waiting := s.waiting - multiset{c}, active := s.active + 1);
    }
  }

  // ---------------------------------------------------------------- every such move leaves less

  /** What the step changes of the guards and of the clauses. */
  lemma UnrejectedFalls(p: Problem, first: Point, s: State, i: nat, act: Action, s': State)
    requires Valid(p) && Inv(p, first, s) && i < |s.workers| && Step(p, s, i, act, s')
    ensures AllUnrejected(p, s') <= AllUnrejected(p, s)
    ensures act.Record? && s'.log != s.log ==> AllUnrejected(p, s') < AllUnrejected(p, s)
  {
    StepFrame(p, s, i, act, s');
    StepGrowsDb(p, s, i, act, s');
    if act.Record? && s'.log != s.log {
      RecordRejects(p, first, s, i, s');
    }
    hide Inv, Valid, Step, Unrejected;
    UnrejectedShrinks(p, s.workers[i].db, s'.workers[i].db);
    SumUpdate(UnrejectedBy(p), s.workers, i, s'.workers[i]);
    assert s'.workers == s.workers[i := s'.workers[i]];
  }

  lemma GuardsFall(p: Problem, s: State, i: nat, act: Action, s': State)
    requires i < |s.workers| && Step(p, s, i, act, s') && (act.Record? ==> s'.log != s.log) && !act.Record?
    ensures |OpenGuards(s')| <= |OpenGuards(s)|
    ensures act.Finalize? && act.v in OpenGuards(s) ==> |OpenGuards(s')| < |OpenGuards(s)|
  {
    assert s'.slideMap == s.slideMap;
    assert forall u | u in s.log :: u in s'.log;
    assert act.Finalize? ==> s'.log[|s.log|] == FinalizeVar(act.v);
    SmallerSet(OpenGuards(s'), OpenGuards(s));
  }

  lemma WorkFalls(p: Problem, s: State, i: nat, act: Action, s': State)
    requires i < |s.workers| && Step(p, s, i, act, s') && MovesOn(act) && !act.Record? && !act.Finalize?
    requires WorkerFinds(p, s.workers[i])
    ensures Work(s') < Work(s)
  {
    if act.Pop? || act.Exit? {
      TakingFalls(p, s, i, act, s');
    } else if act.Insert? || act.Retire? {
      GivingFalls(p, s, i, act, s');
    } else if act.FinalizeDone? || act.Publish? || act.Erase? {
      PublishingFalls(p, s, i, act, s');
    } else {
      SolvingFalls(p, s, i, act, s');
    }
    StepFrame(p, s, i, act, s');
    hide Step, Steps, WorkerFinds;
    SumUpdate(Steps, s.workers, i, s'.workers[i]);
    assert s'.workers == s.workers[i := s'.workers[i]];
  }

  lemma TakingFalls(p: Problem, s: State, i: nat, act: Action, s': State)
    requires i < |s.workers| && Step(p, s, i, act, s') && (act.Pop? || act.Exit?)
    ensures |s'.workers| == |s.workers|
    ensures CELL * |s'.waiting| + Steps(s'.workers[i]) < CELL * |s.waiting| + Steps(s.workers[i])
  {
    if act.Pop? {
      assert s.waiting == s'.waiting + multiset{act.c};
    }
  }

  lemma GivingFalls(p: Problem, s: State, i: nat, act: Action, s': State)
    requires i < |s.workers| && Step(p, s, i, act, s') && (act.Insert? || act.Retire?)
    ensures |s'.workers| == |s.workers|
    ensures CELL * |s'.waiting| + Steps(s'.workers[i]) < CELL * |s.waiting| + Steps(s.workers[i])
  {
    if act.Insert? {
      assert |s.workers[i].batch| == |s'.workers[i].batch| + 1;
    }
  }

  lemma SolvingFalls(p: Problem, s: State, i: nat, act: Action, s': State)
    requires i < |s.workers| && Step(p, s, i, act, s') && WorkerFinds(p, s.workers[i])
    requires act.Import? || act.DrillSat? || act.DrillUnsat? || act.SlideSat? || act.SlideUnsat?
    ensures |s'.workers| == |s.workers|
    ensures s'.waiting == s.waiting && Steps(s'.workers[i]) < Steps(s.workers[i])
  {
    hide SatDb, AllHold, Entails, Negates, FeasiblePoints, Assumed, Blocks, Reflected;
  }

  lemma PublishingFalls(p: Problem, s: State, i: nat, act: Action, s': State)
    requires i < |s.workers| && Step(p, s, i, act, s') && WorkerFinds(p, s.workers[i])
    requires act.FinalizeDone? || act.Publish? || act.Erase?
    ensures |s'.workers| == |s.workers|
    ensures s'.waiting == s.waiting && Steps(s'.workers[i]) < Steps(s.workers[i])
  {
    hide FeasiblePoints, Blocks;
  }

  /** Unless all workers have left, one of them can move on, and less is left to do then. */
  lemma Progress(p: Problem, first: Point, s: State) returns (i: nat, act: Action, s': State)
    requires Valid(p) && Inv(p, first, s) && !AllExited(s)
    ensures i < |s.workers| && Step(p, s, i, act, s') && MovesOn(act) && Less(p, s', s) && s' != s
  {
    hide Valid, Step, WorkerFinds, LogInv, PrefixInv, MemInv, UniqueInv, PublishedInv, AllSound, Coverage,
         AllUnrejected, OpenGuards, Work;
    var w :| w in s.workers && w.pc != Exited;
    i :| 0 <= i < |s.workers| && s.workers[i] == w;
    if exists v :: v in s.workers && Busy(v) {
      var v :| v in s.workers && Busy(v);
      i :| 0 <= i < |s.workers| && s.workers[i] == v;
      act, s' := BusyMoves(p, first, s, i);
    } else {
      NoneBusy(s.workers);
      act, s' := IdleMoves(p, s, i);
    }
    assert WorkerInv(p, first, s, s.workers[i]);
    UnrejectedFalls(p, first, s, i, act, s');
    if !act.Record? {
      GuardsFall(p, s, i, act, s');
      if !act.Finalize? {
        WorkFalls(p, s, i, act, s');
      }
    }
  }

  lemma NoneBusy(ws: seq<Worker>)
    requires forall w | w in ws :: !Busy(w)
    ensures CountIf(Busy, ws) == 0
  {
    if ws != [] {
      NoneBusy(ws[1..]);
    }
  }

  // ---------------------------------------------------------------- every run can finish

  /** In no run is there a state in which somebody has not left and nobody can move on. */
  lemma NeverStuck(p: Problem, first: Point, run: seq<State>, k: nat)
    requires Valid(p) && first in FeasiblePoints(p) && Run(p, first, run) && k < |run| && !AllExited(run[k])
    ensures exists i, act, s' ::
        0 <= i < |run[k].workers| && Step(p, run[k], i, act, s') && MovesOn(act) && s' != run[k]
  {
    RunKeepsInv(p, first, run, k);
    var i, act, s' := Progress(p, first, run[k]);
  }

  function Last(run: seq<State>): State
    requires run != []
  {
    run[|run| - 1]
  }

  /** Unless all workers have left, the run goes on with less to do. */
  lemma GoOn(p: Problem, first: Point, run: seq<State>) returns (more: seq<State>)
    requires Valid(p) && first in FeasiblePoints(p) && Run(p, first, run) && !AllExited(Last(run))
    ensures Run(p, first, more) && run <= more && Less(p, Last(more), Last(run))
  {
    hide Valid, Inv, Init, Step, Run, Next, MovesOn, AllExited, AllUnrejected, OpenGuards, Work, FeasiblePoints, Less;
    assert run != [] by { RunStarts(p, first, run); }
    RunKeepsInv(p, first, run, |run| - 1);
    var i, act, s' := Progress(p, first, Last(run));
    OneMoreState(p, first, run, i, act, s');
    more := run + [s'];
  }

  /** Every run can go on until all workers have left. */
  lemma {:induction false} CanFinish(p: Problem, first: Point, run: seq<State>) returns (whole: seq<State>)
    requires Valid(p) && first in FeasiblePoints(p) && Run(p, first, run)
    ensures Run(p, first, whole) && run <= whole && AllExited(Last(whole))
    decreases AllUnrejected(p, Last(run)), |OpenGuards(Last(run))|, Work(Last(run))
  {
    hide Valid, Run, AllExited, AllUnrejected, OpenGuards, Work, FeasiblePoints;
    RunStarts(p, first, run);
    whole := run;
    if !AllExited(Last(run)) {
      var more := GoOn(p, first, run);
      RunStarts(p, first, more);
      whole := CanFinish(p, first, more);
    }
  }

  lemma RunStarts(p: Problem, first: Point, run: seq<State>)
    requires Run(p, first, run)
    ensures run != []
  {
  }

  lemma OneMoreState(p: Problem, first: Point, run: seq<State>, i: nat, act: Action, s': State)
    requires Run(p, first, run) && i < |run[|run| - 1].workers| && Step(p, run[|run| - 1], i, act, s')
    ensures Run(p, first, run + [s'])
  {
    assert Next(p, run[|run| - 1], s');
    hide Init, Next, Step;
    var more := run + [s'];
    forall k | 0 <= k < |more| - 1
      ensures Next(p, more[k], more[k + 1])
    {
      if k < |run| - 1 {
        assert Next(p, run[k], run[k + 1]);
      }
    }
  }

  /** From every state that a run reaches with at least one worker, the search can end with all workers
      gone, and then it has found the Pareto front. */
  lemma EveryRunCanFinish(p: Problem, first: Point, run: seq<State>, k: nat) returns (whole: seq<State>)
    requires Valid(p) && first in FeasiblePoints(p) && Run(p, first, run) && k < |run| && run[0].workers != []
    ensures Run(p, first, whole) && run[..k + 1] <= whole
    ensures var last := Last(whole);
      AllExited(last) && ParetoFront(last.archive + {first}) == ParetoFront(FeasiblePoints(p))
  {
    hide Valid, Init, Next, FeasiblePoints, ParetoFront, AllExited;
    var start := run[..k + 1];
    forall j | 0 <= j < |start| - 1
      ensures Next(p, start[j], start[j + 1])
    {
      assert Next(p, run[j], run[j + 1]);
    }
    whole := CanFinish(p, first, start);
    RunCounts(p, first, whole, |whole| - 1);
    SomebodyExited(Last(whole));
    SlideDrillIsExact(p, first, whole, |whole| - 1);
  }

  lemma SomebodyExited(s: State)
    requires AllExited(s) && s.workers != []
    ensures Finished(s)
  {
    assert s.workers[0] in s.workers;
  }
}
