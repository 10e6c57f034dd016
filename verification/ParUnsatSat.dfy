/** Parallel core-guided search: workers harvest below fences taken from a shared stack and
    replace each fence by the fences that its unsatisfiable core asks for. */
module ParUnsatSat {
  import opened Cnf
  import opened Pareto
  import opened Encoding
  import opened ParallelMO
  import opened Fences
  import opened FenceQueue

  // ---------------------------------------------------------------- the protocol

  datatype Worker = Worker(pc: Pc, fence: Point, model: Assignment, core: seq<Lit>, db: Db, solutions: set<Point>)

  datatype State = State(stack: seq<Point>, seen: set<Point>, active: int, archive: set<Point>, workers: seq<Worker>)

  datatype Action =
    | TakeFence
    | LeaveLoop
    | Share(pulled: set<Point>)
    | ShareClauses(k: nat, clause: Clause)
    | SolveSat(a: Assignment)
    | SolveUndef
    | Record
    | SolveUnsat(core: seq<Lit>)
    | InsertExpansions(order: seq<Point>)
    | Finish

  function SetWorker(s: State, i: nat, w: Worker): State
    requires i < |s.workers|
  {
    s.(workers := s.workers[i := w])
  }

  ghost predicate Init(p: Problem, root: Point, s: State) {
    && s.stack == [root] && s.seen == {root} && s.active == 0
    && s.archive <= FeasiblePoints(p)
    && forall w | w in s.workers ::
      && w.pc == Idle && w.solutions == {}
      && exists first :: first in s.archive && w.db == p.hard + Blocks(p, {first})
  }

  ghost predicate Step(p: Problem, stride: real, s: State, i: nat, act: Action, s': State)
    requires i < |s.workers| && stride >= 0.0
  {
    var w := s.workers[i];
    match act
    case TakeFence =>
      && w.pc == Idle && s.stack != []
      && s' == SetWorker(s, i, w.(pc := Harvesting, fence := s.stack[|s.stack| - 1]))
               .(stack := s.stack[..|s.stack| - 1], active := s.active + 1)
    case LeaveLoop =>
      && w.pc == Idle && s.stack == [] && s.active == 0
      && s' == SetWorker(s, i, w.(pc := Exited))
    case Share(pulled) =>
      && w.pc in {Harvesting, Refuted} && pulled <= s.archive
      && s' == SetWorker(s, i, w.(db := w.db + Blocks(p, pulled), solutions := {})).(archive := s.archive + w.solutions)
    case ShareClauses(k, clause) =>
      && w.pc in {Harvesting, Refuted} && k < |s.workers| && Entails(s.workers[k].db, clause)
      && s' == SetWorker(s, i, w.(db := w.db + {clause}))
    case SolveSat(a) =>
      && w.pc == Harvesting && SatDb(w.db, a) && AllHold(BelowLits(p.roots, w.fence), a)
      && s' == SetWorker(s, i, w.(pc := HasModel, model := a))
    case SolveUndef =>
      w.pc == Harvesting && s' == s
    case Record =>
      var y := Eval(p, w.model);
      && w.pc == HasModel
      && if exists t | t in w.solutions :: Dominates(t, y) then
           s' == SetWorker(s, i, w.(pc := Harvesting))
         else
           s' == SetWorker(s, i, w.(pc := Harvesting, solutions := PushSafe(w.solutions, y),
               db := w.db + Blocks(p, {y})))
    case SolveUnsat(core) =>
      && w.pc == Harvesting && Distinct(core)
      && Entails(w.db, LitSet(core)) && Negates(LitSet(core), BelowLits(p.roots, w.fence))
      && s' == SetWorker(s, i, w.(pc := Refuted, core := core))
    case InsertExpansions(order) =>
      && w.pc == Refuted && w.solutions == {}
      && |w.fence| == |p.roots| == |p.max|
      && multiset(order) == multiset(Expansions(p, stride, w.fence, LitSet(w.core)))
      && var (stack, seen) := InsertAll(s.stack, s.seen, order);
         s' == SetWorker(s, i, w.(pc := Expanded)).(stack := stack, seen := seen)
    case Finish =>
      && w.pc == Expanded
      && s' == SetWorker(s, i, w.(pc := Idle)).(active := s.active - 1)
  }

  // ---------------------------------------------------------------- the work list inside

  function QueueOf(s: State): Queue {
    Queue(s.stack, s.seen, s.active, seq(|s.workers|, i requires 0 <= i < |s.workers| =>
      SlotOf(s.workers[i].pc, s.workers[i].fence)))
  }

  function MoveOf(act: Action): Move {
    match act
    case TakeFence => Pop
    case LeaveLoop => Exit
    case InsertExpansions(order) => Expand(order)
    case Finish => Leave
    case _ => Stay
  }

  /** Every step of the protocol is a move of the work list. */
  lemma StepMoves(p: Problem, stride: real, s: State, i: nat, act: Action, s': State)
    requires Valid(p) && stride >= 0.0 && i < |s.workers| && Step(p, stride, s, i, act, s')
    ensures Moves(p, QueueOf(s), i, MoveOf(act), QueueOf(s'))
  {
    hide Valid, InsertAll, Expansions, BelowLits, Eval, PushSafe, Blocks, Entails, Negates, SatDb, AllHold;
    if act.InsertExpansions? {
      ExpansionsMove(p, stride, s, i, act, s');
    } else {
      var q, q' := QueueOf(s), QueueOf(s');
      assert q'.slots == q.slots[i := SlotOf(s'.workers[i].pc, s'.workers[i].fence)];
      if MoveOf(act) == Stay {
        assert q.slots[i] == q'.slots[i];
      }
    }
  }

  lemma ExpansionsMove(p: Problem, stride: real, s: State, i: nat, act: Action, s': State)
    requires Valid(p) && stride >= 0.0 && i < |s.workers| && Step(p, stride, s, i, act, s') && act.InsertExpansions?
    ensures Moves(p, QueueOf(s), i, MoveOf(act), QueueOf(s'))
  {
    hide Valid, InsertAll, Expansions, Dominates;
    var q, q', w := QueueOf(s), QueueOf(s'), s.workers[i];
    assert q'.slots == q.slots[i := SlotOf(s'.workers[i].pc, s'.workers[i].fence)];
    WholeExpansions(p, stride, w.fence, LitSet(w.core));
    SameElements(act.order, Expansions(p, stride, w.fence, LitSet(w.core)));
  }

  ghost predicate Next(p: Problem, stride: real, s: State, s': State)
    requires stride >= 0.0
  {
    exists i, act :: 0 <= i < |s.workers| && Step(p, stride, s, i, act, s')
  }

  ghost predicate Run(p: Problem, stride: real, root: Point, run: seq<State>)
    requires stride >= 0.0
  {
    && |run| > 0 && Init(p, root, run[0])
    && forall k | 0 <= k < |run| - 1 :: Next(p, stride, run[k], run[k + 1])
  }

  // ---------------------------------------------------------------- the invariant

  ghost function Found(s: State): set<Point> {
    s.archive + set w, y | w in s.workers && y in w.solutions :: y
  }

  ghost predicate AllCovered(p: Problem, s: State) {
    CoversAll(Found(s), FeasiblePoints(p))
  }

  ghost predicate WorkerInv(p: Problem, found: set<Point>, w: Worker) {
    && p.hard <= w.db && Sound(p, found, w.db)
    && w.solutions <= FeasiblePoints(p)
    && (w.pc in {Idle, Expanded, Exited} ==> w.solutions == {})
    && (w.pc == HasModel ==> SatDb(w.db, w.model))
    && (w.pc == Refuted ==> Entails(w.db, LitSet(w.core)) && Negates(LitSet(w.core), BelowLits(p.roots, w.fence)))
  }

  ghost predicate Inv(p: Problem, s: State) {
    && s.archive <= FeasiblePoints(p)
    && (forall w | w in s.workers :: WorkerInv(p, Found(s), w))
    && QueueInv(p, AllCovered(p, s), QueueOf(s))
  }

  // ---------------------------------------------------------------- what no step loses

  ghost predicate Frame(s: State, i: nat, s': State)
    requires i < |s.workers|
  {
    && |s'.workers| == |s.workers|
    && (forall j | 0 <= j < |s.workers| && j != i :: s'.workers[j] == s.workers[j])
    && s.archive <= s'.archive
    && (forall y | y in s.workers[i].solutions :: y in s'.archive || Covered(s'.workers[i].solutions, y))
  }

  lemma StepFrame(p: Problem, stride: real, s: State, i: nat, act: Action, s': State)
    requires stride >= 0.0 && i < |s.workers| && Step(p, stride, s, i, act, s')
    ensures Frame(s, i, s')
  {
    var w, w' := s.workers[i], s'.workers[i];
    forall y | y in w.solutions
      ensures y in s'.archive || Covered(w'.solutions, y)
    {
      DominatesItself(y);
      if act.Record? {
        PushSafeCovers(w.solutions, Eval(p, w.model), y);
      }
    }
  }

  lemma FoundGrows(s: State, i: nat, s': State)
    requires i < |s.workers| && Frame(s, i, s')
    ensures forall q | Covered(Found(s), q) :: Covered(Found(s'), q)
  {
    forall q | Covered(Found(s), q)
      ensures Covered(Found(s'), q)
    {
      var y :| y in Found(s) && Dominates(y, q);
      if y !in s.archive {
        var j :| 0 <= j < |s.workers| && y in s.workers[j].solutions;
        assert s'.workers[j] in s'.workers;
        if j == i && y !in s'.archive {
          CoveredBelow(s'.workers[i].solutions, y, q);
          var t :| t in s'.workers[i].solutions && Dominates(t, q);
          assert t in Found(s');
        } else {
          assert y in Found(s');
        }
      }
    }
  }

  // ---- the workers

  lemma KeepsSound(p: Problem, stride: real, s: State, i: nat, act: Action, s': State)
    requires Valid(p) && Inv(p, s) && stride >= 0.0 && i < |s.workers| && Step(p, stride, s, i, act, s')
    requires act.Record? ==> Eval(p, s.workers[i].model) in FeasiblePoints(p)
    ensures Sound(p, Found(s'), s'.workers[i].db)
  {
    var w, w' := s.workers[i], s'.workers[i];
    assert WorkerInv(p, Found(s), w);
    StepFrame(p, stride, s, i, act, s');
    FoundGrows(s, i, s');
    SoundGrows(p, Found(s), Found(s'), w.db);
    match act {
      case Share(pulled) =>
        forall y | y in pulled ensures Covered(Found(s'), y) { DominatesItself(y); }
        SoundBlocks(p, Found(s'), w.db, pulled);
      case ShareClauses(k, clause) =>
        assert WorkerInv(p, Found(s), s.workers[k]);
        SoundGrows(p, Found(s), Found(s'), s.workers[k].db);
        SoundLearnt(p, Found(s'), w.db, s.workers[k].db, clause);
      case Record =>
        var y := Eval(p, w.model);
        if w'.db != w.db {
          DominatesItself(y);
          assert w' in s'.workers && y in Found(s');
          SoundBlocks(p, Found(s'), w.db, {y});
        }
      case _ =>
    }
  }

  lemma KeepsWorkers(p: Problem, stride: real, s: State, i: nat, act: Action, s': State)
    requires Valid(p) && Inv(p, s) && stride >= 0.0 && i < |s.workers| && Step(p, stride, s, i, act, s')
    ensures s'.archive <= FeasiblePoints(p)
    ensures forall w | w in s'.workers :: WorkerInv(p, Found(s'), w)
  {
    StepFrame(p, stride, s, i, act, s');
    FoundGrows(s, i, s');
    assert WorkerInv(p, Found(s), s.workers[i]);
    if act.Record? {
      ModelIsFeasible(p, s.workers[i].model);
    }
    KeepsSound(p, stride, s, i, act, s');
    KeepsOwn(p, stride, s, i, act, s');
    forall j | 0 <= j < |s'.workers| && j != i
      ensures WorkerInv(p, Found(s'), s'.workers[j])
    {
      assert WorkerInv(p, Found(s), s.workers[j]);
      SoundGrows(p, Found(s), Found(s'), s.workers[j].db);
    }
  }

  lemma KeepsOwn(p: Problem, stride: real, s: State, i: nat, act: Action, s': State)
    requires stride >= 0.0 && i < |s.workers| && Step(p, stride, s, i, act, s')
    requires WorkerInv(p, Found(s), s.workers[i]) && Sound(p, Found(s'), s'.workers[i].db)
    requires act.Record? ==> Eval(p, s.workers[i].model) in FeasiblePoints(p)
    ensures WorkerInv(p, Found(s'), s'.workers[i])
  {
    var w, w' := s.workers[i], s'.workers[i];
    if w.pc == Refuted && w'.pc == Refuted {
      EntailsMore(w.db, w'.db, LitSet(w.core));
    }
  }

  lemma EntailsMore(db: Db, more: Db, c: Clause)
    requires Entails(db, c) && db <= more
    ensures Entails(more, c)
  {
    forall a: Assignment | SatDb(more, a)
      ensures SatDb(db, a)
    {
    }
  }

  // ---- the fences

  /** If the core of a fence has no expansion, every feasible point is covered. */
  lemma NoExpansionCovers(p: Problem, stride: real, found: set<Point>, w: Worker)
    requires Valid(p) && OwnRoots(p) && stride >= 0.0 && WorkerInv(p, found, w) && w.pc == Refuted
    requires |w.fence| == |p.roots| && Expansions(p, stride, w.fence, LitSet(w.core)) == []
    ensures CoversAll(found, FeasiblePoints(p))
  {
    forall q | q in FeasiblePoints(p)
      ensures Covered(found, q)
    {
      if !Covered(found, q) {
        var i := UncoveredPointExtends(p, found, w.db, LitSet(w.core), w.fence, q);
        ExpansionExists(p, stride, w.fence, LitSet(w.core), 0, i);
      }
    }
  }

  lemma StepKeepsInv(p: Problem, stride: real, s: State, i: nat, act: Action, s': State)
    requires Valid(p) && OwnRoots(p) && stride >= 0.0 && Inv(p, s) && i < |s.workers| && Step(p, stride, s, i, act, s')
    ensures Inv(p, s') && s.seen <= s'.seen
  {
    KeepsWorkers(p, stride, s, i, act, s');
    StepFrame(p, stride, s, i, act, s');
    FoundGrows(s, i, s');
    StepMoves(p, stride, s, i, act, s');
    if act.InsertExpansions? && act.order == [] {
      var w := s.workers[i];
      SameElements(act.order, Expansions(p, stride, w.fence, LitSet(w.core)));
      assert WorkerInv(p, Found(s), w);
      NoExpansionCovers(p, stride, Found(s), w);
    }
    MoveKeepsQueue(p, AllCovered(p, s), AllCovered(p, s'), QueueOf(s), i, MoveOf(act), QueueOf(s'));
  }

  // ---------------------------------------------------------------- completeness

  lemma InitInv(p: Problem, root: Point, s: State)
    requires Valid(p) && Dominates(root, p.max) && Init(p, root, s)
    ensures Inv(p, s)
  {
    forall w | w in s.workers
      ensures WorkerInv(p, Found(s), w)
    {
      InitWorker(p, root, s, w);
    }
    StartQueue(p, root, QueueOf(s));
  }

  lemma InitWorker(p: Problem, root: Point, s: State, w: Worker)
    requires Valid(p) && Init(p, root, s) && w in s.workers
    ensures WorkerInv(p, Found(s), w)
  {
    var first :| first in s.archive && w.db == p.hard + Blocks(p, {first});
    DominatesItself(first);
    SoundBlocks(p, Found(s), p.hard, {first});
  }

  lemma {:induction false} RunKeepsInv(p: Problem, stride: real, root: Point, run: seq<State>, k: nat)
    requires Valid(p) && OwnRoots(p) && stride >= 0.0 && Dominates(root, p.max) && Run(p, stride, root, run) &&
        k < |run|
    ensures Inv(p, run[k]) && root in run[k].seen
  {
    hide Inv, Step, Valid, OwnRoots;
    if k == 0 {
      InitInv(p, root, run[0]);
    } else {
      RunKeepsInv(p, stride, root, run, k - 1);
      assert Next(p, stride, run[k - 1], run[k - 1 + 1]);
      var i, act :| 0 <= i < |run[k - 1].workers| && Step(p, stride, run[k - 1], i, act, run[k]);
      StepKeepsInv(p, stride, run[k - 1], i, act, run[k]);
    }
  }

  /** Termination detection is sound: with nothing pending and nobody active, the archive covers everything. */
  lemma QuietMeansCovered(p: Problem, s: State)
    requires Inv(p, s) && s.seen != {} && s.stack == [] && s.active == 0
    ensures CoversAll(s.archive, FeasiblePoints(p))
  {
    QuietIsDone(p, AllCovered(p, s), QueueOf(s));
    forall j | 0 <= j < |s.workers|
      ensures s.workers[j].solutions == {}
    {
      assert WorkerInv(p, Found(s), s.workers[j]) && QueueOf(s).slots[j] in QueueOf(s).slots;
    }
    assert Found(s) == s.archive;
  }

  ghost predicate Finished(s: State) {
    exists w :: w in s.workers && w.pc == Exited
  }

  lemma ExitedIsGone(s: State)
    ensures Finished(s) <==> Gone in QueueOf(s).slots
  {
    if Finished(s) {
      var j :| 0 <= j < |s.workers| && s.workers[j].pc == Exited;
      assert QueueOf(s).slots[j] == Gone;
    }
    if Gone in QueueOf(s).slots {
      var j :| 0 <= j < |s.workers| && QueueOf(s).slots[j] == Gone;
      assert s.workers[j] in s.workers;
    }
  }

  lemma {:induction false} RunKeepsQuiet(p: Problem, stride: real, root: Point, run: seq<State>, k: nat)
    requires Valid(p) && OwnRoots(p) && stride >= 0.0 && Dominates(root, p.max) && Run(p, stride, root, run) &&
        k < |run|
    ensures Finished(run[k]) ==> Quiet(QueueOf(run[k]))
  {
    hide Step, Valid, OwnRoots, Moves;
    if k > 0 {
      RunKeepsQuiet(p, stride, root, run, k - 1);
      RunKeepsInv(p, stride, root, run, k - 1);
      assert Next(p, stride, run[k - 1], run[k - 1 + 1]);
      var i, act :| 0 <= i < |run[k - 1].workers| && Step(p, stride, run[k - 1], i, act, run[k]);
      StepMoves(p, stride, run[k - 1], i, act, run[k]);
      ExitedIsGone(run[k - 1]);
      ExitedIsGone(run[k]);
      MoveKeepsQuiet(p, QueueOf(run[k - 1]), i, MoveOf(act), QueueOf(run[k]));
    }
  }

  /** Completeness for every stride, every expansion order and every interleaving: once a worker
      leaves the loop the archive has exactly the Pareto front as its non-dominated points. */
  lemma CoreGuidedIsExact(p: Problem, stride: real, root: Point, run: seq<State>, k: nat)
    requires Valid(p) && OwnRoots(p) && stride >= 0.0 && Dominates(root, p.max) && Run(p, stride, root, run) &&
        k < |run|
    requires Finished(run[k])
    ensures CoversAll(run[k].archive, FeasiblePoints(p))
    ensures ParetoFront(run[k].archive) == ParetoFront(FeasiblePoints(p))
  {
    RunKeepsInv(p, stride, root, run, k);
    RunKeepsQuiet(p, stride, root, run, k);
    QuietMeansCovered(p, run[k]);
    CoverHasTheFront(run[k].archive, FeasiblePoints(p));
  }

  // ---------------------------------------------------------------- termination

  function Queues(run: seq<State>): seq<Queue> {
    seq(|run|, k requires 0 <= k < |run| => QueueOf(run[k]))
  }

  /** The work list terminates: no run completes more fences than the root weighs. */
  lemma FencesAreBounded(p: Problem, stride: real, root: Point, run: seq<State>)
    requires Valid(p) && OwnRoots(p) && stride >= 0.0 && Dominates(root, p.max) && Run(p, stride, root, run)
    ensures Completed(Queues(run)) + Potential(p, QueueOf(run[|run| - 1])) <= Power(|p.max| + 1, Gap(root, p.max))
  {
    hide Step, Valid, OwnRoots, Moves, QueueInv, Completed, Potential;
    var qs := Queues(run);
    forall k | 0 <= k < |qs| - 1
      ensures MovesOn(p, qs[k], qs[k + 1])
    {
      RunKeepsInv(p, stride, root, run, k);
      assert Next(p, stride, run[k], run[k + 1]);
      var i, act :| 0 <= i < |run[k].workers| && Step(p, stride, run[k], i, act, run[k + 1]);
      StepMoves(p, stride, run[k], i, act, run[k + 1]);
      assert QueueInv(p, AllCovered(p, run[k]), qs[k]) && Moves(p, qs[k], i, MoveOf(act), qs[k + 1]);
    }
    CompletedIsBounded(p, qs);
    StartWeighs(p, root, qs[0]);
  }
}
