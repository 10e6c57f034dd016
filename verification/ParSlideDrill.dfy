/** Parallel slide-and-drill as a step relation over any number of workers.

    One step is the code between two critical sections or oracle calls. Workers take cells
    (points to drill) from a shared waiting list, slide below them, and publish the guard
    variables of their finds through a log that every worker replays. */
module ParSlideDrill {
  import opened Cnf
  import opened Pareto
  import opened Encoding
  import opened ParallelMO

  datatype Update = DefineVar(v: nat, y: Point) | FinalizeVar(v: nat)

  datatype Pc = Idle | Fetched | Drilling | HasModel | Sliding | Finalizing | Publishing | Inserting | Retiring | Exited

  datatype Worker = Worker(
    pc: Pc,
    cell: Point,
    requeue: bool,
    model: Assignment,
    db: Db,
    next: nat,
    solutions: set<Point>,
    batch: set<Point>)

  datatype State = State(
    waiting: multiset<Point>,
    seen: set<Point>,
    active: int,
    mem: map<Point, set<nat>>,
    slideMap: map<nat, Point>,
    log: seq<Update>,
    nextVar: nat,
    archive: set<Point>,
    workers: seq<Worker>)

  datatype Action =
    | Pop(c: Point)
    | Exit
    | ApplyUpdates(n: nat)
    | ShareClauses(k: nat, clause: Clause)
    | Import(pulled: set<Point>)
    | DrillSat(a: Assignment)
    | DrillUnsat(conflict: Clause)
    | DrillUndef
    | Record
    | SlideSat(a: Assignment)
    | SlideUnsat(conflict: Clause)
    | SlideUndef
    | Finalize(v: nat)
    | FinalizeDone
    | Publish(pulled: set<Point>)
    | Insert(b: Point)
    | Erase
    | Retire

  // ---------------------------------------------------------------- the protocol

  predicate Busy(w: Worker) {
    w.pc != Idle && w.pc != Exited
  }

  function Deps(s: State, c: Point): set<nat> {
    if c in s.mem then s.mem[c] else {}
  }

  /** What the worker assumes in every oracle call made for its cell. */
  function Assumed(p: Problem, s: State, c: Point): set<Lit>
  {
    BelowLits(p.roots, c) + set v | v in Deps(s, c) :: Lit(v, true)
  }

  function UpdateClause(p: Problem, u: Update): Clause
  {
    match u
    case DefineVar(v, y) => GuardClause(p.roots, y, Lit(v, false))
    case FinalizeVar(v) => {Lit(v, false)}
  }

  function UpdateClauses(p: Problem, log: seq<Update>): Db
  {
    set u | u in log :: UpdateClause(p, u)
  }

  function CountDefs(log: seq<Update>): nat {
    if log == [] then 0
    else CountDefs(log[..|log| - 1]) + if log[|log| - 1].DefineVar? then 1 else 0
  }

  /** The number of variables of a solver that has replayed the first `n` updates. */
  function Cutoff(p: Problem, s: State, n: nat): nat
    requires n <= |s.log|
  {
    p.base + CountDefs(s.log[..n])
  }

  /** The database rejects everything that `y` weakly dominates. */
  ghost predicate Reflected(p: Problem, db: Db, y: Point) {
    exists z: Point :: |z| == |p.roots| && BlockClause(p.roots, z) in db && Dominates(z, y)
  }

  ghost predicate Init(p: Problem, first: Point, s: State) {
    && s.waiting == multiset{p.max} && s.seen == {p.max} && s.active == 0
    && s.mem == map[] && s.slideMap == map[] && s.log == [] && s.nextVar == p.base
    && s.archive == {}
    && |first| == |p.roots|
    && forall w | w in s.workers ::
      && w.pc == Idle && w.db == p.hard + {BlockClause(p.roots, first)} && w.next == 0
      && w.solutions == {} && w.batch == {}
  }

  function SetWorker(s: State, i: nat, w: Worker): State
    requires i < |s.workers|
  {
    s.(workers := s.workers[i := w])
  }

  ghost predicate Step(p: Problem, s: State, i: nat, act: Action, s': State)
    requires i < |s.workers|
  {
    var w := s.workers[i];
    match act
    case Pop(c) =>
      && w.pc == Idle && c in s.waiting
      && s' == SetWorker(s, i, w.(pc := Fetched, cell := c)).(waiting := s.waiting - multiset{c},
          active := s.active + 1)
    case Exit =>
      && w.pc == Idle && s.waiting == multiset{} && s.active == 0
      && s' == SetWorker(s, i, w.(pc := Exited))
    case ApplyUpdates(n) =>
      && Busy(w) && w.pc != HasModel && w.next <= n <= |s.log|
      && s' == SetWorker(s, i, w.(db := w.db + UpdateClauses(p, s.log[w.next..n]), next := n))
    case ShareClauses(k, clause) =>
      && Busy(w) && w.pc != HasModel && k < |s.workers| && Entails(s.workers[k].db, clause)
      && w.next <= |s.log| && LitsBelow(clause, Cutoff(p, s, w.next))
      && s' == SetWorker(s, i, w.(db := w.db + {clause}))
    case Import(pulled) =>
      && w.pc == Fetched && pulled <= s.archive
      && (forall y | y in s.archive :: Reflected(p, w.db + Blocks(p, pulled), y))
      && s' == SetWorker(s, i, w.(db := w.db + Blocks(p, pulled), pc := Drilling))
    case DrillSat(a) =>
      && w.pc == Drilling && SatDb(w.db, a) && AllHold(Assumed(p, s, w.cell), a)
      && s' == SetWorker(s, i, w.(pc := HasModel, model := a)).(mem := s.mem[w.cell := Deps(s, w.cell)])
    case DrillUnsat(conflict) =>
      && w.pc == Drilling && Entails(w.db, conflict) && Negates(conflict, Assumed(p, s, w.cell))
      && s' == SetWorker(s, i, w.(pc := Retiring, requeue := false))
    case DrillUndef =>
      && w.pc == Drilling
      && s' == SetWorker(s, i, w.(pc := Retiring, requeue := true))
    case Record =>
      var y := Eval(p, w.model);
      && w.pc == HasModel
      && if exists t | t in w.solutions :: Dominates(t, y) then
           s' == SetWorker(s, i, w.(pc := Sliding))
         else
           s' == SetWorker(s, i, w.(pc := Sliding, solutions := PushSafe(w.solutions, y), batch := w.batch + {y},
                                    db := w.db + {BlockClause(p.roots, y)}))
                 .(log := s.log + [DefineVar(s.nextVar, y)], nextVar := s.nextVar + 1,
                   mem := s.mem[w.cell := Deps(s, w.cell) + {s.nextVar}], slideMap := s.slideMap[s.nextVar := y])
    case SlideSat(a) =>
      && w.pc == Sliding && SatDb(w.db, a) && AllHold(Assumed(p, s, w.cell), a)
      && s' == SetWorker(s, i, w.(pc := HasModel, model := a))
    case SlideUnsat(conflict) =>
      && w.pc == Sliding && Entails(w.db, conflict) && Negates(conflict, Assumed(p, s, w.cell))
      && s' == SetWorker(s, i, w.(pc := Finalizing, requeue := false))
    case SlideUndef =>
      && w.pc == Sliding
      && s' == SetWorker(s, i, w.(pc := Publishing, requeue := true))
    case Finalize(v) =>
      && w.pc == Finalizing && v in Deps(s, w.cell)
      && s' == s.(log := s.log + [FinalizeVar(v)])
    case FinalizeDone =>
      && w.pc == Finalizing && (forall v | v in Deps(s, w.cell) :: FinalizeVar(v) in s.log)
      && s' == SetWorker(s, i, w.(pc := Publishing))
    case Publish(pulled) =>
      && w.pc == Publishing && pulled <= s.archive
      && s' == SetWorker(s, i, w.(pc := Inserting, solutions := {}, db := w.db + Blocks(p, pulled)))
               .(archive := s.archive + w.solutions)
    case Insert(b) =>
      && w.pc == Inserting && b in w.batch
      && s' == SetWorker(s, i, w.(batch := w.batch - {b}))
               .(seen := s.seen + {b}, waiting := if b in s.seen then s.waiting else s.waiting + multiset{b})
    case Erase =>
      && w.pc == Inserting && w.batch == {}
      && s' == SetWorker(s, i, w.(pc := Retiring)).(mem := if w.requeue then s.mem else s.mem - {w.cell})
    case Retire =>
      && w.pc == Retiring
      && s' == SetWorker(s, i, w.(pc := Idle))
               .(active := s.active - 1, waiting := if w.requeue then s.waiting + multiset{w.cell} else s.waiting)
  }

  // ---------------------------------------------------------------- the invariant

  /** Every point anyone has found so far. */
  ghost function Found(first: Point, s: State): set<Point> {
    s.archive + {first} + set w, y | w in s.workers && y in w.solutions :: y
  }

  ghost predicate UpdateHolds(p: Problem, u: Update, a: Assignment) {
    match u
    case DefineVar(v, y) => v in a || !Dominates(Eval(p, a), y)
    case FinalizeVar(v) => v in a
  }

  /** An assignment that no clause of any worker may reject. */
  ghost predicate GlobalModel(p: Problem, first: Point, s: State, a: Assignment) {
    && SatDb(p.hard, a)
    && !Covered(Found(first, s), Eval(p, a))
    && forall u | u in s.log :: UpdateHolds(p, u, a)
  }

  ghost predicate AllSound(p: Problem, first: Point, s: State) {
    forall i, a: Assignment | 0 <= i < |s.workers| && GlobalModel(p, first, s, a) :: SatDb(s.workers[i].db, a)
  }

  predicate Searching(w: Worker) {
    w.pc in {Fetched, Drilling, HasModel, Sliding} || (w.pc in {Publishing, Inserting, Retiring} && w.requeue)
  }

  /** A cell that is waiting or that a worker is searching. */
  ghost predicate SearchCell(s: State, c: Point) {
    c in s.waiting || exists i :: 0 <= i < |s.workers| && Searching(s.workers[i]) && s.workers[i].cell == c
  }

  ghost predicate InBatch(s: State, b: Point) {
    exists i :: 0 <= i < |s.workers| && b in s.workers[i].batch
  }

  /** `q` is outside the regions that the cell has left to its finds. */
  ghost predicate Clear(s: State, c: Point, q: Point) {
    forall v | v in Deps(s, c) && v in s.slideMap :: !Dominates(q, s.slideMap[v])
  }

  ghost predicate CellWitness(s: State, q: Point, d: Point, c: Point) {
    SearchCell(s, c) && Dominates(q, c) && Dominates(c, d) && Clear(s, c, q)
  }

  ghost predicate BatchWitness(s: State, q: Point, d: Point, b: Point) {
    InBatch(s, b) && Dominates(q, b) && Dominates(b, d) && b != d
  }

  ghost predicate Witnessed(s: State, q: Point, d: Point) {
    || (exists c :: CellWitness(s, q, d, c))
    || (exists b :: BatchWitness(s, q, d, b))
  }

  /** Below every point ever inserted, each uncovered feasible point is still somebody's work. */
  ghost predicate Coverage(p: Problem, first: Point, s: State) {
    forall q, d | q in FeasiblePoints(p) && d in s.seen && Dominates(q, d) && !Covered(Found(first, s), q) ::
      Witnessed(s, q, d)
  }

  /** The log defines consecutive variables and finalizes only what it has defined. */
  ghost predicate LogInv(p: Problem, s: State) {
    && s.nextVar == p.base + CountDefs(s.log)
    && (forall k | 0 <= k < |s.log| && s.log[k].DefineVar? ::
          && s.log[k].v == p.base + CountDefs(s.log[..k])
          && s.log[k].v in s.slideMap && s.slideMap[s.log[k].v] == s.log[k].y
          && Keyed(p, s.log[k].y))
    && (forall k | 0 <= k < |s.log| && s.log[k].FinalizeVar? ::
          exists j :: 0 <= j < k && s.log[j].DefineVar? && s.log[j].v == s.log[k].v)
  }

  /** Each worker has replayed a prefix of the log, and its clauses know no later guard. */
  ghost predicate PrefixInv(p: Problem, s: State) {
    forall i | 0 <= i < |s.workers| ::
      && s.workers[i].next <= |s.log|
      && UpdateClauses(p, s.log[..s.workers[i].next]) <= s.workers[i].db
      && DbBelow(s.workers[i].db, Cutoff(p, s, s.workers[i].next))
  }

  /** The guards of a cell lie strictly below it. */
  ghost predicate GuardsBelow(p: Problem, s: State) {
    forall c, v: nat | c in s.mem && v in s.mem[c] ::
      v in s.slideMap && s.slideMap[v] != c && Dominates(s.slideMap[v], c)
  }

  /** Every guard is a variable that the log defines. */
  ghost predicate GuardsDefined(p: Problem, s: State) {
    forall v: nat | v in s.slideMap :: p.base <= v < s.nextVar && DefineVar(v, s.slideMap[v]) in s.log
  }

  /** A guard belongs to one cell. */
  ghost predicate GuardsOwned(s: State) {
    forall c, d, v: nat | c in s.mem && d in s.mem && v in s.mem[c] && v in s.mem[d] :: c == d
  }

  /** No guard is finalized while its cell is searched. */
  ghost predicate GuardsLive(s: State) {
    forall c, v: nat | SearchCell(s, c) && v in Deps(s, c) :: FinalizeVar(v) !in s.log
  }

  ghost predicate MemInv(p: Problem, s: State) {
    s.mem.Keys <= s.seen && GuardsBelow(p, s) && GuardsDefined(p, s) && GuardsOwned(s) && GuardsLive(s)
  }

  /** No cell is in two places. */
  ghost predicate UniqueInv(p: Problem, s: State) {
    && (forall c | c in s.waiting :: s.waiting[c] == 1 && c in s.seen)
    && (forall i | 0 <= i < |s.workers| && Busy(s.workers[i]) ::
        s.workers[i].cell in s.seen && s.workers[i].cell !in s.waiting)
    && (forall i, j | 0 <= i < j < |s.workers| && Busy(s.workers[i]) && Busy(s.workers[j]) ::
        s.workers[i].cell != s.workers[j].cell)
  }

  /** Points enter the waiting list only after the archive covers them. */
  ghost predicate PublishedInv(p: Problem, first: Point, s: State) {
    && (forall c | c in s.seen :: |c| == |p.roots| && Covered(s.archive + {first}, c))
    && first in FeasiblePoints(p) && s.archive <= FeasiblePoints(p)
  }

  ghost predicate WorkerFinds(p: Problem, w: Worker) {
    && w.solutions <= FeasiblePoints(p) && w.batch <= FeasiblePoints(p)
    && (w.pc in {Idle, Fetched, Drilling, Retiring, Exited} ==> w.solutions == {} && w.batch == {})
    && (w.pc == Inserting ==> w.solutions == {})
    && (w.pc == Finalizing ==> !w.requeue)
  }

  ghost predicate WorkerRejects(p: Problem, w: Worker) {
    && (w.pc in {Drilling, HasModel, Sliding} ==> Rejects(p, w.db, w.cell))
    && (w.pc in {HasModel, Sliding} ==> forall t | t in w.solutions :: Rejects(p, w.db, t))
  }

  /** The batch will be covered by the archive once the worker has shared its solutions. */
  ghost predicate WorkerBatch(s: State, w: Worker) {
    && (w.pc in {HasModel, Sliding, Finalizing, Publishing} ==>
          (w.cell in s.mem && forall b | b in w.batch :: Covered(w.solutions, b)))
    && (w.pc == Inserting ==> forall b | b in w.batch :: Covered(s.archive, b))
  }

  ghost predicate WorkerModel(p: Problem, s: State, w: Worker) {
    w.pc == HasModel ==> SatDb(w.db, w.model) && AllHold(Assumed(p, s, w.cell), w.model)
  }

  ghost predicate WorkerInv(p: Problem, first: Point, s: State, w: Worker) {
    && p.hard <= w.db && BlockClause(p.roots, first) in w.db
    && WorkerFinds(p, w)
    && WorkerRejects(p, w)
    && WorkerBatch(s, w)
    && WorkerModel(p, s, w)
  }

  ghost predicate Inv(p: Problem, first: Point, s: State) {
    && LogInv(p, s)
    && PrefixInv(p, s)
    && MemInv(p, s)
    && UniqueInv(p, s)
    && s.active == CountIf(Busy, s.workers)
    && PublishedInv(p, first, s)
    && (forall w | w in s.workers :: WorkerInv(p, first, s, w))
    && AllSound(p, first, s)
    && Coverage(p, first, s)
  }

  // ---------------------------------------------------------------- what an oracle answer means

  /** Any feasible model outside the found regions extends to a global model in which exactly
      the guards of one searched cell are false. */
  lemma GuardExtension(p: Problem, first: Point, s: State, c: Point, a: Assignment) returns (b: Assignment)
    requires Valid(p) && LogInv(p, s) && MemInv(p, s) && SearchCell(s, c)
    requires SatDb(p.hard, a) && !Covered(Found(first, s), Eval(p, a)) && Clear(s, c, Eval(p, a))
    ensures GlobalModel(p, first, s, b) && Agree(a, b, p.base) && Eval(p, b) == Eval(p, a)
    ensures forall v | v in Deps(s, c) :: v !in b
    ensures forall v | v in s.slideMap && v !in Deps(s, c) :: v in b
  {
    b := (set v | v in a && v < p.base) + (s.slideMap.Keys - Deps(s, c));
    SatDbAgree(p.hard, a, b, p.base);
    EvalAgree(p, a, b);
    forall u | u in s.log
      ensures UpdateHolds(p, u, b)
    {
      var k :| 0 <= k < |s.log| && s.log[k] == u;
      if u.FinalizeVar? {
        var j :| 0 <= j < k && s.log[j].DefineVar? && s.log[j].v == u.v;
      }
    }
  }

  /** A refutation under the assumptions of a cell leaves no uncovered point in what the cell still owns. */
  lemma RefutationCovers(p: Problem, first: Point, s: State, i: nat, conflict: Clause, q: Point)
    requires Valid(p) && Inv(p, first, s)
    requires i < |s.workers| && Searching(s.workers[i])
    requires Entails(s.workers[i].db, conflict) && Negates(conflict, Assumed(p, s, s.workers[i].cell))
    requires q in FeasiblePoints(p) && Dominates(q, s.workers[i].cell) && Clear(s, s.workers[i].cell, q)
    ensures Covered(Found(first, s), q)
  {
    var c := s.workers[i].cell;
    if !Covered(Found(first, s), q) {
      var a := FeasiblePoint(p, q);
      var b := GuardExtension(p, first, s, c, a);
      BelowComplete(p, c, b);
      assert AllHold(Assumed(p, s, c), b);
      ConflictRefutes(s.workers[i].db, conflict, Assumed(p, s, c), b);
    }
  }

  /** A model found below a cell lies strictly below it and outside the regions of the cell's finds. */
  lemma ModelIsStrictlyBelow(p: Problem, first: Point, s: State, i: nat)
    requires Valid(p) && Inv(p, first, s)
    requires i < |s.workers| && s.workers[i].pc == HasModel
    ensures var y := Eval(p, s.workers[i].model);
            && y in FeasiblePoints(p) && Keyed(p, y)
            && Dominates(y, s.workers[i].cell) && y != s.workers[i].cell
            && forall t | t in s.workers[i].solutions :: !Dominates(t, y)
  {
    var w := s.workers[i];
    assert WorkerInv(p, first, s, w);
    var y := Eval(p, w.model);
    assert SatDb(p.hard, w.model);
    ModelIsFeasible(p, w.model);
    ModelPointIsKeyed(p, w.model);
    var x :| x in s.archive + {first} && Dominates(x, w.cell);
    var _ := FeasiblePoint(p, x);
    KeyedAbove(p, x, w.cell);
    BelowMeaning(p, w.cell, w.model);
  }

  // ---------------------------------------------------------------- every step keeps the invariant

  /** What no step does: shrink the shared logs and sets, touch other workers, lose a find. */
  ghost predicate Frame(p: Problem, s: State, i: nat, s': State)
    requires i < |s.workers|
  {
    && |s'.workers| == |s.workers|
    && (forall j | 0 <= j < |s.workers| && j != i :: s'.workers[j] == s.workers[j])
    && s.log <= s'.log && s.archive <= s'.archive && s.seen <= s'.seen
    && (forall y | y in s.workers[i].solutions :: y in s'.archive || Covered(s'.workers[i].solutions, y))
  }

  lemma StepFrame(p: Problem, s: State, i: nat, act: Action, s': State)
    requires i < |s.workers| && Step(p, s, i, act, s')
    ensures Frame(p, s, i, s')
  {
    var w, w' := s.workers[i], s'.workers[i];
    forall y | y in w.solutions
      ensures y in s'.archive || Covered(w'.solutions, y)
    {
      DominatesItself(y);
      if act.Record? {
        PushSafeCovers(w.solutions, Eval(p, w.model), y);
      }
    }
  }

  lemma FoundGrows(p: Problem, first: Point, s: State, i: nat, s': State, q: Point)
    requires i < |s.workers| && Frame(p, s, i, s')
    requires Covered(Found(first, s), q)
    ensures Covered(Found(first, s'), q)
  {
    var y :| y in Found(first, s) && Dominates(y, q);
    if y !in s.archive + {first} {
      var j :| 0 <= j < |s.workers| && y in s.workers[j].solutions;
      assert s'.workers[j] in s'.workers;
      if j == i && y !in s'.archive {
        CoveredBelow(s'.workers[i].solutions, y, q);
        var t :| t in s'.workers[i].solutions && Dominates(t, q);
        assert t in Found(first, s');
      } else {
        assert y in Found(first, s');
      }
    }
  }

  lemma GlobalModelBefore(p: Problem, first: Point, s: State, i: nat, s': State, a: Assignment)
    requires i < |s.workers| && Frame(p, s, i, s') && GlobalModel(p, first, s', a)
    ensures GlobalModel(p, first, s, a)
  {
    if Covered(Found(first, s), Eval(p, a)) {
      FoundGrows(p, first, s, i, s', Eval(p, a));
    }
    forall u | u in s.log
      ensures u in s'.log
    {
      var k :| 0 <= k < |s.log| && s.log[k] == u;
      assert s'.log[k] == u;
    }
  }

  /** Why a worker may add a clause: it replays the log, blocks a find, or learns from a colleague. */
  ghost predicate Justified(p: Problem, first: Point, s: State, s': State, c: Clause) {
    || (exists u :: u in s.log && c == UpdateClause(p, u))
    || (exists y :: y in Found(first, s') && y in FeasiblePoints(p) && c == BlockClause(p.roots, y))
    || (exists k :: 0 <= k < |s.workers| && Entails(s.workers[k].db, c))
  }

  lemma NewClausesJustified(p: Problem, first: Point, s: State, i: nat, act: Action, s': State, c: Clause)
    requires i < |s.workers| && Step(p, s, i, act, s') && s.archive <= FeasiblePoints(p)
    requires s.workers[i].pc == HasModel ==> Eval(p, s.workers[i].model) in FeasiblePoints(p)
    requires c in s'.workers[i].db && c !in s.workers[i].db
    ensures Justified(p, first, s, s', c)
  {
    if act.ShareClauses? {
      assert Entails(s.workers[act.k].db, c);
    } else if act.Record? {
      assert s'.workers[i] in s'.workers;
    }
  }

  lemma JustifiedHolds(p: Problem, first: Point, s: State, s': State, c: Clause, a: Assignment)
    requires Valid(p) && LogInv(p, s) && AllSound(p, first, s)
    requires GlobalModel(p, first, s, a) && GlobalModel(p, first, s', a) && Justified(p, first, s, s', c)
    ensures SatClause(c, a)
  {
    if u :| u in s.log && c == UpdateClause(p, u) {
      var k :| 0 <= k < |s.log| && s.log[k] == u;
      assert UpdateHolds(p, u, a);
      match u
      case DefineVar(v, y) => GuardMeaning(p, y, Lit(v, false), a);
      case FinalizeVar(v) => assert Lit(v, false) in c;
    } else if y :| y in Found(first, s') && y in FeasiblePoints(p) && c == BlockClause(p.roots, y) {
      var _ := FeasiblePoint(p, y);
      BlockMeaning(p, y, a);
    } else {
      var k :| 0 <= k < |s.workers| && Entails(s.workers[k].db, c);
      assert SatDb(s.workers[k].db, a);
    }
  }

  lemma KeepsSound(p: Problem, first: Point, s: State, i: nat, act: Action, s': State)
    requires Valid(p) && Inv(p, first, s) && i < |s.workers| && Step(p, s, i, act, s')
    ensures AllSound(p, first, s')
  {
    StepFrame(p, s, i, act, s');
    forall j, a: Assignment | 0 <= j < |s'.workers| && GlobalModel(p, first, s', a)
      ensures SatDb(s'.workers[j].db, a)
    {
      GlobalModelBefore(p, first, s, i, s', a);
      assert SatDb(s.workers[j].db, a);
      if j == i {
        forall c | c in s'.workers[i].db
          ensures SatClause(c, a)
        {
          if c !in s.workers[i].db {
            if s.workers[i].pc == HasModel {
              ModelIsStrictlyBelow(p, first, s, i);
            }
            NewClausesJustified(p, first, s, i, act, s', c);
            JustifiedHolds(p, first, s, s', c, a);
          }
        }
      }
    }
  }

  lemma KeepsActive(p: Problem, s: State, i: nat, act: Action, s': State)
    requires s.active == CountIf(Busy, s.workers) && i < |s.workers| && Step(p, s, i, act, s')
    ensures s'.active == CountIf(Busy, s'.workers)
  {
    hide Step;
    StepBusy(p, s, i, act, s');
    CountUpdate(Busy, s.workers, i, s'.workers[i]);
  }

  /** Only `Pop` and `Retire` change whether the worker is busy, and the counter with it. */
  lemma StepBusy(p: Problem, s: State, i: nat, act: Action, s': State)
    requires i < |s.workers| && Step(p, s, i, act, s')
    ensures |s'.workers| == |s.workers| && s'.workers == s.workers[i := s'.workers[i]]
    ensures act.Pop? ==> !Busy(s.workers[i]) && Busy(s'.workers[i]) && s'.active == s.active + 1
    ensures act.Retire? ==> Busy(s.workers[i]) && !Busy(s'.workers[i]) && s'.active == s.active - 1
    ensures !act.Pop? && !act.Retire? ==> Busy(s'.workers[i]) == Busy(s.workers[i]) && s'.active == s.active
  {
    hide Step, Busy;
    OneWorkerMoves(p, s, i, act, s');
    match act {
      case Pop(c) => PopStarts(p, s, i, c, s');
      case Retire => RetireEnds(p, s, i, s');
      case _ => OthersGoOn(p, s, i, act, s');
    }
  }

  lemma OneWorkerMoves(p: Problem, s: State, i: nat, act: Action, s': State)
    requires i < |s.workers| && Step(p, s, i, act, s')
    ensures |s'.workers| == |s.workers| && s'.workers == s.workers[i := s'.workers[i]]
  {
  }

  lemma PopStarts(p: Problem, s: State, i: nat, c: Point, s': State)
    requires i < |s.workers| && Step(p, s, i, Pop(c), s')
    ensures |s'.workers| == |s.workers| && !Busy(s.workers[i]) && Busy(s'.workers[i]) && s'.active == s.active + 1
  {
  }

  lemma RetireEnds(p: Problem, s: State, i: nat, s': State)
    requires i < |s.workers| && Step(p, s, i, Retire, s')
    ensures |s'.workers| == |s.workers| && Busy(s.workers[i]) && !Busy(s'.workers[i]) && s'.active == s.active - 1
  {
  }

  lemma OthersGoOn(p: Problem, s: State, i: nat, act: Action, s': State)
    requires i < |s.workers| && Step(p, s, i, act, s') && !act.Pop? && !act.Retire?
    ensures |s'.workers| == |s.workers| && Busy(s'.workers[i]) == Busy(s.workers[i]) && s'.active == s.active
  {
  }

  /** Cells stop being searched by refutations and by `Retire`; a requeued one is searched again. */
  lemma StepSearching(p: Problem, s: State, i: nat, act: Action, s': State)
    requires i < |s.workers| && Step(p, s, i, act, s')
    ensures |s'.workers| == |s.workers|
    ensures var w, w' := s.workers[i], s'.workers[i];
      && (!act.Pop? && !act.Retire? && !act.DrillUnsat? && !act.SlideUnsat? && !act.FinalizeDone? ==>
          Searching(w') == Searching(w))
      && (act.FinalizeDone? ==> Searching(w') == w.requeue && !Searching(w))
      && (act.DrillUnsat? || act.SlideUnsat? ==> Searching(w) && !Searching(w'))
      && (act.DrillSat? ==> Searching(w) && Busy(w))
  {
    hide Step, Searching, Busy;
    OneWorkerMoves(p, s, i, act, s');
    match act {
      case Pop(_) =>
      case Retire =>
      case FinalizeDone => FinalizedSearches(p, s, i, s');
      case DrillUnsat(_) => RefutedStops(p, s, i, act, s');
      case SlideUnsat(_) => RefutedStops(p, s, i, act, s');
      case _ => OthersSearchOn(p, s, i, act, s');
    }
  }

  lemma FinalizedSearches(p: Problem, s: State, i: nat, s': State)
    requires i < |s.workers| && Step(p, s, i, FinalizeDone, s')
    ensures |s'.workers| == |s.workers| && Searching(s'.workers[i]) == s.workers[i].requeue && !Searching(s.workers[i])
  {
  }

  lemma RefutedStops(p: Problem, s: State, i: nat, act: Action, s': State)
    requires i < |s.workers| && Step(p, s, i, act, s') && (act.DrillUnsat? || act.SlideUnsat?)
    ensures |s'.workers| == |s.workers| && Searching(s.workers[i]) && !Searching(s'.workers[i])
  {
  }

  lemma OthersSearchOn(p: Problem, s: State, i: nat, act: Action, s': State)
    requires i < |s.workers| && Step(p, s, i, act, s')
    requires !act.Pop? && !act.Retire? && !act.DrillUnsat? && !act.SlideUnsat? && !act.FinalizeDone?
    ensures |s'.workers| == |s.workers| && Searching(s'.workers[i]) == Searching(s.workers[i])
    ensures act.DrillSat? ==> Searching(s.workers[i]) && Busy(s.workers[i])
  {
  }

  lemma CountDefsMonotone(log: seq<Update>, m: nat, n: nat)
    requires m <= n <= |log|
    ensures CountDefs(log[..m]) <= CountDefs(log[..n])
    ensures m < n && log[m].DefineVar? ==> CountDefs(log[..m]) < CountDefs(log[..n])
    decreases n
  {
    if m < n {
      CountDefsMonotone(log, m, n - 1);
      assert log[..n][..n - 1] == log[..n - 1];
    }
  }

  lemma LogAppended(log: seq<Update>, u: Update)
    ensures CountDefs(log + [u]) == CountDefs(log) + if u.DefineVar? then 1 else 0
  {
    assert (log + [u])[..|log|] == log;
  }

  lemma LogGrows(p: Problem, s: State, s': State, u: Update)
    requires LogInv(p, s) && s'.log == s.log + [u]
    requires s'.nextVar == s.nextVar + if u.DefineVar? then 1 else 0
    requires forall v | v in s.slideMap :: v in s'.slideMap && s'.slideMap[v] == s.slideMap[v]
    requires u.DefineVar? ==> u.v == s.nextVar && u.v in s'.slideMap && s'.slideMap[u.v] == u.y && Keyed(p, u.y)
    requires u.FinalizeVar? ==> exists y :: DefineVar(u.v, y) in s.log
    ensures LogInv(p, s')
  {
    LogAppended(s.log, u);
    hide CountDefs, Keyed;
    if u.FinalizeVar? {
      var y :| DefineVar(u.v, y) in s.log;
      var j :| 0 <= j < |s.log| && s.log[j] == DefineVar(u.v, y);
      assert s'.log[j].DefineVar?;
    }
    forall k | 0 <= k < |s'.log| && s'.log[k].DefineVar?
      ensures s'.log[k].v == p.base + CountDefs(s'.log[..k])
      ensures s'.log[k].v in s'.slideMap && s'.slideMap[s'.log[k].v] == s'.log[k].y && Keyed(p, s'.log[k].y)
    {
      assert s'.log[..k] == s.log[..k];
      if k < |s.log| {
        assert s'.log[k] == s.log[k];
      } else {
        assert s.log[..k] == s.log;
      }
    }
    forall k | 0 <= k < |s'.log| && s'.log[k].FinalizeVar?
      ensures exists j :: 0 <= j < k && s'.log[j].DefineVar? && s'.log[j].v == s'.log[k].v
    {
      if k < |s.log| {
        assert s'.log[k] == s.log[k];
        var j :| 0 <= j < k && s.log[j].DefineVar? && s.log[j].v == s.log[k].v;
        assert s'.log[j] == s.log[j];
      }
    }
  }

  /** The two kinds of step that write to the log, and what they write. */
  lemma StepLog(p: Problem, s: State, i: nat, act: Action, s': State)
    requires i < |s.workers| && Step(p, s, i, act, s')
    ensures act.Record? && s'.log != s.log ==>
      var y := Eval(p, s.workers[i].model);
      && s.workers[i].pc == HasModel && s'.log == s.log + [DefineVar(s.nextVar, y)]
      && s'.nextVar == s.nextVar + 1 && s'.slideMap == s.slideMap[s.nextVar := y]
    ensures act.Finalize? ==>
      && act.v in Deps(s, s.workers[i].cell) && s'.log == s.log + [FinalizeVar(act.v)]
    ensures !act.Record? || s'.log == s.log ==> s'.nextVar == s.nextVar && s'.slideMap == s.slideMap
    ensures !act.Record? && !act.Finalize? ==> s'.log == s.log
  {
  }

  lemma KeepsLog(p: Problem, first: Point, s: State, i: nat, act: Action, s': State)
    requires Valid(p) && Inv(p, first, s) && i < |s.workers| && Step(p, s, i, act, s')
    ensures LogInv(p, s')
  {
    StepLog(p, s, i, act, s');
    if s'.log != s.log {
      if act.Record? {
        ModelIsStrictlyBelow(p, first, s, i);
        FreshGuard(p, s);
        LogGrows(p, s, s', DefineVar(s.nextVar, Eval(p, s.workers[i].model)));
      } else {
        DepIsDefined(p, s, s.workers[i].cell, act.v);
        LogGrows(p, s, s', FinalizeVar(act.v));
      }
    } else {
      SameLog(p, s, s');
    }
  }

  lemma SameLog(p: Problem, s: State, s': State)
    requires LogInv(p, s) && s'.log == s.log && s'.nextVar == s.nextVar && s'.slideMap == s.slideMap
    ensures LogInv(p, s')
  {
  }

  lemma FreshGuard(p: Problem, s: State)
    requires MemInv(p, s)
    ensures s.nextVar !in s.slideMap
    ensures forall c | c in s.mem :: s.nextVar !in s.mem[c]
  {
  }

  lemma DepIsDefined(p: Problem, s: State, c: Point, v: nat)
    requires MemInv(p, s) && v in Deps(s, c)
    ensures exists y :: DefineVar(v, y) in s.log
  {
    assert DefineVar(v, s.slideMap[v]) in s.log;
  }

  /** A finalized guard was defined before, so it is older than the next variable. */
  lemma FinalizedIsOld(p: Problem, s: State, v: nat)
    requires LogInv(p, s) && FinalizeVar(v) in s.log
    ensures v < s.nextVar
  {
    var k :| 0 <= k < |s.log| && s.log[k] == FinalizeVar(v);
    var j :| 0 <= j < k && s.log[j].DefineVar? && s.log[j].v == v;
    CountDefsMonotone(s.log, j, |s.log|);
    assert s.log[..|s.log|] == s.log;
  }

  // ---- the replayed prefix

  lemma UpdateBelow(p: Problem, s: State, k: nat, n: nat)
    requires Valid(p) && LogInv(p, s) && k < n <= |s.log|
    ensures LitsBelow(UpdateClause(p, s.log[k]), Cutoff(p, s, n))
  {
    var u := s.log[k];
    var j := k;
    if u.FinalizeVar? {
      j :| 0 <= j < k && s.log[j].DefineVar? && s.log[j].v == u.v;
    } else {
      ClausesBelowBase(p, u.y);
      assert LitsBelow(GuardClause(p.roots, u.y, Lit(u.v, false)) - {Lit(u.v, false)}, p.base);
    }
    CountDefsMonotone(s.log, j, n);
  }

  lemma UpdateClausesConcat(p: Problem, us: seq<Update>, vs: seq<Update>)
    ensures UpdateClauses(p, us + vs) == UpdateClauses(p, us) + UpdateClauses(p, vs)
  {
    assert forall u :: u in us + vs <==> u in us || u in vs;
  }

  lemma UpdatesBelow(p: Problem, s: State, m: nat, n: nat)
    requires Valid(p) && LogInv(p, s) && m <= n <= |s.log|
    ensures DbBelow(UpdateClauses(p, s.log[m..n]), Cutoff(p, s, n))
  {
    forall c | c in UpdateClauses(p, s.log[m..n])
      ensures LitsBelow(c, Cutoff(p, s, n))
    {
      var u :| u in s.log[m..n] && c == UpdateClause(p, u);
      var k :| m <= k < n && s.log[k] == u;
      UpdateBelow(p, s, k, n);
    }
  }

  lemma PrefixGrows(p: Problem, s: State, m: nat, n: nat)
    requires Valid(p) && LogInv(p, s) && m <= n <= |s.log|
    ensures UpdateClauses(p, s.log[..n]) == UpdateClauses(p, s.log[..m]) + UpdateClauses(p, s.log[m..n])
    ensures DbBelow(UpdateClauses(p, s.log[m..n]), Cutoff(p, s, n))
    ensures Cutoff(p, s, m) <= Cutoff(p, s, n)
  {
    assert s.log[..n] == s.log[..m] + s.log[m..n];
    UpdateClausesConcat(p, s.log[..m], s.log[m..n]);
    UpdatesBelow(p, s, m, n);
    CountDefsMonotone(s.log, m, n);
  }

  lemma BlocksBelow(p: Problem, ys: set<Point>)
    requires Valid(p)
    ensures DbBelow(Blocks(p, ys), p.base)
  {
    forall y | y in ys
      ensures LitsBelow(BlockClause(p.roots, y), p.base)
    {
      ClausesBelowBase(p, y);
    }
  }

  /** What a worker's replay position and database become, apart from block clauses. */
  lemma StepDb(p: Problem, s: State, i: nat, act: Action, s': State) returns (ys: set<Point>)
    requires i < |s.workers| && Step(p, s, i, act, s')
    ensures |s'.workers| == |s.workers|
    ensures var w, w' := s.workers[i], s'.workers[i];
      match act
      case ApplyUpdates(n) => w'.next == n && w.next <= n <= |s.log| &&
          w'.db == w.db + UpdateClauses(p, s.log[w.next..n]) && s'.log == s.log
      case ShareClauses(_, c) => w'.next == w.next <= |s.log| && w'.db == w.db + {c} &&
          LitsBelow(c, Cutoff(p, s, w.next)) && s'.log == s.log
      case _ => w'.next == w.next && w'.db == w.db + Blocks(p, ys)
  {
    var w := s.workers[i];
    ys := if act.Import? || act.Publish? then act.pulled
          else if act.Record? && s'.workers[i].db != w.db then {Eval(p, w.model)}
          else {};
    NoBlocks(p, w.db);
    OneBlock(p, Eval(p, w.model));
    hide Blocks, BlockClause, Eval, UpdateClauses, Dominates, Reflected, Deps, Assumed, PushSafe, Entails, Negates,
         AllHold, SatDb;
  }

  lemma NoBlocks(p: Problem, db: Db)
    ensures db + Blocks(p, {}) == db
  {
  }

  lemma KeepsPrefix(p: Problem, s: State, i: nat, act: Action, s': State)
    requires Valid(p) && LogInv(p, s) && PrefixInv(p, s) && i < |s.workers| && Step(p, s, i, act, s')
    ensures PrefixInv(p, s')
  {
    hide Step, LogInv, UpdateClauses, DbBelow;
    StepFrame(p, s, i, act, s');
    forall j | 0 <= j < |s.workers|
      ensures s'.log[..s.workers[j].next] == s.log[..s.workers[j].next]
    {
    }
    KeepsPrefixOf(p, s, i, act, s');
  }

  lemma KeepsPrefixOf(p: Problem, s: State, i: nat, act: Action, s': State)
    requires Valid(p) && LogInv(p, s) && PrefixInv(p, s) && i < |s.workers| && Step(p, s, i, act, s')
    ensures var w' := s'.workers[i];
      && w'.next <= |s'.log|
      && UpdateClauses(p, s'.log[..w'.next]) <= w'.db
      && DbBelow(w'.db, Cutoff(p, s', w'.next))
  {
    hide Step, LogInv, UpdateClauses, Blocks, Valid;
    StepFrame(p, s, i, act, s');
    var ys := StepDb(p, s, i, act, s');
    var w, w' := s.workers[i], s'.workers[i];
    assert w.next <= |s.log|;
    assert s'.log[..w.next] == s.log[..w.next];
    if act.ApplyUpdates? {
      PrefixGrows(p, s, w.next, act.n);
    } else if !act.ShareClauses? {
      BlocksBelow(p, ys);
    }
  }

  // ---- where the cells are

  /** How a step moves cells and touches the slide results. */
  ghost predicate Moves(s: State, i: nat, act: Action, s': State)
    requires i < |s.workers| && i < |s'.workers|
  {
    var w, w' := s.workers[i], s'.workers[i];
    && (!act.Insert? ==> s'.seen == s.seen)
    && (!act.Pop? && !act.Insert? && !act.Retire? ==> s'.waiting == s.waiting)
    && (!act.Pop? ==> w'.cell == w.cell)
    && (!act.DrillSat? && !act.Record? && !act.Erase? ==> s'.mem == s.mem)
    && (act.DrillSat? ==> s'.mem == s.mem[w.cell := Deps(s, w.cell)])
    && (!act.Record? ==> s'.slideMap == s.slideMap)
    && (!act.Record? && !act.Insert? ==> w'.batch == w.batch)
    && (act.Insert? ==>
        w.pc == Inserting && act.b in w.batch && w'.batch == w.batch - {act.b} && s'.seen == s.seen + {act.b})
    && s'.archive <= s.archive + w.solutions
  }

  /** How a step changes whether the worker is busy and searching. */
  ghost predicate Switches(s: State, i: nat, act: Action, s': State)
    requires i < |s.workers| && i < |s'.workers|
  {
    var w, w' := s.workers[i], s'.workers[i];
    && (!act.Pop? && !act.Retire? ==> Busy(w') == Busy(w))
    && (!act.Pop? && !act.Retire? && !act.DrillUnsat? && !act.SlideUnsat? && !act.FinalizeDone? ==>
        Searching(w') == Searching(w))
    && (act.FinalizeDone? ==> Searching(w') == w.requeue && !Searching(w))
    && (act.DrillUnsat? || act.SlideUnsat? ==> Searching(w) && !Searching(w'))
    && (act.DrillSat? ==> Searching(w) && Busy(w))
  }

  lemma StepMoves(p: Problem, s: State, i: nat, act: Action, s': State)
    requires i < |s.workers| && Step(p, s, i, act, s')
    ensures |s'.workers| == |s.workers| && Moves(s, i, act, s') && Switches(s, i, act, s')
  {
    StepMovesCells(p, s, i, act, s');
    StepSwitches(p, s, i, act, s');
  }

  lemma StepMovesCells(p: Problem, s: State, i: nat, act: Action, s': State)
    requires i < |s.workers| && Step(p, s, i, act, s')
    ensures |s'.workers| == |s.workers| && Moves(s, i, act, s')
  {
  }

  lemma StepSwitches(p: Problem, s: State, i: nat, act: Action, s': State)
    requires i < |s.workers| && Step(p, s, i, act, s')
    ensures |s'.workers| == |s.workers| && Switches(s, i, act, s')
  {
    hide Step;
    StepBusy(p, s, i, act, s');
    StepSearching(p, s, i, act, s');
  }

  lemma KeepsUnique(p: Problem, s: State, i: nat, act: Action, s': State)
    requires UniqueInv(p, s) && i < |s.workers| && Step(p, s, i, act, s')
    ensures UniqueInv(p, s')
  {
    hide Step, UniqueInv;
    match act {
      case Pop(c) => UniquePop(p, s, i, c, s');
      case Insert(b) => UniqueInsert(p, s, i, b, s');
      case Retire => UniqueRetire(p, s, i, s');
      case _ => UniqueOther(p, s, i, act, s');
    }
  }

  lemma UniqueOther(p: Problem, s: State, i: nat, act: Action, s': State)
    requires UniqueInv(p, s) && i < |s.workers| && Step(p, s, i, act, s') && !act.Pop? && !act.Insert? && !act.Retire?
    ensures UniqueInv(p, s')
  {
    hide Step, UniqueInv, Busy, Searching;
    StepMoves(p, s, i, act, s');
    StepFrame(p, s, i, act, s');
    UniqueSame(p, s, i, s');
  }

  lemma UniqueSame(p: Problem, s: State, i: nat, s': State)
    requires UniqueInv(p, s) && i < |s.workers| && Frame(p, s, i, s')
    requires s'.seen == s.seen && s'.waiting == s.waiting
    requires s'.workers[i].cell == s.workers[i].cell && Busy(s'.workers[i]) == Busy(s.workers[i])
    ensures UniqueInv(p, s')
  {
  }

  lemma UniquePop(p: Problem, s: State, i: nat, c: Point, s': State)
    requires UniqueInv(p, s) && i < |s.workers| && Step(p, s, i, Pop(c), s')
    ensures UniqueInv(p, s')
  {
  }

  lemma UniqueInsert(p: Problem, s: State, i: nat, b: Point, s': State)
    requires UniqueInv(p, s) && i < |s.workers| && Step(p, s, i, Insert(b), s')
    ensures UniqueInv(p, s')
  {
  }

  lemma UniqueRetire(p: Problem, s: State, i: nat, s': State)
    requires UniqueInv(p, s) && i < |s.workers| && Step(p, s, i, Retire, s')
    ensures UniqueInv(p, s')
  {
  }

  // ---- the guards

  lemma SearchCellsOnlyByPopOrInsert(p: Problem, s: State, i: nat, act: Action, s': State, c: Point)
    requires i < |s.workers| && Step(p, s, i, act, s') && SearchCell(s', c)
    requires s.workers[i].pc == Finalizing ==> !s.workers[i].requeue
    ensures SearchCell(s, c) || (act.Insert? && c == act.b && c !in s.seen)
  {
    StepFrame(p, s, i, act, s');
    StepMoves(p, s, i, act, s');
    if c !in s'.waiting {
      var j :| 0 <= j < |s'.workers| && Searching(s'.workers[j]) && s'.workers[j].cell == c;
      if j != i {
        assert s.workers[j] == s'.workers[j];
      } else if act.Pop? {
        assert c in s.waiting;
      } else {
        assert Searching(s.workers[i]);
      }
    } else if act.Retire? && c !in s.waiting {
      assert Searching(s.workers[i]) && s.workers[i].cell == c;
    }
  }

  /** Steps that leave the guards alone: cells may only leave the memory or the search. */
  lemma MemSame(p: Problem, s: State, s': State)
    requires MemInv(p, s)
    requires s.seen <= s'.seen && s'.slideMap == s.slideMap && s.nextVar == s'.nextVar && s'.log == s.log
    requires forall c | c in s'.mem :: c in s'.seen && s'.mem[c] == Deps(s, c)
    requires forall c | SearchCell(s', c) :: SearchCell(s, c) || c !in s.mem
    ensures MemInv(p, s')
  {
    forall c, v: nat | c in s'.mem && v in s'.mem[c]
      ensures c in s.mem && v in s.mem[c]
    {
    }
    forall c, v: nat | SearchCell(s', c) && v in Deps(s', c)
      ensures SearchCell(s, c) && v in Deps(s, c)
    {
    }
  }

  lemma MemFinalize(p: Problem, s: State, v: nat, s': State)
    requires MemInv(p, s) && s' == s.(log := s.log + [FinalizeVar(v)])
    requires forall c | SearchCell(s, c) :: v !in Deps(s, c)
    ensures MemInv(p, s')
  {
    forall c | SearchCell(s', c)
      ensures SearchCell(s, c) && Deps(s', c) == Deps(s, c)
    {
    }
  }

  /** A find below `c` gets a fresh guard that belongs to `c`. */
  ghost predicate GuardAdded(p: Problem, s: State, c: Point, y: Point, s': State) {
    && c in s.mem && y != c && Dominates(y, c)
    && s'.seen == s.seen && s'.slideMap == s.slideMap[s.nextVar := y] && s'.nextVar == s.nextVar + 1
    && s'.log == s.log + [DefineVar(s.nextVar, y)] && s'.mem == s.mem[c := s.mem[c] + {s.nextVar}]
  }

  lemma RecordGuardsBelow(p: Problem, s: State, c: Point, y: Point, s': State)
    requires GuardsBelow(p, s) && s.nextVar !in s.slideMap && GuardAdded(p, s, c, y, s')
    ensures GuardsBelow(p, s')
  {
  }

  lemma RecordGuardsDefined(p: Problem, s: State, c: Point, y: Point, s': State)
    requires GuardsDefined(p, s) && LogInv(p, s) && GuardAdded(p, s, c, y, s')
    ensures GuardsDefined(p, s')
  {
    assert DefineVar(s.nextVar, y) in s'.log;
    forall u | u in s.log
      ensures u in s'.log
    {
    }
  }

  lemma RecordGuardsOwned(p: Problem, s: State, c: Point, y: Point, s': State)
    requires GuardsOwned(s) && GuardAdded(p, s, c, y, s')
    requires forall d | d in s.mem :: s.nextVar !in s.mem[d]
    ensures GuardsOwned(s')
  {
  }

  lemma RecordGuardsLive(p: Problem, s: State, c: Point, y: Point, s': State)
    requires GuardsLive(s) && LogInv(p, s) && GuardAdded(p, s, c, y, s')
    requires forall d :: SearchCell(s', d) ==> SearchCell(s, d)
    ensures GuardsLive(s')
  {
    forall d, v: nat | SearchCell(s', d) && v in Deps(s', d)
      ensures FinalizeVar(v) !in s'.log
    {
      assert v == s.nextVar || v in Deps(s, d);
      FinalizedAreOld(p, s);
    }
  }

  lemma FinalizedAreOld(p: Problem, s: State)
    requires LogInv(p, s)
    ensures FinalizeVar(s.nextVar) !in s.log
  {
    if FinalizeVar(s.nextVar) in s.log {
      FinalizedIsOld(p, s, s.nextVar);
    }
  }

  lemma MemRecord(p: Problem, s: State, c: Point, y: Point, s': State)
    requires MemInv(p, s) && LogInv(p, s) && GuardAdded(p, s, c, y, s')
    requires forall d :: SearchCell(s', d) ==> SearchCell(s, d)
    ensures MemInv(p, s')
  {
    FreshGuard(p, s);
    RecordGuardsBelow(p, s, c, y, s');
    RecordGuardsDefined(p, s, c, y, s');
    RecordGuardsOwned(p, s, c, y, s');
    RecordGuardsLive(p, s, c, y, s');
  }

  lemma KeepsMem(p: Problem, first: Point, s: State, i: nat, act: Action, s': State)
    requires Valid(p) && Inv(p, first, s) && i < |s.workers| && Step(p, s, i, act, s')
    ensures MemInv(p, s')
  {
    assert WorkerInv(p, first, s, s.workers[i]);
    var w := s.workers[i];
    if act.Record? {
      ModelIsStrictlyBelow(p, first, s, i);
      KeepsMemRecord(p, s, i, s');
    } else if act.Finalize? {
      FinalizingCellIsNotSearched(p, s, i, act.v);
      MemFinalize(p, s, act.v, s');
    } else {
      KeepsMemOther(p, s, i, act, s');
    }
  }

  lemma KeepsMemRecord(p: Problem, s: State, i: nat, s': State)
    requires MemInv(p, s) && LogInv(p, s) && i < |s.workers| && Step(p, s, i, Record, s')
    requires s.workers[i].cell in s.mem
    requires var y := Eval(p, s.workers[i].model); Dominates(y, s.workers[i].cell) && y != s.workers[i].cell
    ensures MemInv(p, s')
  {
    forall c | SearchCell(s', c)
      ensures SearchCell(s, c)
    {
      SearchCellsOnlyByPopOrInsert(p, s, i, Record, s', c);
    }
    if s'.log != s.log {
      MemRecord(p, s, s.workers[i].cell, Eval(p, s.workers[i].model), s');
    } else {
      MemSame(p, s, s');
    }
  }

  lemma KeepsMemOther(p: Problem, s: State, i: nat, act: Action, s': State)
    requires MemInv(p, s) && UniqueInv(p, s) && i < |s.workers| && Step(p, s, i, act, s')
    requires s.workers[i].pc == Finalizing ==> !s.workers[i].requeue
    requires !act.Record? && !act.Finalize?
    ensures MemInv(p, s')
  {
    StepFrame(p, s, i, act, s');
    StepMoves(p, s, i, act, s');
    StepLog(p, s, i, act, s');
    forall c | SearchCell(s', c)
      ensures SearchCell(s, c) || c !in s.mem
    {
      SearchCellsOnlyByPopOrInsert(p, s, i, act, s', c);
    }
    MemSame(p, s, s');
  }

  lemma FinalizingCellIsNotSearched(p: Problem, s: State, i: nat, v: nat)
    requires MemInv(p, s) && UniqueInv(p, s)
    requires i < |s.workers| && s.workers[i].pc == Finalizing && !s.workers[i].requeue &&
        v in Deps(s, s.workers[i].cell)
    ensures forall c | SearchCell(s, c) :: v !in Deps(s, c)
  {
    forall c | SearchCell(s, c)
      ensures c != s.workers[i].cell
    {
      assert Busy(s.workers[i]);
    }
  }

  // ---- what is published, and what each worker knows

  lemma KeepsPublished(p: Problem, first: Point, s: State, i: nat, act: Action, s': State)
    requires Valid(p) && PublishedInv(p, first, s) && i < |s.workers| && Step(p, s, i, act, s')
    requires WorkerInv(p, first, s, s.workers[i])
    ensures PublishedInv(p, first, s')
  {
    StepFrame(p, s, i, act, s');
    StepMoves(p, s, i, act, s');
    forall c | c in s'.seen
      ensures |c| == |p.roots| && Covered(s'.archive + {first}, c)
    {
      if c in s.seen {
        CoverGrows(s.archive + {first}, s'.archive + {first}, c);
      } else {
        var _ := FeasiblePoint(p, c);
        CoverGrows(s.archive, s'.archive + {first}, c);
      }
    }
  }

  /** The other workers' knowledge survives a step. */
  lemma KeepsOtherWorker(p: Problem, first: Point, s: State, i: nat, act: Action, s': State, j: nat)
    requires UniqueInv(p, s) && i < |s.workers| && j < |s.workers| && j != i && Step(p, s, i, act, s')
    requires WorkerInv(p, first, s, s.workers[j])
    ensures WorkerInv(p, first, s', s.workers[j])
  {
    var w := s.workers[j];
    StepFrame(p, s, i, act, s');
    if w.pc in {HasModel, Sliding, Finalizing, Publishing} {
      OtherCellsKept(p, s, i, act, s', w.cell, j);
    }
    forall b | b in w.batch && Covered(s.archive, b)
      ensures Covered(s'.archive, b)
    {
      CoverGrows(s.archive, s'.archive, b);
    }
  }

  lemma OtherCellsKept(p: Problem, s: State, i: nat, act: Action, s': State, c: Point, j: nat)
    requires UniqueInv(p, s) && i < |s.workers| && j < |s.workers| && j != i && Step(p, s, i, act, s')
    requires Busy(s.workers[j]) && s.workers[j].cell == c && c in s.mem
    ensures c in s'.mem && s'.mem[c] == s.mem[c]
  {
    assert Busy(s.workers[i]) ==> s.workers[i].cell != c;
  }

  lemma RejectsAbove(p: Problem, db: Db, y: Point, z: Point)
    requires Rejects(p, db, y) && Dominates(y, z)
    ensures Rejects(p, db, z)
  {
  }

  /** After the import the worker rejects its own cell: the archive covers whatever was published. */
  lemma ImportRejectsCell(p: Problem, first: Point, s: State, i: nat, act: Action, s': State)
    requires i < |s.workers| && Step(p, s, i, act, s') && act.Import?
    requires Valid(p) && PublishedInv(p, first, s) && UniqueInv(p, s) && WorkerInv(p, first, s, s.workers[i])
    ensures Rejects(p, s'.workers[i].db, s.workers[i].cell)
  {
    var w, w' := s.workers[i], s'.workers[i];
    assert w.cell in s.seen by {
      assert Busy(s.workers[i]);
    }
    var y :| y in s.archive + {first} && Dominates(y, w.cell);
    var _ := FeasiblePoint(p, y);
    if y in s.archive {
      var z: Point :| |z| == |p.roots| && BlockClause(p.roots, z) in w'.db && Dominates(z, y);
      BlockRejects(p, w'.db, z);
      RejectsAbove(p, w'.db, z, y);
    } else {
      BlockRejects(p, w.db, y);
      RejectsMore(p, w.db, w'.db, y);
    }
    RejectsAbove(p, w'.db, y, w.cell);
  }

  lemma KeepsOwnRejects(p: Problem, first: Point, s: State, i: nat, act: Action, s': State)
    requires Valid(p) && i < |s.workers| && Step(p, s, i, act, s')
    requires WorkerRejects(p, s.workers[i]) && WorkerFinds(p, s.workers[i])
    requires act.Import? ==> Rejects(p, s'.workers[i].db, s.workers[i].cell)
    requires act.Record? ==> Eval(p, s.workers[i].model) in FeasiblePoints(p)
    ensures |s'.workers| == |s.workers| && WorkerRejects(p, s'.workers[i])
  {
    hide Valid, SatDb, AllHold, Eval, Assumed, FeasiblePoints, UpdateClauses, Reflected, Covered, Dominates, Keyed,
         CountDefs, Found;
    var w, w' := s.workers[i], s'.workers[i];
    var y := Eval(p, w.model);
    StepMoves(p, s, i, act, s');
    StepGrowsDb(p, s, i, act, s');
    StepRejects(p, w, w', s, i, act, s');
    if act.Record? && w'.solutions != w.solutions {
      var _ := FeasiblePoint(p, y);
      BlockRejects(p, w'.db, y);
    }
    forall z | Rejects(p, w.db, z)
      ensures Rejects(p, w'.db, z)
    {
      RejectsMore(p, w.db, w'.db, z);
    }
  }

  /** Which step enters which phase, and what it may add to a worker's own solutions. */
  lemma StepRejects(p: Problem, w: Worker, w': Worker, s: State, i: nat, act: Action, s': State)
    requires i < |s.workers| && Step(p, s, i, act, s') && w == s.workers[i] && w' == s'.workers[i]
    ensures w'.pc in {Drilling, HasModel, Sliding} ==>
        act.Import? || (w.pc in {Drilling, HasModel, Sliding} && !act.Pop?)
    ensures act.Record? && w'.solutions != w.solutions ==>
        w'.solutions <= w.solutions + {Eval(p, w.model)} && BlockClause(p.roots, Eval(p, w.model)) in w'.db
    ensures !act.Record? ==> w'.solutions == w.solutions || w'.solutions == {}
  {
  }

  lemma StepGrowsDb(p: Problem, s: State, i: nat, act: Action, s': State)
    requires i < |s.workers| && Step(p, s, i, act, s')
    ensures s.workers[i].db <= s'.workers[i].db
  {
  }

  lemma PushSafeCoversBatch(ys: set<Point>, batch: set<Point>, y: Point)
    requires forall b | b in batch :: Covered(ys, b)
    ensures forall b | b in batch + {y} :: Covered(PushSafe(ys, y), b)
  {
    DominatesItself(y);
    forall b | b in batch
      ensures Covered(PushSafe(ys, y), b)
    {
      PushSafeCovers(ys, y, b);
    }
  }

  lemma KeepsOwnBatch(p: Problem, s: State, i: nat, act: Action, s': State)
    requires i < |s.workers| && Step(p, s, i, act, s') && WorkerBatch(s, s.workers[i]) && WorkerFinds(p, s.workers[i])
    ensures WorkerBatch(s', s'.workers[i])
  {
    var w := s.workers[i];
    if act.Record? {
      PushSafeCoversBatch(w.solutions, w.batch, Eval(p, w.model));
    } else if act.Publish? {
      forall b | b in w.batch
        ensures Covered(s'.archive, b)
      {
        CoverGrows(w.solutions, s'.archive, b);
      }
    }
  }

  lemma KeepsOwnModel(p: Problem, s: State, i: nat, act: Action, s': State)
    requires i < |s.workers| && Step(p, s, i, act, s') && WorkerModel(p, s, s.workers[i])
    ensures WorkerModel(p, s', s'.workers[i])
  {
  }

  lemma KeepsOwnFinds(p: Problem, s: State, i: nat, act: Action, s': State)
    requires i < |s.workers| && Step(p, s, i, act, s') && WorkerFinds(p, s.workers[i])
    requires act.Record? ==> Eval(p, s.workers[i].model) in FeasiblePoints(p)
    ensures |s'.workers| == |s.workers| && WorkerFinds(p, s'.workers[i])
  {
    hide Blocks, BlockClause, Eval, UpdateClauses, Dominates, Reflected, Deps, Assumed, Entails, Negates, AllHold,
         SatDb, FeasiblePoints;
    if act.Record? {
      PushedAreFeasible(p, s.workers[i].solutions, Eval(p, s.workers[i].model));
    }
  }

  lemma PushedAreFeasible(p: Problem, ys: set<Point>, y: Point)
    requires ys <= FeasiblePoints(p) && y in FeasiblePoints(p)
    ensures PushSafe(ys, y) <= FeasiblePoints(p)
  {
  }

  lemma KeepsOwnWorker(p: Problem, first: Point, s: State, i: nat, act: Action, s': State)
    requires i < |s.workers| == |s'.workers|
    requires act.Record? ==> Eval(p, s.workers[i].model) in FeasiblePoints(p)
    requires WorkerInv(p, first, s, s.workers[i])
    requires Valid(p) && PublishedInv(p, first, s) && UniqueInv(p, s) && Step(p, s, i, act, s')
    ensures WorkerInv(p, first, s', s'.workers[i])
  {
    StepGrowsDb(p, s, i, act, s');
    if act.Import? {
      ImportRejectsCell(p, first, s, i, act, s');
    }
    KeepsOwnRejects(p, first, s, i, act, s');
    KeepsOwnBatch(p, s, i, act, s');
    KeepsOwnModel(p, s, i, act, s');
    KeepsOwnFinds(p, s, i, act, s');
  }

  // ---- the coverage

  lemma SearchCellKept(p: Problem, s: State, i: nat, act: Action, s': State, c: Point)
    requires i < |s.workers| && Step(p, s, i, act, s') && SearchCell(s, c)
    requires act.DrillUnsat? || act.SlideUnsat? ==> c != s.workers[i].cell || c in s.waiting
    ensures SearchCell(s', c)
  {
    StepFrame(p, s, i, act, s');
    StepMoves(p, s, i, act, s');
    hide Step;
    if c in s.waiting {
      StepWaiting(p, s, i, act, s', c);
    } else {
      var j :| 0 <= j < |s.workers| && Searching(s.workers[j]) && s.workers[j].cell == c;
      if j != i {
        assert s'.workers[j] == s.workers[j];
      } else if act.Retire? {
        RequeuedWaits(p, s, i, s');
      } else if act.Pop? {
        NobodyPopsWhileSearching(p, s, i, act, s');
      }
    }
  }

  /** A cell leaves the list only for the worker that fetches it. */
  lemma StepWaiting(p: Problem, s: State, i: nat, act: Action, s': State, c: Point)
    requires i < |s.workers| && Step(p, s, i, act, s') && c in s.waiting
    ensures |s'.workers| == |s.workers|
    ensures c in s'.waiting || (s'.workers[i].cell == c && Searching(s'.workers[i]))
  {
    match act {
      case Pop(_) =>
      case _ =>
    }
  }

  /** A cell that was to be requeued comes back. */
  lemma RequeuedWaits(p: Problem, s: State, i: nat, s': State)
    requires i < |s.workers| && Step(p, s, i, Retire, s') && Searching(s.workers[i])
    ensures s.workers[i].cell in s'.waiting
  {
  }

  lemma NobodyPopsWhileSearching(p: Problem, s: State, i: nat, act: Action, s': State)
    requires i < |s.workers| && Step(p, s, i, act, s') && act.Pop?
    ensures !Searching(s.workers[i])
  {
  }

  lemma ErasedCellIsNotSearched(p: Problem, s: State, i: nat, s': State, c: Point)
    requires UniqueInv(p, s) && i < |s.workers| && Step(p, s, i, Erase, s') && SearchCell(s, c)
    ensures Deps(s', c) == Deps(s, c)
  {
    assert Busy(s.workers[i]);
    if c !in s.waiting {
      var j :| 0 <= j < |s.workers| && Searching(s.workers[j]) && s.workers[j].cell == c;
      assert Busy(s.workers[j]);
    }
  }

  lemma DepsKept(p: Problem, s: State, i: nat, act: Action, s': State, c: Point)
    requires UniqueInv(p, s) && i < |s.workers| && Step(p, s, i, act, s') && SearchCell(s, c) && !act.Record?
    ensures Deps(s', c) == Deps(s, c) && s'.slideMap == s.slideMap
  {
    StepMoves(p, s, i, act, s');
    if act.Erase? {
      ErasedCellIsNotSearched(p, s, i, s', c);
    }
  }

  lemma BatchKept(p: Problem, s: State, i: nat, act: Action, s': State, b: Point)
    requires i < |s.workers| && Step(p, s, i, act, s') && InBatch(s, b)
    ensures InBatch(s', b) || (act.Insert? && act.b == b)
  {
    StepFrame(p, s, i, act, s');
    StepMoves(p, s, i, act, s');
    var j :| 0 <= j < |s.workers| && b in s.workers[j].batch;
    assert b in s'.workers[j].batch || (act.Insert? && act.b == b);
  }

  /** A find below cell `c` takes over what lies below it. */
  lemma WitnessAfterRecord(p: Problem, s: State, i: nat, s': State, q: Point, d: Point)
    requires GuardsDefined(p, s) && GuardsBelow(p, s) && i < |s.workers| && Step(p, s, i, Record, s') &&
        Witnessed(s, q, d)
    requires var y := Eval(p, s.workers[i].model); Dominates(y, s.workers[i].cell) && y != s.workers[i].cell
    ensures Witnessed(s', q, d)
  {
    if b :| BatchWitness(s, q, d, b) {
      BatchKept(p, s, i, Record, s', b);
      assert BatchWitness(s', q, d, b);
    } else {
      var c :| CellWitness(s, q, d, c);
      SearchCellKept(p, s, i, Record, s', c);
      if Clear(s', c, q) {
        assert CellWitness(s', q, d, c);
      } else {
        var y := Eval(p, s.workers[i].model);
        var v :| v in Deps(s', c) && v in s'.slideMap && Dominates(q, s'.slideMap[v]);
        assert v !in Deps(s, c);
        assert c == s.workers[i].cell && s'.slideMap[v] == y;
        assert InBatch(s', y) by {
          assert y in s'.workers[i].batch;
        }
        DominatesTransitive(y, c, d);
        if y == d {
          DominatesAntisymmetric(y, c);
        }
        assert BatchWitness(s', q, d, y);
      }
    }
  }

  /** A batch point that becomes a waiting cell, or that was one before, passes its work on. */
  lemma WitnessAfterInsert(p: Problem, first: Point, s: State, i: nat, act: Action, s': State, q: Point, d: Point)
    requires UniqueInv(p, s) && MemInv(p, s) && i < |s.workers| && Step(p, s, i, act, s') && act.Insert?
    requires Coverage(p, first, s) && q in FeasiblePoints(p) && !Covered(Found(first, s), q)
    requires Witnessed(s, q, d)
    ensures Witnessed(s', q, d)
  {
    if c :| CellWitness(s, q, d, c) {
      SearchCellKept(p, s, i, act, s', c);
      DepsKept(p, s, i, act, s', c);
      assert CellWitness(s', q, d, c);
    } else {
      var b :| BatchWitness(s, q, d, b);
      BatchKept(p, s, i, act, s', b);
      if InBatch(s', b) {
        assert BatchWitness(s', q, d, b);
      } else if b !in s.seen {
        assert CellWitness(s', q, d, b);
      } else {
        assert Witnessed(s, q, b);
        if c :| CellWitness(s, q, b, c) {
          SearchCellKept(p, s, i, act, s', c);
          DepsKept(p, s, i, act, s', c);
          DominatesTransitive(c, b, d);
          assert CellWitness(s', q, d, c);
        } else {
          var b' :| BatchWitness(s, q, b, b');
          BatchKept(p, s, i, act, s', b');
          DominatesTransitive(b', b, d);
          if b' == d {
            DominatesAntisymmetric(b, d);
          }
          assert BatchWitness(s', q, d, b');
        }
      }
    }
  }

  lemma WitnessAfterOther(p: Problem, first: Point, s: State, i: nat, act: Action, s': State, q: Point, d: Point)
    requires Valid(p) && Inv(p, first, s) && i < |s.workers| && Step(p, s, i, act, s') && !act.Insert? && !act.Record?
    requires q in FeasiblePoints(p) && !Covered(Found(first, s), q) && Witnessed(s, q, d)
    ensures Witnessed(s', q, d)
  {
    if b :| BatchWitness(s, q, d, b) {
      BatchKept(p, s, i, act, s', b);
      assert BatchWitness(s', q, d, b);
    } else {
      var c :| CellWitness(s, q, d, c);
      if (act.DrillUnsat? || act.SlideUnsat?) && c == s.workers[i].cell {
        StepMoves(p, s, i, act, s');
        RefutationCovers(p, first, s, i, act.conflict, q);
      }
      SearchCellKept(p, s, i, act, s', c);
      DepsKept(p, s, i, act, s', c);
      assert CellWitness(s', q, d, c);
    }
  }

  lemma KeepsWitness(p: Problem, first: Point, s: State, i: nat, act: Action, s': State, q: Point, d: Point)
    requires Valid(p) && Inv(p, first, s) && i < |s.workers| && Step(p, s, i, act, s')
    requires q in FeasiblePoints(p) && !Covered(Found(first, s), q) && Witnessed(s, q, d)
    ensures Witnessed(s', q, d)
  {
    if act.Record? {
      ModelIsStrictlyBelow(p, first, s, i);
      WitnessAfterRecord(p, s, i, s', q, d);
    } else if act.Insert? {
      WitnessAfterInsert(p, first, s, i, act, s', q, d);
    } else {
      WitnessAfterOther(p, first, s, i, act, s', q, d);
    }
  }

  lemma KeepsCoverage(p: Problem, first: Point, s: State, i: nat, act: Action, s': State)
    requires Valid(p) && Inv(p, first, s) && i < |s.workers| && Step(p, s, i, act, s')
    ensures Coverage(p, first, s')
  {
    hide Valid, SatDb, Eval, Assumed, FeasiblePoints, Covered, Dominates, CountDefs, LitsBelow, Found;
    StepFrame(p, s, i, act, s');
    forall q, d | q in FeasiblePoints(p) && d in s'.seen && Dominates(q, d) && !Covered(Found(first, s'), q)
      ensures Witnessed(s', q, d)
    {
      if Covered(Found(first, s), q) {
        FoundGrows(p, first, s, i, s', q);
      }
      if d in s.seen {
        KeepsWitness(p, first, s, i, act, s', q, d);
      } else {
        StepMoves(p, s, i, act, s');
        NewCellIsWitness(p, s, i, act, s', q);
      }
    }
  }

  lemma NewCellIsWitness(p: Problem, s: State, i: nat, act: Action, s': State, q: Point)
    requires MemInv(p, s) && i < |s.workers| && Step(p, s, i, act, s') && act.Insert? && act.b !in s.seen
    requires Dominates(q, act.b)
    ensures Witnessed(s', q, act.b)
  {
    DominatesItself(act.b);
    assert CellWitness(s', q, act.b, act.b);
  }

  // ---------------------------------------------------------------- runs

  lemma StepKeepsInv(p: Problem, first: Point, s: State, i: nat, act: Action, s': State)
    requires Valid(p) && Inv(p, first, s) && i < |s.workers| && Step(p, s, i, act, s')
    ensures Inv(p, first, s')
  {
    KeepsLog(p, first, s, i, act, s');
    KeepsPrefix(p, s, i, act, s');
    KeepsMem(p, first, s, i, act, s');
    KeepsUnique(p, s, i, act, s');
    KeepsActive(p, s, i, act, s');
    KeepsSound(p, first, s, i, act, s');
    KeepsCoverage(p, first, s, i, act, s');
    KeepsWorkers(p, first, s, i, act, s');
  }

  lemma KeepsWorkers(p: Problem, first: Point, s: State, i: nat, act: Action, s': State)
    requires Valid(p) && Inv(p, first, s) && i < |s.workers| && Step(p, s, i, act, s')
    ensures PublishedInv(p, first, s')
    ensures forall w | w in s'.workers :: WorkerInv(p, first, s', w)
  {
    StepFrame(p, s, i, act, s');
    assert WorkerInv(p, first, s, s.workers[i]);
    KeepsPublished(p, first, s, i, act, s');
    if act.Record? {
      ModelIsStrictlyBelow(p, first, s, i);
    }
    KeepsOwnWorker(p, first, s, i, act, s');
    forall j | 0 <= j < |s'.workers|
      ensures WorkerInv(p, first, s', s'.workers[j])
    {
      if j != i {
        assert WorkerInv(p, first, s, s.workers[j]);
        KeepsOtherWorker(p, first, s, i, act, s', j);
      }
    }
  }

  lemma InitInv(p: Problem, first: Point, s: State)
    requires Valid(p) && first in FeasiblePoints(p) && Init(p, first, s)
    ensures Inv(p, first, s)
  {
    hide Eval, Assumed, BlockClause, UpdateClause, Dominates, Keyed;
    var _ := FeasiblePoint(p, first);
    forall i | 0 <= i < |s.workers|
      ensures s.workers[i].pc == Idle && WorkerInv(p, first, s, s.workers[i])
    {
      assert s.workers[i] in s.workers;
    }
    ClausesBelowBase(p, first);
    InitCounts(s.workers);
    assert first in s.archive + {first};
    forall i, a: Assignment | 0 <= i < |s.workers| && GlobalModel(p, first, s, a)
      ensures SatDb(s.workers[i].db, a)
    {
      assert first in Found(first, s);
      BlockMeaning(p, first, a);
    }
    forall q | q in FeasiblePoints(p)
      ensures Witnessed(s, q, p.max)
    {
      var _ := FeasiblePoint(p, q);
      DominatesItself(p.max);
      assert SearchCell(s, p.max);
      assert CellWitness(s, q, p.max, p.max);
    }
  }

  lemma InitCounts(ws: seq<Worker>)
    requires forall w | w in ws :: w.pc == Idle
    ensures CountIf(Busy, ws) == 0
  {
    if ws != [] {
      InitCounts(ws[1..]);
    }
  }

  ghost predicate Next(p: Problem, s: State, s': State) {
    exists i, act :: 0 <= i < |s.workers| && Step(p, s, i, act, s')
  }

  /** Any interleaving, any budget outcome, any oracle answers, any clauses shared. */
  ghost predicate Run(p: Problem, first: Point, run: seq<State>) {
    && |run| > 0 && Init(p, first, run[0])
    && forall k | 0 <= k < |run| - 1 :: Next(p, run[k], run[k + 1])
  }

  lemma {:induction false} RunKeepsInv(p: Problem, first: Point, run: seq<State>, k: nat)
    requires Valid(p) && first in FeasiblePoints(p) && Run(p, first, run) && k < |run|
    ensures Inv(p, first, run[k])
  {
    hide Init, Inv, Step, Valid, FeasiblePoints;
    if k == 0 {
      InitInv(p, first, run[0]);
    } else {
      RunKeepsInv(p, first, run, k - 1);
      assert Next(p, run[k - 1], run[k - 1 + 1]);
      var i, act :| 0 <= i < |run[k - 1].workers| && Step(p, run[k - 1], i, act, run[k]);
      StepKeepsInv(p, first, run[k - 1], i, act, run[k]);
    }
  }

  /** When a worker can leave its loop, the archive and the first solution cover everything feasible. */
  lemma ExitCovers(p: Problem, first: Point, s: State)
    requires Valid(p) && Inv(p, first, s) && s.waiting == multiset{} && s.active == 0 && p.max in s.seen
    ensures CoversAll(s.archive + {first}, FeasiblePoints(p))
  {
    hide Valid, Eval, FeasiblePoints, BlockClause, Dominates, Keyed, CountDefs, DbBelow;
    NoneCounted(Busy, s.workers);
    forall q | q in FeasiblePoints(p)
      ensures Covered(s.archive + {first}, q)
    {
      forall w | w in s.workers
        ensures w.solutions == {} && w.batch == {} && !Searching(w)
      {
        assert WorkerInv(p, first, s, w) && !Busy(w);
      }
      assert Found(first, s) == s.archive + {first};
      var _ := FeasiblePoint(p, q);
      assert !Witnessed(s, q, p.max);
    }
  }

  /** Once left, always covered: nothing is waiting or active any more. */
  ghost predicate Finished(s: State) {
    exists w :: w in s.workers && w.pc == Exited
  }

  ghost predicate Drained(s: State) {
    Finished(s) ==> s.waiting == multiset{} && s.active == 0
  }

  lemma KeepsDrained(p: Problem, s: State, i: nat, act: Action, s': State)
    requires Drained(s) && s.active == CountIf(Busy, s.workers) && i < |s.workers| && Step(p, s, i, act, s')
    ensures Drained(s')
  {
    if Finished(s) {
      NoneCounted(Busy, s.workers);
      assert s.workers[i] in s.workers;
      assert act.Exit?;
    } else if Finished(s') {
      StepFrame(p, s, i, act, s');
      forall j | 0 <= j < |s.workers|
        ensures s.workers[j].pc != Exited
      {
      }
      assert act.Exit?;
    }
  }

  lemma {:induction false} RunKeepsDrained(p: Problem, first: Point, run: seq<State>, k: nat)
    requires Valid(p) && first in FeasiblePoints(p) && Run(p, first, run) && k < |run|
    ensures Drained(run[k]) && p.max in run[k].seen
  {
    if k > 0 {
      RunKeepsDrained(p, first, run, k - 1);
      RunKeepsInv(p, first, run, k - 1);
      assert Next(p, run[k - 1], run[k - 1 + 1]);
      var i, act :| 0 <= i < |run[k - 1].workers| && Step(p, run[k - 1], i, act, run[k]);
      StepFrame(p, run[k - 1], i, act, run[k]);
      KeepsDrained(p, run[k - 1], i, act, run[k]);
    }
  }

  /** In every run, once any worker has left the loop the archive, completed by the first
      solution, covers all feasible points, and its non-dominated points are the Pareto front. */
  lemma SlideDrillIsExact(p: Problem, first: Point, run: seq<State>, k: nat)
    requires Valid(p) && first in FeasiblePoints(p) && Run(p, first, run) && k < |run|
    requires Finished(run[k])
    ensures var found := run[k].archive + {first};
            CoversAll(found, FeasiblePoints(p)) && ParetoFront(found) == ParetoFront(FeasiblePoints(p))
  {
    RunKeepsInv(p, first, run, k);
    RunKeepsDrained(p, first, run, k);
    ExitCovers(p, first, run[k]);
    CoverHasTheFront(run[k].archive + {first}, FeasiblePoints(p));
  }

  // ---------------------------------------------------------------- the log and the guards, in every run

  /** In every run, each worker holds the clauses of a prefix of the log, and whatever is
      finalized was defined earlier in the log. */
  lemma LogIsReplayed(p: Problem, first: Point, run: seq<State>, k: nat, i: nat)
    requires Valid(p) && first in FeasiblePoints(p) && Run(p, first, run) && k < |run| && i < |run[k].workers|
    ensures var s, w := run[k], run[k].workers[i];
      && w.next <= |s.log| && UpdateClauses(p, s.log[..w.next]) <= w.db
      && forall m | 0 <= m < |s.log| && s.log[m].FinalizeVar? ::
           exists j :: 0 <= j < m && s.log[j].DefineVar? && s.log[j].v == s.log[m].v
  {
    RunKeepsInv(p, first, run, k);
  }

  /** In every run, guard clauses take a point away from a worker only while it assumes a negated
      guard whose find covers the point: for any other choice of guards to negate, everything the
      worker has learnt, defined or imported still admits each uncovered feasible point. */
  lemma GuardsRestrictOnlyAssumers(p: Problem, first: Point, run: seq<State>, k: nat, i: nat, negated: set<nat>,
      q: Point)
    returns (b: Assignment)
    requires Valid(p) && first in FeasiblePoints(p) && Run(p, first, run) && k < |run| && i < |run[k].workers|
    requires q in FeasiblePoints(p) && !Covered(Found(first, run[k]), q)
    requires forall v | v in negated ::
        v in run[k].slideMap && FinalizeVar(v) !in run[k].log && !Dominates(q, run[k].slideMap[v])
    ensures SatDb(run[k].workers[i].db, b) && SatDb(p.hard, b) && Eval(p, b) == q
    ensures forall v | v in run[k].slideMap :: v in b <==> v !in negated
  {
    var s := run[k];
    RunKeepsInv(p, first, run, k);
    b := NegatedGuards(p, first, s, negated, q);
    assert GlobalModel(p, first, s, b);
    assert AllSound(p, first, s);
  }

  lemma NegatedGuards(p: Problem, first: Point, s: State, negated: set<nat>, q: Point) returns (b: Assignment)
    requires Valid(p) && Inv(p, first, s) && q in FeasiblePoints(p) && !Covered(Found(first, s), q)
    requires forall v | v in negated :: v in s.slideMap && FinalizeVar(v) !in s.log && !Dominates(q, s.slideMap[v])
    ensures GlobalModel(p, first, s, b) && Eval(p, b) == q && forall v | v in s.slideMap :: v in b <==> v !in negated
  {
    hide FeasiblePoints, Found, Covered, PrefixInv, UniqueInv, WorkerInv, Coverage, AllSound, PublishedInv, Valid,
         SatDb, Eval;
    var a := FeasiblePoint(p, q);
    b := (set v | v in a && v < p.base) + (s.slideMap.Keys - negated);
    assert DbBelow(p.hard, p.base) by { HardBelowBase(p); }
    SatDbAgree(p.hard, a, b, p.base);
    EvalAgree(p, a, b);
    forall u | u in s.log
      ensures UpdateHolds(p, u, b)
    {
      var m :| 0 <= m < |s.log| && s.log[m] == u;
      if u.FinalizeVar? {
        var j :| 0 <= j < m && s.log[j].DefineVar? && s.log[j].v == u.v;
        assert u.v in s.slideMap && u.v !in negated;
      }
    }
  }

  /** In every run, every uncovered feasible point lies below a waiting or searched cell and outside
      what that cell has left to its finds, or below a find that is still to be inserted. */
  lemma UncoveredIsSomebodysWork(p: Problem, first: Point, run: seq<State>, k: nat, q: Point)
    requires Valid(p) && first in FeasiblePoints(p) && Run(p, first, run) && k < |run|
    requires q in FeasiblePoints(p) && !Covered(Found(first, run[k]), q)
    ensures Witnessed(run[k], q, p.max)
  {
    RunKeepsInv(p, first, run, k);
    RunKeepsDrained(p, first, run, k);
    hide Witnessed, Covered, Found, FeasiblePoints;
    var _ := FeasiblePoint(p, q);
    assert Coverage(p, first, run[k]);
  }

  // ---------------------------------------------------------------- how much a run can find

  ghost function UnrejectedBy(p: Problem): Worker -> nat {
    (w: Worker) => |Unrejected(p, w.db)|
  }

  /** The feasible points that a worker does not reject yet, over all workers. */
  ghost function AllUnrejected(p: Problem, s: State): nat {
    SumOf(UnrejectedBy(p), s.workers)
  }

  lemma {:induction false} UnrejectedAtMost(p: Problem, ws: seq<Worker>)
    ensures SumOf(UnrejectedBy(p), ws) <= |ws| * |FeasiblePoints(p)|
  {
    hide FeasiblePoints, Rejects;
    if ws != [] {
      SmallerSet(Unrejected(p, ws[0].db), FeasiblePoints(p));
      UnrejectedAtMost(p, ws[1..]);
      assert |ws| * |FeasiblePoints(p)| == |ws[1..]| * |FeasiblePoints(p)| + |FeasiblePoints(p)|;
    }
  }

  /** A recorded find is a point that the worker's database did not reject before, and rejects from now on. */
  lemma RecordRejects(p: Problem, first: Point, s: State, i: nat, s': State)
    requires Valid(p) && Inv(p, first, s) && i < |s.workers| && Step(p, s, i, Record, s') && s'.log != s.log
    ensures |s'.workers| == |s.workers|
    ensures |Unrejected(p, s'.workers[i].db)| < |Unrejected(p, s.workers[i].db)|
  {
    hide Valid, Eval, FeasiblePoints, Rejects, Unrejected, BlockClause, GuardClause, Dominates, Keyed, Covered,
         PushSafe;
    var w, w' := s.workers[i], s'.workers[i];
    var y := Eval(p, w.model);
    assert WorkerInv(p, first, s, w);
    assert SatDb(p.hard, w.model);
    ModelIsFeasible(p, w.model);
    var _ := FeasiblePoint(p, y);
    SameSize(p);
    BlockRejects(p, w'.db, y);
    NewlyRejected(p, w.db, w'.db, w.model);
  }

  /** Whatever is logged as a find is paid for by a point that its finder rejects from now on. */
  lemma StepCounts(p: Problem, first: Point, s: State, i: nat, act: Action, s': State)
    requires Valid(p) && Inv(p, first, s) && i < |s.workers| && Step(p, s, i, act, s')
    ensures |s'.workers| == |s.workers|
    ensures CountDefs(s'.log) + AllUnrejected(p, s') <= CountDefs(s.log) + AllUnrejected(p, s)
  {
    StepFrame(p, s, i, act, s');
    StepGrowsDb(p, s, i, act, s');
    StepLog(p, s, i, act, s');
    if act.Record? && s'.log != s.log {
      RecordRejects(p, first, s, i, s');
    }
    hide Inv, Valid, Step, Unrejected;
    UnrejectedShrinks(p, s.workers[i].db, s'.workers[i].db);
    SumUpdate(UnrejectedBy(p), s.workers, i, s'.workers[i]);
    assert s'.workers == s.workers[i := s'.workers[i]];
    if s'.log != s.log {
      assert s'.log[..|s'.log| - 1] == s.log;
    }
  }

  /** In every run, no more finds are recorded than there are feasible points for each worker. */
  lemma FindsAreBounded(p: Problem, first: Point, run: seq<State>, k: nat)
    requires Valid(p) && first in FeasiblePoints(p) && Run(p, first, run) && k < |run|
    ensures CountDefs(run[k].log) <= |run[0].workers| * |FeasiblePoints(p)|
  {
    RunCounts(p, first, run, k);
    UnrejectedAtMost(p, run[0].workers);
  }

  lemma {:induction false} RunCounts(p: Problem, first: Point, run: seq<State>, k: nat)
    requires Valid(p) && first in FeasiblePoints(p) && Run(p, first, run) && k < |run|
    ensures |run[k].workers| == |run[0].workers| &&
        CountDefs(run[k].log) + AllUnrejected(p, run[k]) <= AllUnrejected(p, run[0])
  {
    hide Inv, Step, Valid, FeasiblePoints, AllUnrejected;
    if k > 0 {
      RunCounts(p, first, run, k - 1);
      RunKeepsInv(p, first, run, k - 1);
      assert Next(p, run[k - 1], run[k - 1 + 1]);
      var i, act :| 0 <= i < |run[k - 1].workers| && Step(p, run[k - 1], i, act, run[k]);
      StepCounts(p, first, run[k - 1], i, act, run[k]);
    }
  }
}
