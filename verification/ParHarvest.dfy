/** One round of the hitting-set optimizer with parallel workers: they share the fences, the archive of
    candidates, and a log of guarded block clauses that every worker replays before it solves. */
module ParHarvest {
  import opened Cnf
  import opened Pareto
  import opened Encoding
  import opened ParallelMO
  import opened Archive
  import opened Fences
  import opened FenceQueue
  import opened Freezing
  import opened Slices
  import opened Relaxations
  import opened SliceBlocks

  /** What stays fixed during a round: the cores, the frozen literals and the slice, the points accepted
      so far with the variables of their blocks, and the fence to start from. */
  datatype Round = Round(I: Instance, cores: Db, frozen: set<Lit>, slice: set<Lit>, accepted: set<Point>,
                         hardened: set<nat>, root: Point, stride: real)
  {
    function Part(): Relaxation {
      Relaxation(I, cores, frozen, slice)
    }

    /** The root literals of the slice. */
    function Keys(): seq<Roots> {
      SlicedRoots(I.p.objs, I.p.roots, slice)
    }
  }

  /** The value that the last key of an objective stands for. */
  function LastValue(rl: Roots): nat {
    if |rl| > 1 && rl[|rl| - 1].key > 0 then rl[|rl| - 1].key - 1 else 0
  }

  /** No fence rises above the last keys. */
  function Bounds(rs: seq<Roots>): Point {
    seq(|rs|, i requires 0 <= i < |rs| => LastValue(rs[i]))
  }

  function Rel(R: Round): Problem {
    Relaxed(R.Part()).(max := Bounds(R.Keys()))
  }

  ghost predicate ValidRound(R: Round) {
    ValidRelaxation(R.Part()) && Dominates(R.root, Bounds(R.Keys())) && R.stride >= 1.0
  }

  lemma RelIsValid(R: Round)
    requires ValidRound(R)
    ensures Valid(Rel(R)) && OwnRoots(Rel(R)) && Dominates(R.root, Rel(R).max)
    ensures |Rel(R).roots| == |Rel(R).objs| == |R.I.p.objs| == |R.root| && Rel(R).roots == R.Keys() &&
        Rel(R).max == Bounds(R.Keys()) && R.stride >= 1.0
    ensures FeasiblePoints(Rel(R)) == FeasiblePoints(Relaxed(R.Part()))
  {
    RelaxedIsValid(R.Part());
    var r, q := Relaxed(R.Part()), Rel(R);
    SameRoots(r, q);
    forall i | 0 <= i < |q.objs|
      ensures EncodesObjective(q, i)
    {
      LastKeyBounds(r, q, i);
    }
    SameFeasible(r, q);
  }

  lemma LastKeyBounds(r: Problem, q: Problem, i: nat)
    requires Valid(r) && q == r.(max := q.max) && |q.max| == |r.max| && i < |r.objs| &&
        q.max[i] >= LastValue(r.roots[i])
    ensures EncodesObjective(q, i)
  {
    assert EncodesObjective(r, i);
    var rl := r.roots[i];
    forall j | 1 <= j < |rl|
      ensures 1 <= rl[j].key <= q.max[i] + 1
    {
      assert j < |rl| - 1 ==> rl[j].key < rl[|rl| - 1].key;
    }
  }

  lemma SameFeasible(r: Problem, q: Problem)
    requires q == r.(max := q.max)
    ensures FeasiblePoints(q) == FeasiblePoints(r) && forall a :: Eval(q, a) == Eval(r, a)
  {
    forall a: Assignment
      ensures Eval(q, a) == Eval(r, a)
    {
    }
  }

  // ---------------------------------------------------------------- the log

  /** A logged block: its variable, the point, and the guarded clause. */
  datatype Update = Update(v: nat, point: Point, clause: Clause)

  /** `blockingClause`, from the keys of the slice. */
  function BlockUpdate(R: Round, v: nat, y: Point): Update {
    Update(v, y, BlockClause(R.Keys(), y) + {Lit(v, true)})
  }

  /** `blockingClause`: the guard, and for each objective the literal of the last key up to the point. */
  method BlockingClause(R: Round, point: Point, variable: nat) returns (clause: Clause)
    requires |point| == |R.Keys()|
    ensures clause == BlockUpdate(R, variable, point).clause
  {
    var slicedRoots := R.Keys();
    hide SlicedRoots, Sums, Sliced;
    clause := {Lit(variable, true)};
    for i := 0 to |point|
      invariant clause == {Lit(variable, true)} + BlockLits(slicedRoots, point, i)
    {
      var index := 0;
      while index + 1 < |slicedRoots[i]| && slicedRoots[i][index + 1].key <= point[i]
        invariant index < |slicedRoots[i]| && KeyIndexFrom(slicedRoots[i], point[i], index + 1) ==
            KeyIndex(slicedRoots[i], point[i])
      {
        index := index + 1;
      }
      if index > 0 {
        clause := clause + {slicedRoots[i][index].lit};
      }
    }
  }

  /** Every logged clause is the one that the complete objectives would give. */
  predicate AllTight(I: Instance, us: seq<Update>) {
    forall i | 0 <= i < |us| :: Tight(I.p, us[i].v, us[i].point, us[i].clause)
  }

  function Clauses(us: seq<Update>): Db {
    set i | 0 <= i < |us| :: us[i].clause
  }

  predicate Logged(us: seq<Update>, v: nat, y: Point) {
    exists i | 0 <= i < |us| :: us[i].v == v && us[i].point == y
  }

  /** Every logged block has a variable of its own beyond the encoding, and comes from some slice. */
  ghost predicate Log(I: Instance, us: seq<Update>, nVars: nat) {
    && I.p.base <= nVars
    && (forall i | 0 <= i < |us| :: I.p.base <= us[i].v < nVars && |us[i].point| == |I.p.objs|)
    && (forall i | 0 <= i < |us| :: FromSlice(I.p, us[i].v, us[i].point, us[i].clause))
    && forall i, j | 0 <= i < j < |us| :: us[i].v != us[j].v
  }

  // ---------------------------------------------------------------- the protocol

  datatype Worker = Worker(pc: Pc, fence: Point, next: nat, guards: set<nat>, model: Assignment, core: seq<Lit>, db: Db)

  datatype State = State(stack: seq<Point>, seen: set<Point>, active: int, updates: seq<Update>, blocks: set<nat>,
                         nVars: nat, softBlocks: map<Point, nat>, entries: seq<Entry>, found: set<Point>,
                         workers: seq<Worker>)

  datatype Action =
    | TakeFence
    | LeaveLoop
    | Synchronize
    | ShareClauses(k: nat, clause: Clause)
    | SolveSat(a: Assignment)
    | SolveUndef
    | SolveUnsat(core: seq<Lit>)
    | Publish
    | InsertExpansions(order: seq<Point>)
    | Finish

  function SetWorker(s: State, i: nat, w: Worker): State
    requires i < |s.workers|
  {
    s.(workers := s.workers[i := w])
  }

  /** Frozen literals false, the guards known at the last synchronization true, and below the fence. */
  function Assumptions(R: Round, w: Worker): set<Lit> {
    HarvestAssumptions(R.frozen, w.guards, BelowLits(R.Keys(), w.fence))
  }

  /** The archive after `pushSafe`; a new candidate's block is logged unless its point has one. */
  function Published(R: Round, s: State, m: Assignment): State {
    var y := Eval(Rel(R), m);
    if exists e | e in s.entries :: Dominates(e.point, y) then
      s.(entries := Kept(s.entries, y))
    else if y in s.softBlocks then
      s.(entries := Kept(s.entries, y) + [Entry(m, y)], found := s.found + {y}, blocks := s.blocks + {s.softBlocks[y]})
    else
      s.(entries := Kept(s.entries, y) + [Entry(m, y)], found := s.found + {y}, blocks := s.blocks + {s.nVars},
         softBlocks := s.softBlocks[y := s.nVars], updates := s.updates + [BlockUpdate(R, s.nVars, y)],
         nVars := s.nVars + 1)
  }

  ghost predicate Step(R: Round, s: State, i: nat, act: Action, s': State)
    requires i < |s.workers| && R.stride >= 1.0
  {
    var w := s.workers[i];
    match act
    case TakeFence =>
      && w.pc == Idle && s.stack != []
      && s' == SetWorker(s, i, w.(pc := Harvesting, fence := s.stack[|s.stack| - 1]))
               .(stack := s.stack[..|s.stack| - 1], active := s.active + 1)
    case LeaveLoop =>
      && w.pc == Idle && s.stack == [] && s.active == 0
      && s' == SetWorker(s, i, w.(pc := Exited))
    case Synchronize =>
      && w.pc == Harvesting && w.next <= |s.updates|
      && s' == SetWorker(s, i, w.(pc := Synced, next := |s.updates|, guards := s.blocks,
          db := w.db + Clauses(s.updates[w.next..])))
    case ShareClauses(k, clause) =>
      && w.pc in {Synced, Refuted} && k < |s.workers| && Entails(s.workers[k].db, clause)
      && s' == SetWorker(s, i, w.(db := w.db + {clause}))
    case SolveSat(a) =>
      && w.pc == Synced && SatDb(w.db, a) && AllHold(Assumptions(R, w), a)
      && s' == SetWorker(s, i, w.(pc := HasModel, model := a))
    case SolveUndef =>
      && w.pc == Synced
      && s' == SetWorker(s, i, w.(pc := Harvesting))
    case SolveUnsat(core) =>
      && w.pc == Synced && Distinct(core)
      && Entails(w.db, LitSet(core)) && Negates(LitSet(core), Assumptions(R, w))
      && s' == SetWorker(s, i, w.(pc := Refuted, core := core))
    case Publish =>
      && w.pc == HasModel
      && s' == SetWorker(Published(R, s, w.model), i, w.(pc := Harvesting))
    case InsertExpansions(order) =>
      && w.pc == Refuted && |w.fence| == |Rel(R).roots| == |Rel(R).max|
      && multiset(order) == multiset(Expansions(Rel(R), R.stride, w.fence, LitSet(w.core)))
      && var (stack, seen) := InsertAll(s.stack, s.seen, order);
         s' == SetWorker(s, i, w.(pc := Expanded)).(stack := stack, seen := seen)
    case Finish =>
      && w.pc == Expanded
      && s' == SetWorker(s, i, w.(pc := Idle)).(active := s.active - 1)
  }

  ghost predicate Next(R: Round, s: State, s': State)
    requires R.stride >= 1.0
  {
    exists i, act :: 0 <= i < |s.workers| && Step(R, s, i, act, s')
  }

  /** The first loop of `expansionPoints`: the objectives of the core's literals. */
  method CoreObjectives(p: Problem, core: seq<Lit>) returns (objectives: set<int>)
    requires OwnRoots(p)
    ensures forall i | 0 <= i < |p.roots| :: i in objectives <==> NamedBy(p, LitSet(core), i)
  {
    hide OwnRoots;
    objectives := {};
    for n := 0 to |core|
      invariant objectives == set m | 0 <= m < n && IObjFromLit(p, core[m], 0) >= 0 :: IObjFromLit(p, core[m], 0)
    {
      var objective := IObjFromLit(p, core[n], 0);
      if objective >= 0 {
        objectives := objectives + {objective};
      }
    }
    forall i | 0 <= i < |p.roots|
      ensures i in objectives <==> NamedBy(p, LitSet(core), i)
    {
      Named(p, core, i);
    }
  }

  /** The raised coordinate: at least one below the next key, at most one below the last. */
  function RaisedBy(rl: Roots, stride: real, x: nat): int
    requires stride >= 0.0 && KeyIndex(rl, x + 1) + 1 < |rl|
  {
    var adjacent := rl[KeyIndex(rl, x + 1) + 1].key - 1;
    var maximum := rl[|rl| - 1].key - 1;
    var scaled := Ceil(x as real * stride);
    Min(maximum, Max(adjacent, if scaled >= maximum then maximum else scaled))
  }

  /** `expansionPoints`, in the order of the objectives. */
  method ExpansionPoints(R: Round, fence: Point, core: seq<Lit>) returns (result: seq<Point>)
    requires ValidRound(R) && |fence| == |R.I.p.objs|
    ensures |fence| == |Rel(R).roots| == |Rel(R).max| && result == Expansions(Rel(R), R.stride, fence, LitSet(core))
    ensures Rel(R).max == Bounds(R.Keys()) && AreExpansions(Rel(R), R.stride, fence, LitSet(core), result)
  {
    hide ValidRound, AreExpansions, Valid, OwnRoots, NamedBy, RaisedBy, ExpansionsFrom, SlicedRoots, FeasiblePoints,
         Dominates, Rel;
    RelIsValid(R);
    ghost var r, conflict := Rel(R), LitSet(core);
    ExpansionsAreLeast(r, R.stride, fence, conflict);
    var p := Problem(R.I.p.base, {}, R.I.p.objs, R.Keys(), R.I.p.max);
    SameRoots(r, p);
    var indices := EvalToIndex(p.roots, fence);
    var objectives := CoreObjectives(p, core);
    result := [];
    NothingLeftToRaise(r, R.stride, fence, conflict);
    for i := 0 to |fence|
      invariant result + ExpansionsFrom(r, R.stride, fence, conflict, i) == Expansions(r, R.stride, fence, conflict)
    {
      OneExpansion(r, p, R.stride, fence, core, i);
      if i in objectives && indices[i] + 1 < |p.roots[i]| {
        result := result + [fence[i := RaisedBy(p.roots[i], R.stride, fence[i])]];
      }
    }
  }

  lemma NothingLeftToRaise(r: Problem, stride: real, u: Point, conflict: Clause)
    requires stride >= 0.0 && |u| == |r.roots| == |r.max|
    ensures ExpansionsFrom(r, stride, u, conflict, |u|) == []
    ensures ExpansionsFrom(r, stride, u, conflict, 0) == Expansions(r, stride, u, conflict)
  {
  }

  lemma OneExpansion(r: Problem, p: Problem, stride: real, u: Point, core: seq<Lit>, i: nat)
    requires Valid(r) && OwnRoots(r) && p.roots == r.roots && stride >= 0.0 && |u| == |r.roots| == |r.max| && i < |u|
    requires r.max == Bounds(r.roots)
    ensures NamedBy(p, LitSet(core), i) && KeyIndex(p.roots[i], u[i] + 1) + 1 < |p.roots[i]| ==>
              RaisedBy(p.roots[i], stride, u[i]) >= 0
    ensures ExpansionsFrom(r, stride, u, LitSet(core), i) ==
              (if NamedBy(p, LitSet(core), i) && KeyIndex(p.roots[i], u[i] + 1) + 1 < |p.roots[i]|
               then [u[i := RaisedBy(p.roots[i], stride, u[i])]] else [])
              + ExpansionsFrom(r, stride, u, LitSet(core), i + 1)
  {
    SameNames(r, p, LitSet(core), i);
    if KeyIndex(r.roots[i], u[i] + 1) + 1 < |r.roots[i]| {
      LastIsLargest(r, u, i);
    }
  }

  /** The objectives of a core's literals are those that the core names. */
  lemma Named(p: Problem, core: seq<Lit>, i: nat)
    requires OwnRoots(p) && i < |p.roots|
    ensures NamedBy(p, LitSet(core), i) <==> exists m :: 0 <= m < |core| && IObjFromLit(p, core[m], 0) == i
  {
    forall m | 0 <= m < |core|
      ensures RootOf(p, i, core[m]) <==> IObjFromLit(p, core[m], 0) == i
    {
    }
    if NamedBy(p, LitSet(core), i) {
      var l :| l in LitSet(core) && RootOf(p, i, l);
      var m :| 0 <= m < |core| && core[m] == l;
    }
    if m :| 0 <= m < |core| && RootOf(p, i, core[m]) {
      assert core[m] in LitSet(core);
    }
  }

  lemma LastIsLargest(r: Problem, u: Point, i: nat)
    requires Valid(r) && i < |r.objs| && i < |u| && r.max[i] == LastValue(r.roots[i]) &&
        KeyIndex(r.roots[i], u[i] + 1) + 1 < |r.roots[i]|
    ensures var rl := r.roots[i]; var key := rl[KeyIndex(rl, u[i] + 1) + 1].key;
      key > u[i] + 1 && key <= rl[|rl| - 1].key && r.max[i] == rl[|rl| - 1].key - 1
  {
    assert EncodesObjective(r, i);
  }

  // ---------------------------------------------------------------- the work list inside

  function QueueOf(s: State): Queue {
    Queue(s.stack, s.seen, s.active, seq(|s.workers|, i requires 0 <= i < |s.workers| =>
      SlotOf(s.workers[i].pc, s.workers[i].fence)))
  }

  function MoveOf(act: Action): Move {
    match act
    case TakeFence => Pop
    case LeaveLoop => Exit
    case InsertExpansions(order) => Expand(order)
    case Finish => Leave
    case _ => Stay
  }

  /** Every step of the protocol is a move of the work list. */
  lemma StepMoves(R: Round, s: State, i: nat, act: Action, s': State)
    requires ValidRound(R) && i < |s.workers| && Step(R, s, i, act, s')
    ensures Moves(Rel(R), QueueOf(s), i, MoveOf(act), QueueOf(s'))
  {
    hide ValidRound, Rel, Published, InsertAll, Expansions, Assumptions, BlockUpdate, Clauses;
    if act.InsertExpansions? {
      ExpansionsMove(R, s, i, act, s');
    } else {
      PublishedQueue(R, s, s.workers[i].model);
      var q, q' := QueueOf(s), QueueOf(s');
      assert q'.slots == q.slots[i := SlotOf(s'.workers[i].pc, s'.workers[i].fence)];
      if MoveOf(act) == Stay {
        assert q.slots[i] == q'.slots[i];
      }
    }
  }

  lemma ExpansionsMove(R: Round, s: State, i: nat, act: Action, s': State)
    requires ValidRound(R) && i < |s.workers| && Step(R, s, i, act, s') && act.InsertExpansions?
    ensures Moves(Rel(R), QueueOf(s), i, MoveOf(act), QueueOf(s'))
  {
    hide ValidRound, Valid, OwnRoots, FeasiblePoints, Rel, InsertAll, Expansions, SlicedRoots, Dominates;
    RelIsValid(R);
    var q, q', w := QueueOf(s), QueueOf(s'), s.workers[i];
    assert q'.slots == q.slots[i := SlotOf(s'.workers[i].pc, s'.workers[i].fence)];
    WholeExpansions(Rel(R), R.stride, w.fence, LitSet(w.core));
    SameElements(act.order, Expansions(Rel(R), R.stride, w.fence, LitSet(w.core)));
  }

  lemma PublishedQueue(R: Round, s: State, m: Assignment)
    ensures var t := Published(R, s, m);
      t.stack == s.stack && t.seen == s.seen && t.active == s.active && t.workers == s.workers
  {
  }

  // ---------------------------------------------------------------- what the databases mean

  /** An open model of the cores, with the guard of a block true exactly if its point does not dominate the model. */
  ghost predicate Extended(R: Round, us: seq<Update>, e: Assignment) {
    var y := Eval(R.I.p, e);
    && SatDb(R.I.p.hard, e) && SatDb(R.cores, e) && !Covered(R.accepted, y)
    && forall i | 0 <= i < |us| :: us[i].v in e <==> !Dominates(us[i].point, y)
  }

  /** Every extended open model satisfies the database. */
  ghost predicate SoundFor(R: Round, us: seq<Update>, db: Db) {
    forall e: Assignment | Extended(R, us, e) :: SatDb(db, e)
  }

  /** Every open model of the cores can be extended. */
  lemma Extend(R: Round, us: seq<Update>, nVars: nat, a: Assignment) returns (e: Assignment)
    requires Valid(R.I.p) && DbBelow(R.I.p.hard + R.cores, R.I.p.base) && Log(R.I, us, nVars)
    requires SatDb(R.I.p.hard, a) && SatDb(R.cores, a) && !Covered(R.accepted, Eval(R.I.p, a))
    ensures Extended(R, us, e) && Agree(a, e, R.I.p.base) && Eval(R.I.p, e) == Eval(R.I.p, a)
  {
    hide Valid, Eval, SatDb, DbBelow, Dominates;
    var y := Eval(R.I.p, a);
    e := (set v | v in a && v < R.I.p.base) + set i | 0 <= i < |us| && !Dominates(us[i].point, y) :: us[i].v;
    assert Agree(a, e, R.I.p.base);
    BelowParts(R.I.p.hard, R.cores, R.I.p.base);
    SatDbAgree(R.I.p.hard, a, e, R.I.p.base);
    SatDbAgree(R.cores, a, e, R.I.p.base);
    EvalAgree(R.I.p, a, e);
  }

  lemma SoundMore(R: Round, us: seq<Update>, more: seq<Update>, db: Db)
    requires SoundFor(R, us, db) && us <= more
    ensures SoundFor(R, more, db)
  {
    hide SatDb, Dominates, Eval, Covered;
    forall e: Assignment | Extended(R, more, e)
      ensures Extended(R, us, e)
    {
      assert forall i | 0 <= i < |us| :: us[i] == more[i];
    }
  }

  /** The logged clauses hold in extended models. */
  lemma LogHolds(R: Round, us: seq<Update>, nVars: nat, e: Assignment)
    requires Valid(R.I.p) && Log(R.I, us, nVars) && AllTight(R.I, us) && Extended(R, us, e)
    ensures SatDb(Clauses(us), e)
  {
    hide Valid, BlockClause, Eval, Dominates, SatDb, Covered;
    forall i | 0 <= i < |us|
      ensures SatClause(us[i].clause, e)
    {
      TightHolds(R.I, us[i].v, us[i].point, us[i].clause, e);
    }
    AllHoldClauses(us, e);
  }

  lemma AllHoldClauses(us: seq<Update>, e: Assignment)
    requires forall i | 0 <= i < |us| :: SatClause(us[i].clause, e)
    ensures SatDb(Clauses(us), e)
  {
  }

  lemma SomeClauses(us: seq<Update>, n: nat)
    requires n <= |us|
    ensures Clauses(us) == Clauses(us[..n]) + Clauses(us[n..])
  {
    var left, right := Clauses(us[..n]), Clauses(us[n..]);
    forall i | 0 <= i < |us|
      ensures us[i].clause in left + right
    {
      if i < n {
        assert us[..n][i] == us[i];
      } else {
        assert us[n..][i - n] == us[i];
      }
    }
    forall i | 0 <= i < n
      ensures us[..n][i].clause in Clauses(us)
    {
      assert us[i].clause in Clauses(us);
    }
    forall i | 0 <= i < |us| - n
      ensures us[n..][i].clause in Clauses(us)
    {
      assert us[n + i].clause in Clauses(us);
    }
  }

  // ---------------------------------------------------------------- the invariant

  /** The worker's solver holds the formula, the replayed part of the log, and the accepted blocks. */
  ghost predicate Replays(R: Round, us: seq<Update>, w: Worker) {
    && w.next <= |us|
    && R.I.p.hard <= w.db && R.cores <= w.db && Clauses(us[..w.next]) <= w.db && Units(R.hardened) <= w.db
    && (forall y | y in R.accepted :: Barred(R.hardened, us[..w.next], y))
    && forall v | v in w.guards :: Known(us[..w.next], v)
  }

  /** The block of the point is logged and its variable is true for good. */
  ghost predicate Barred(hardened: set<nat>, us: seq<Update>, y: Point) {
    exists i :: 0 <= i < |us| && us[i].point == y && us[i].v in hardened
  }

  ghost predicate Known(us: seq<Update>, v: nat) {
    exists i :: 0 <= i < |us| && us[i].v == v
  }

  ghost predicate WorkerInv(R: Round, us: seq<Update>, blocks: set<nat>, w: Worker) {
    && Replays(R, us, w) && (AllTight(R.I, us) ==> SoundFor(R, us, w.db)) && w.guards <= blocks
    && (w.pc == HasModel ==> SatDb(w.db, w.model) && AllHold(Assumptions(R, w), w.model))
    && (w.pc == Refuted ==> Entails(w.db, LitSet(w.core)) && Negates(LitSet(w.core), Assumptions(R, w)))
  }

  /** Log, archive and assumed blocks fit together. */
  ghost predicate Shared(R: Round, s: State) {
    && Log(R.I, s.updates, s.nVars)
    && (forall y | y in s.softBlocks :: Logged(s.updates, s.softBlocks[y], y))
    && (forall v | v in s.blocks :: BlocksFound(s.updates, s.found, v))
    && (forall e | e in s.entries :: e.point in s.softBlocks && s.softBlocks[e.point] in s.blocks)
    && Searched(Rel(R), R.accepted, s.found, s.entries)
  }

  ghost predicate BlocksFound(us: seq<Update>, found: set<Point>, v: nat) {
    exists y :: y in found && Logged(us, v, y)
  }

  /** If all logged blocks are tight, accepted points and candidates cover the whole relaxation. */
  ghost predicate Done(R: Round, s: State) {
    AllTight(R.I, s.updates) ==> AllCovered(R, s)
  }

  ghost predicate AllCovered(R: Round, s: State) {
    CoversAll(R.accepted + s.found, FeasiblePoints(Rel(R)))
  }

  ghost predicate Inv(R: Round, s: State) {
    && Shared(R, s)
    && (forall w | w in s.workers :: WorkerInv(R, s.updates, s.blocks, w))
    && QueueInv(Rel(R), Done(R, s), QueueOf(s))
  }

  // ---------------------------------------------------------------- what no step loses

  ghost predicate Frame(s: State, i: nat, s': State)
    requires i < |s.workers|
  {
    && |s'.workers| == |s.workers|
    && (forall j | 0 <= j < |s.workers| && j != i :: s'.workers[j] == s.workers[j])
    && s.updates <= s'.updates && s.blocks <= s'.blocks && s.found <= s'.found
  }

  /** Only `Publish` touches what the workers share besides the work list. */
  ghost predicate SameShared(s: State, s': State) {
    && s'.updates == s.updates && s'.blocks == s.blocks && s'.nVars == s.nVars && s'.softBlocks == s.softBlocks
    && s'.entries == s.entries && s'.found == s.found
  }

  lemma StepFrame(R: Round, s: State, i: nat, act: Action, s': State)
    requires R.stride >= 1.0 && i < |s.workers| && Step(R, s, i, act, s')
    ensures Frame(s, i, s') && (act.Publish? || SameShared(s, s'))
  {
    hide Rel, Eval, BlockUpdate, Expansions, Assumptions, InsertAll, Clauses;
  }

  lemma PrefixOfMore(us: seq<Update>, more: seq<Update>, n: nat)
    requires us <= more && n <= |us|
    ensures us[..n] == more[..n]
  {
  }

  /** A worker's invariant survives whatever others publish. */
  lemma WorkerStays(R: Round, us: seq<Update>, more: seq<Update>, blocks: set<nat>, blocks': set<nat>, w: Worker)
    requires WorkerInv(R, us, blocks, w) && us <= more && blocks <= blocks'
    ensures WorkerInv(R, more, blocks', w)
  {
    hide SoundFor, Entails, Negates, AllHold, SatDb, Assumptions, Barred, Known, Clauses, AllTight;
    PrefixOfMore(us, more, w.next);
    if AllTight(R.I, more) {
      TightPrefix(R.I, us, more);
      SoundMore(R, us, more, w.db);
    }
  }

  // ---- the steps of one worker

  lemma SyncKeepsWorker(R: Round, s: State, w: Worker)
    requires ValidRound(R) && Shared(R, s) && WorkerInv(R, s.updates, s.blocks, w)
    ensures WorkerInv(R, s.updates, s.blocks,
                      w.(pc := Synced, next := |s.updates|, guards := s.blocks,
                          db := w.db + Clauses(s.updates[w.next..])))
  {
    hide ValidInstance, Frozen, DbBelow, Searched, Valid, Clauses, SatDb, Extended, Tight, Entails, Negates, AllHold,
         Assumptions;
    InstanceIsValid(R);
    var us, n := s.updates, w.next;
    var db := w.db + Clauses(us[n..]);
    SomeClauses(us, n);
    assert us[..|us|] == us;
    forall e: Assignment | AllTight(R.I, us) && Extended(R, us, e)
      ensures SatDb(db, e)
    {
      LogHolds(R, us, s.nVars, e);
      assert SatDb(w.db, e);
      SatBoth(w.db, Clauses(us[..n]), Clauses(us[n..]), e);
    }
    forall y | y in R.accepted
      ensures Barred(R.hardened, us, y)
    {
      assert Barred(R.hardened, us[..n], y);
      var i :| 0 <= i < n && us[..n][i].point == y && us[..n][i].v in R.hardened;
      assert us[i] == us[..n][i];
    }
    forall v | v in s.blocks
      ensures Known(us, v)
    {
      assert BlocksFound(us, s.found, v);
    }
  }

  lemma InstanceIsValid(R: Round)
    requires ValidRound(R)
    ensures Valid(R.I.p) && DbBelow(R.I.p.hard + R.cores, R.I.p.base) && LitsBelow(R.frozen, R.I.n) &&
        R.I.n <= R.I.p.base
  {
    RelaxedIsValid(R.Part());
  }

  lemma SatBoth(db: Db, left: Db, right: Db, e: Assignment)
    requires SatDb(db, e) && SatDb(left + right, e)
    ensures SatDb(db + right, e)
  {
  }

  lemma LearntKeepsWorker(R: Round, us: seq<Update>, blocks: set<nat>, w: Worker, from: Worker, clause: Clause)
    requires WorkerInv(R, us, blocks, w) && WorkerInv(R, us, blocks, from) && Entails(from.db, clause) &&
        w.pc != HasModel
    ensures WorkerInv(R, us, blocks, w.(db := w.db + {clause}))
  {
    hide Extended, Negates, HarvestAssumptions, BelowLits, Barred, Known, Clauses;
    forall e: Assignment | AllTight(R.I, us) && Extended(R, us, e)
      ensures SatDb(w.db + {clause}, e)
    {
      assert SatDb(from.db, e) && SatDb(w.db, e);
    }
    if w.pc == Refuted {
      StillEntailed(w.db, w.db + {clause}, LitSet(w.core));
    }
  }

  lemma StillEntailed(db: Db, more: Db, c: Clause)
    requires Entails(db, c) && db <= more
    ensures Entails(more, c)
  {
    forall a: Assignment | SatDb(more, a)
      ensures SatDb(db, a)
    {
    }
  }

  lemma OwnWorker(R: Round, s: State, i: nat, act: Action, s': State)
    requires ValidRound(R) && Shared(R, s) && (forall w | w in s.workers :: WorkerInv(R, s.updates, s.blocks, w))
    requires i < |s.workers| && Step(R, s, i, act, s')
    ensures |s'.workers| == |s.workers| && WorkerInv(R, s'.updates, s'.blocks, s'.workers[i])
  {
    StepFrame(R, s, i, act, s');
    hide ValidRelaxation, Dominates, Shared, WorkerInv, Step;
    assert WorkerInv(R, s.updates, s.blocks, s.workers[i]);
    if act.Synchronize? {
      SyncedWorker(R, s, i, s');
    } else if act.ShareClauses? {
      assert WorkerInv(R, s.updates, s.blocks, s.workers[i]);
      SharingWorker(R, s, i, act, s');
    } else if act.Publish? {
      PublishingWorker(R, s, i, s');
    } else {
      QuietStep(R, s, i, act, s');
    }
  }

  lemma SyncedWorker(R: Round, s: State, i: nat, s': State)
    requires ValidRound(R) && Shared(R, s) && i < |s.workers| && Step(R, s, i, Synchronize, s')
    requires WorkerInv(R, s.updates, s.blocks, s.workers[i])
    ensures |s'.workers| == |s.workers| && WorkerInv(R, s'.updates, s'.blocks, s'.workers[i])
  {
    hide ValidRelaxation, Dominates, Shared, WorkerInv, Clauses;
    SyncKeepsWorker(R, s, s.workers[i]);
  }

  lemma SharingWorker(R: Round, s: State, i: nat, act: Action, s': State)
    requires R.stride >= 1.0 && i < |s.workers| && Step(R, s, i, act, s') && act.ShareClauses?
    requires forall w | w in s.workers :: WorkerInv(R, s.updates, s.blocks, w)
    ensures |s'.workers| == |s.workers| && WorkerInv(R, s'.updates, s'.blocks, s'.workers[i])
  {
    hide WorkerInv, Entails;
    assert WorkerInv(R, s.updates, s.blocks, s.workers[i]) && WorkerInv(R, s.updates, s.blocks, s.workers[act.k]);
    LearntKeepsWorker(R, s.updates, s.blocks, s.workers[i], s.workers[act.k], act.clause);
  }

  lemma PublishingWorker(R: Round, s: State, i: nat, s': State)
    requires R.stride >= 1.0 && i < |s.workers| && Step(R, s, i, Publish, s') && Frame(s, i, s')
    requires WorkerInv(R, s.updates, s.blocks, s.workers[i])
    ensures |s'.workers| == |s.workers| && WorkerInv(R, s'.updates, s'.blocks, s'.workers[i])
  {
    hide WorkerInv, Published;
    PublishedQueue(R, s, s.workers[i].model);
    WorkerRests(R, s.updates, s.blocks, s.workers[i]);
    WorkerStays(R, s.updates, s'.updates, s.blocks, s'.blocks, s.workers[i].(pc := Harvesting));
  }

  lemma QuietStep(R: Round, s: State, i: nat, act: Action, s': State)
    requires R.stride >= 1.0 && i < |s.workers| && Step(R, s, i, act, s')
    requires WorkerInv(R, s.updates, s.blocks, s.workers[i]) && !act.Synchronize? && !act.ShareClauses? && !act.Publish?
    ensures |s'.workers| == |s.workers| && WorkerInv(R, s'.updates, s'.blocks, s'.workers[i])
  {
    hide SoundFor, Barred, Known, Clauses, Entails, Negates, AllHold, SatDb, Expansions, InsertAll, Rel,
         HarvestAssumptions, BelowLits;
  }

  lemma WorkerRests(R: Round, us: seq<Update>, blocks: set<nat>, w: Worker)
    requires WorkerInv(R, us, blocks, w)
    ensures WorkerInv(R, us, blocks, w.(pc := Harvesting))
  {
  }

  // ---- candidates

  lemma LoggedBites(R: Round, us: seq<Update>, nVars: nat, w: Worker, i: nat)
    requires ValidInstance(R.I) && Log(R.I, us, nVars) && Replays(R, us, w) && SatDb(w.db, w.model)
    requires i < w.next && us[i].v in w.model
    ensures !Dominates(us[i].point, Eval(R.I.p, w.model))
  {
    hide Valid, BlockClause, Eval, Dominates, Barred, Known;
    assert us[..w.next][i] == us[i];
    assert us[i].clause in Clauses(us[..w.next]) && us[i].clause in w.db;
    GuardBites(R.I, us[i].v, us[i].point, us[i].clause, w.model);
  }

  lemma AcceptedBites(R: Round, us: seq<Update>, nVars: nat, w: Worker, y: Point)
    requires ValidInstance(R.I) && Log(R.I, us, nVars) && Replays(R, us, w) && SatDb(w.db, w.model) && y in R.accepted
    ensures !Dominates(y, Eval(R.I.p, w.model))
  {
    hide Valid, Eval, Dominates, Tight, Known;
    assert Barred(R.hardened, us[..w.next], y);
    var i :| 0 <= i < w.next && us[..w.next][i].point == y && us[..w.next][i].v in R.hardened;
    assert us[..w.next][i] == us[i];
    assert {Lit(us[i].v, false)} in Units(R.hardened);
    assert SatClause({Lit(us[i].v, false)}, w.model);
    LoggedBites(R, us, nVars, w, i);
  }

  /** What an assignment under the assumptions of a harvest makes true. */
  lemma AssumedHold(R: Round, w: Worker)
    requires AllHold(Assumptions(R, w), w.model)
    ensures forall l | l in R.frozen :: !Holds(l, w.model)
    ensures forall v | v in w.guards :: v in w.model
  {
    hide BelowLits;
    forall l | l in R.frozen
      ensures !Holds(l, w.model)
    {
      assert l.Not() in Assumptions(R, w);
    }
    forall v | v in w.guards
      ensures v in w.model
    {
      assert Lit(v, false) in Assumptions(R, w);
    }
  }

  /** A model found below a fence is a point of the relaxation that neither an accepted point nor any
      candidate known at the last synchronization dominates. */
  lemma FoundIsOpen(R: Round, us: seq<Update>, nVars: nat, blocks: set<nat>, w: Worker)
    requires ValidRound(R) && Log(R.I, us, nVars) && WorkerInv(R, us, blocks, w) && w.pc == HasModel
    ensures var y := Eval(Rel(R), w.model);
      && SatDb(Rel(R).hard, w.model) && y in FeasiblePoints(Rel(R)) && |y| == |R.I.p.objs| && !Covered(R.accepted, y)
      && forall i | 0 <= i < w.next && us[i].v in w.guards :: !Dominates(us[i].point, y)
  {
    InstanceIsValid(R);
    RelIsValid(R);
    RelaxedIsValid(R.Part());
    hide ValidInstance, Frozen, Valid, OwnRoots, FeasiblePoints, Eval, Dominates, Tight, SoundFor, Entails, Negates,
         Assumptions, Barred, Known;
    var m := w.model;
    AssumedHold(R, w);
    SatHardParts(R, w);
    RelaxedModel(R.Part(), m);
    SameFeasible(Relaxed(R.Part()), Rel(R));
    ModelIsFeasible(Rel(R), m);
    EvalSize(Rel(R), m);
    forall y | y in R.accepted
      ensures !Dominates(y, Eval(R.I.p, m))
    {
      AcceptedBites(R, us, nVars, w, y);
    }
    forall i | 0 <= i < w.next && us[i].v in w.guards
      ensures !Dominates(us[i].point, Eval(R.I.p, m))
    {
      LoggedBites(R, us, nVars, w, i);
    }
  }

  lemma SatHardParts(R: Round, w: Worker)
    requires R.I.p.hard <= w.db && R.cores <= w.db && SatDb(w.db, w.model)
    ensures SatDb(R.I.p.hard, w.model) && SatDb(R.cores, w.model)
  {
  }

  // ---- publishing

  /** A new block: a fresh variable at the end of the log. */
  lemma LogGrows(R: Round, s: State, y: Point)
    requires Log(R.I, s.updates, s.nVars) && SlicePoint(R.I.p, R.slice, y)
    ensures Log(R.I, s.updates + [BlockUpdate(R, s.nVars, y)], s.nVars + 1)
    ensures Logged(s.updates + [BlockUpdate(R, s.nVars, y)], s.nVars, y)
    ensures forall v, x | Logged(s.updates, v, x) :: Logged(s.updates + [BlockUpdate(R, s.nVars, y)], v, x)
  {
    hide BlockClause, SlicedRoots, FromSlice;
    var us := s.updates + [BlockUpdate(R, s.nVars, y)];
    FromThis(R.I.p, R.slice, s.nVars, y, BlockUpdate(R, s.nVars, y).clause);
    assert us[|s.updates|].v == s.nVars && us[|s.updates|].point == y;
    forall v, x | Logged(s.updates, v, x)
      ensures Logged(us, v, x)
    {
      var i :| 0 <= i < |s.updates| && s.updates[i].v == v && s.updates[i].point == x;
      assert us[i] == s.updates[i];
    }
  }

  lemma RelPoint(R: Round, m: Assignment)
    ensures SlicePoint(R.I.p, R.slice, Eval(Rel(R), m))
  {
    RelaxedPoint(R.Part(), m);
    SameFeasible(Relaxed(R.Part()), Rel(R));
  }

  lemma DominatedIsCovered(es: seq<Entry>, y: Point)
    ensures (exists e | e in es :: Dominates(e.point, y)) <==> Covered(Points(es), y)
  {
    if e :| e in es && Dominates(e.point, y) {
      assert e.point in Points(es);
    }
  }

  lemma PublishKeepsShared(R: Round, s: State, m: Assignment)
    requires Shared(R, s) && SatDb(Rel(R).hard, m)
    requires var y := Eval(Rel(R), m); y in FeasiblePoints(Rel(R)) && |y| == |R.I.p.objs| && !Covered(R.accepted, y)
    ensures Shared(R, Published(R, s, m))
  {
    hide Log, Rel, Eval, FeasiblePoints, Candidates, SatDb, BlockUpdate, Logged;
    var y, t := Eval(Rel(R), m), Published(R, s, m);
    DominatedIsCovered(s.entries, y);
    KeptMembers(s.entries, y);
    if Covered(Points(s.entries), y) {
      BarredChangesNothing(s.entries, y);
    } else {
      hide Searched;
      SearchedGrows(Rel(R), R.accepted, s.found, s.entries, m);
      RelPoint(R, m);
      LogGrows(R, s, y);
      forall v | v in t.blocks
        ensures BlocksFound(t.updates, t.found, v)
      {
        if v in s.blocks {
          assert BlocksFound(s.updates, s.found, v);
        }
      }
    }
  }

  // ---- refuted fences

  /** What a worker refuted below its fence holds in every open model of the relaxation. */
  lemma RefutationIsSound(R: Round, s: State, w: Worker)
    requires ValidRound(R) && Shared(R, s) && WorkerInv(R, s.updates, s.blocks, w) && w.pc == Refuted &&
        AllTight(R.I, s.updates)
    ensures Sound(Rel(R), R.accepted + s.found, {FencePart(LitSet(w.core), BelowLits(Rel(R).roots, w.fence))})
  {
    InstanceIsValid(R);
    RelIsValid(R);
    RelaxedIsValid(R.Part());
    ClausesBelowBase(Rel(R), w.fence);
    hide ValidInstance, Frozen, Valid, OwnRoots, FeasiblePoints, Eval, BelowLits, FencePart, Searched, Logged, Covered;
    var part := FencePart(LitSet(w.core), BelowLits(Rel(R).roots, w.fence));
    forall a: Assignment | OpenModel(Rel(R), R.accepted + s.found, a)
      ensures SatDb({part}, a)
    {
      RelaxedModel(R.Part(), a);
      SameFeasible(Relaxed(R.Part()), Rel(R));
      RefutationHolds(R, s, w, a);
    }
  }

  lemma RefutationHolds(R: Round, s: State, w: Worker, a: Assignment)
    requires Valid(R.I.p) && DbBelow(R.I.p.hard + R.cores, R.I.p.base) && LitsBelow(R.frozen, R.I.n) &&
        R.I.n <= R.I.p.base
    requires LitsBelow(BelowLits(Rel(R).roots, w.fence), R.I.p.base)
    requires Shared(R, s) && WorkerInv(R, s.updates, s.blocks, w) && w.pc == Refuted && AllTight(R.I, s.updates)
    requires SatDb(R.I.p.hard, a) && SatDb(R.cores, a) && !Covered(R.accepted + s.found, Eval(R.I.p, a)) &&
        forall l | l in R.frozen :: !Holds(l, a)
    ensures SatDb({FencePart(LitSet(w.core), BelowLits(Rel(R).roots, w.fence))}, a)
  {
    hide Valid, Eval, SatDb, DbBelow, Dominates, FeasiblePoints, BelowLits, Searched, Replays;
    var y, below := Eval(R.I.p, a), BelowLits(Rel(R).roots, w.fence);
    UncoveredParts(R.accepted, s.found, y);
    var e := Extend(R, s.updates, s.nVars, a);
    assert SatClause(LitSet(w.core), e);
    var l :| l in LitSet(w.core) && Holds(l, e);
    assert l.Not() in HarvestAssumptions(R.frozen, w.guards, below);
    assert l.Not().Not() == l;
    assert forall k | k in R.frozen :: k.v < R.I.n && k.Not().Not() == k;
    assert forall k | k in R.frozen :: !Holds(k, e);
    forall v | v in w.guards
      ensures v in e
    {
      GuardStaysTrue(R, s, e, v);
    }
    assert l.Not() in below;
    SingleClause(FencePart(LitSet(w.core), below), l, a);
  }

  /** The guard of a found point is true in every extended model that no found point dominates. */
  lemma GuardStaysTrue(R: Round, s: State, e: Assignment, v: nat)
    requires Extended(R, s.updates, e) && BlocksFound(s.updates, s.found, v)
    requires forall x | x in s.found :: !Dominates(x, Eval(R.I.p, e))
    ensures v in e
  {
    hide Eval, Dominates, SatDb, Covered;
    var x :| x in s.found && Logged(s.updates, v, x);
    var i :| 0 <= i < |s.updates| && s.updates[i].v == v && s.updates[i].point == x;
  }

  /** A core without expansions: accepted points and candidates cover the whole relaxation. */
  lemma NoExpansionCovers(R: Round, s: State, w: Worker)
    requires ValidRound(R) && Shared(R, s) && WorkerInv(R, s.updates, s.blocks, w) && w.pc == Refuted
    requires |w.fence| == |Rel(R).roots| == |Rel(R).max| && Expansions(Rel(R), R.stride, w.fence, LitSet(w.core)) == []
    ensures Done(R, s)
  {
    if AllTight(R.I, s.updates) {
      RefutedCovers(R, s, w);
    }
  }

  lemma RefutedCovers(R: Round, s: State, w: Worker)
    requires ValidRound(R) && Shared(R, s) && WorkerInv(R, s.updates, s.blocks, w) && w.pc == Refuted &&
        AllTight(R.I, s.updates)
    requires |w.fence| == |Rel(R).roots| == |Rel(R).max| && Expansions(Rel(R), R.stride, w.fence, LitSet(w.core)) == []
    ensures AllCovered(R, s)
  {
    RelIsValid(R);
    RefutationIsSound(R, s, w);
    hide ValidRound, Shared, WorkerInv, Valid, OwnRoots, FeasiblePoints, BelowLits, FencePart, Sound, Rel, Extendable;
    forall k | 0 <= k < |w.fence|
      ensures !Extendable(Rel(R), LitSet(w.core), w.fence, k)
    {
      if Extendable(Rel(R), LitSet(w.core), w.fence, k) {
        ExpansionExists(Rel(R), R.stride, w.fence, LitSet(w.core), 0, k);
      }
    }
    NothingToRaise(Rel(R), R.accepted + s.found, LitSet(w.core), w.fence);
  }

  // ---------------------------------------------------------------- every step

  lemma DoneStays(R: Round, s: State, s': State)
    requires Done(R, s) && s.found <= s'.found && s.updates <= s'.updates
    ensures Done(R, s')
  {
    if AllTight(R.I, s'.updates) {
      TightPrefix(R.I, s.updates, s'.updates);
      CoveredStays(R, s, s');
    }
  }

  lemma CoveredStays(R: Round, s: State, s': State)
    requires AllCovered(R, s) && s.found <= s'.found
    ensures AllCovered(R, s')
  {
    CoverAllMore(R.accepted + s.found, R.accepted + s'.found, FeasiblePoints(Rel(R)));
  }

  lemma KeepsShared(R: Round, s: State, i: nat, act: Action, s': State)
    requires ValidRound(R) && Inv(R, s) && i < |s.workers| && Step(R, s, i, act, s')
    ensures Shared(R, s')
  {
    StepFrame(R, s, i, act, s');
    if act.Publish? {
      var w := s.workers[i];
      assert WorkerInv(R, s.updates, s.blocks, w);
      FoundIsOpen(R, s.updates, s.nVars, s.blocks, w);
      PublishKeepsShared(R, s, w.model);
      hide ValidRound, Log, Searched, Logged, Rel;
      assert Shared(R, Published(R, s, w.model));
    } else {
      hide ValidRound, Log, Searched, Logged, BlocksFound, Step, WorkerInv, QueueInv;
    }
  }

  /** Every step of every worker keeps the invariant. */
  lemma StepKeepsInv(R: Round, s: State, i: nat, act: Action, s': State)
    requires ValidRound(R) && Inv(R, s) && i < |s.workers| && Step(R, s, i, act, s')
    ensures Inv(R, s') && s.seen <= s'.seen
  {
    StepFrame(R, s, i, act, s');
    KeepsShared(R, s, i, act, s');
    OwnWorker(R, s, i, act, s');
    StepMoves(R, s, i, act, s');
    hide ValidRound, Shared, Moves, Rel, Published, Clauses, Assumptions, Done, WorkerInv, QueueInv;
    forall j | 0 <= j < |s'.workers| && j != i
      ensures WorkerInv(R, s'.updates, s'.blocks, s'.workers[j])
    {
      assert s.workers[j] in s.workers;
      WorkerStays(R, s.updates, s'.updates, s.blocks, s'.blocks, s.workers[j]);
    }
    if Done(R, s) {
      DoneStays(R, s, s');
    }
    if act.InsertExpansions? && act.order == [] {
      var w := s.workers[i];
      assert w in s.workers;
      SameElements(act.order, Expansions(Rel(R), R.stride, w.fence, LitSet(w.core)));
      NoExpansionCovers(R, s, w);
      DoneStays(R, s, s');
    }
    MoveKeepsQueue(Rel(R), Done(R, s), Done(R, s'), QueueOf(s), i, MoveOf(act), QueueOf(s'));
  }

  lemma TightPrefix(I: Instance, us: seq<Update>, more: seq<Update>)
    requires AllTight(I, more) && us <= more
    ensures AllTight(I, us)
  {
  }

  // ---------------------------------------------------------------- a whole round

  /** Between rounds: everybody idle with the whole log replayed, no candidates, one fence to start from. */
  ghost predicate Ready(R: Round, s: State) {
    && s.stack == [R.root] && s.seen == {R.root} && s.active == 0 && s.entries == [] && s.found == {} && s.blocks == {}
    && Shared(R, s)
    && forall w | w in s.workers :: w.pc == Idle && WorkerInv(R, s.updates, s.blocks, w)
  }

  ghost predicate Steps(R: Round, run: seq<State>) {
    && R.stride >= 1.0 && |run| > 0
    && forall k | 0 <= k < |run| - 1 :: Next(R, run[k], run[k + 1])
  }

  ghost predicate RoundRun(R: Round, run: seq<State>) {
    Steps(R, run) && Ready(R, run[0])
  }

  lemma ReadyInv(R: Round, s: State)
    requires ValidRound(R) && Ready(R, s)
    ensures Inv(R, s)
  {
    RelIsValid(R);
    hide ValidRound, Shared, WorkerInv, QueueInv, Rel;
    ReadyRests(R, s);
    StartQueue(Rel(R), R.root, QueueOf(s));
    WeakerQueue(Rel(R), Done(R, s), QueueOf(s));
  }

  lemma WeakerQueue(p: Problem, done: bool, q: Queue)
    requires QueueInv(p, false, q)
    ensures QueueInv(p, done, q)
  {
  }

  lemma {:induction false} RunKeepsInv(R: Round, run: seq<State>, k: nat)
    requires ValidRound(R) && RoundRun(R, run) && k < |run|
    ensures Inv(R, run[k]) && R.root in run[k].seen
  {
    hide ValidRound, Inv, Step;
    if k == 0 {
      ReadyInv(R, run[0]);
    } else {
      var s, s' := run[k - 1], run[k];
      assert Next(R, s, run[k - 1 + 1]);
      var i, act :| 0 <= i < |s.workers| && Step(R, s, i, act, s');
      StepFrame(R, s, i, act, s');
      RunKeepsInv(R, run, k - 1);
      StepKeepsInv(R, s, i, act, s');
    }
  }

  ghost predicate Finished(s: State) {
    exists w :: w in s.workers && w.pc == Exited
  }

  lemma ExitedIsGone(s: State)
    ensures Finished(s) <==> Gone in QueueOf(s).slots
  {
    if Finished(s) {
      var j :| 0 <= j < |s.workers| && s.workers[j].pc == Exited;
      assert QueueOf(s).slots[j] == Gone;
    }
    if Gone in QueueOf(s).slots {
      var j :| 0 <= j < |s.workers| && QueueOf(s).slots[j] == Gone;
      assert s.workers[j] in s.workers;
    }
  }

  lemma {:induction false} RunKeepsQuiet(R: Round, run: seq<State>, k: nat)
    requires ValidRound(R) && RoundRun(R, run) && k < |run|
    ensures Finished(run[k]) ==> Quiet(QueueOf(run[k]))
  {
    hide ValidRound, Step, Moves, Shared, WorkerInv, Rel;
    if k > 0 {
      var s, s' := run[k - 1], run[k];
      assert Next(R, s, run[k - 1 + 1]);
      var i, act :| 0 <= i < |s.workers| && Step(R, s, i, act, s');
      StepFrame(R, s, i, act, s');
      RunKeepsQuiet(R, run, k - 1);
      RunKeepsInv(R, run, k - 1);
      StepMoves(R, s, i, act, s');
      ExitedIsGone(s);
      ExitedIsGone(s');
      MoveKeepsQuiet(Rel(R), QueueOf(s), i, MoveOf(act), QueueOf(s'));
    }
  }

  /** When a worker has left its loop, nobody explores any more, and accepted points and candidates
      cover the whole relaxation. */
  lemma RoundIsComplete(R: Round, run: seq<State>, k: nat)
    requires ValidRound(R) && RoundRun(R, run) && k < |run| && Finished(run[k])
    ensures Inv(R, run[k]) && Done(R, run[k]) && forall w | w in run[k].workers :: w.pc in {Idle, Exited}
  {
    hide ValidRound, Shared, WorkerInv, Rel, QueueInv, RoundRun, Done, CountIf;
    RunKeepsInv(R, run, k);
    RunKeepsQuiet(R, run, k);
    QuietIsDone(Rel(R), Done(R, run[k]), QueueOf(run[k]));
    forall j | 0 <= j < |run[k].workers|
      ensures run[k].workers[j].pc in {Idle, Exited}
    {
      assert QueueOf(run[k]).slots[j] in QueueOf(run[k]).slots;
    }
  }

  function Queues(run: seq<State>): seq<Queue> {
    seq(|run|, k requires 0 <= k < |run| => QueueOf(run[k]))
  }

  lemma RunMoves(R: Round, run: seq<State>, k: nat)
    requires ValidRound(R) && RoundRun(R, run) && k + 1 < |run|
    ensures MovesOn(Rel(R), QueueOf(run[k]), QueueOf(run[k + 1]))
  {
    RunKeepsInv(R, run, k);
    hide ValidRound, Step, Moves, QueueInv, Rel, Shared, WorkerInv, Ready, QueueOf;
    assert Next(R, run[k], run[k + 1]);
    var i, act :| 0 <= i < |run[k].workers| && Step(R, run[k], i, act, run[k + 1]);
    StepMoves(R, run[k], i, act, run[k + 1]);
    SlotsOfWorkers(run[k]);
    assert QueueInv(Rel(R), Done(R, run[k]), QueueOf(run[k]));
  }

  lemma SlotsOfWorkers(s: State)
    ensures |QueueOf(s).slots| == |s.workers|
  {
  }

  lemma ReadyRests(R: Round, s: State)
    requires Ready(R, s)
    ensures QueueOf(s).stack == [R.root] && AllRest(QueueOf(s).slots)
  {
    hide Shared, WorkerInv;
    forall j | 0 <= j < |s.workers|
      ensures QueueOf(s).slots[j] == Resting
    {
      assert s.workers[j] in s.workers;
    }
  }

  lemma QueuesMove(R: Round, run: seq<State>)
    requires ValidRound(R) && RoundRun(R, run)
    ensures var qs := Queues(run); forall k | 0 <= k < |qs| - 1 :: MovesOn(Rel(R), qs[k], qs[k + 1])
  {
    hide ValidRound, MovesOn, Rel, Ready, QueueOf, Next;
    var qs := Queues(run);
    forall k | 0 <= k < |qs| - 1
      ensures MovesOn(Rel(R), qs[k], qs[k + 1])
    {
      RunMoves(R, run, k);
    }
  }

  /** A round ends: no run completes more fences than its first fence weighs. */
  lemma FencesAreBounded(R: Round, run: seq<State>)
    requires ValidRound(R) && RoundRun(R, run)
    ensures Dominates(R.root, Rel(R).max)
    ensures Completed(Queues(run)) + Potential(Rel(R), QueueOf(run[|run| - 1])) <=
              Power(|Rel(R).max| + 1, Gap(R.root, Rel(R).max))
  {
    RelIsValid(R);
    QueuesMove(R, run);
    ReadyRests(R, run[0]);
    hide ValidRound, Valid, OwnRoots, FeasiblePoints, MovesOn, Completed, Potential, Rel, Ready, QueueOf, Next, Power,
         Gap, Dominates, AllRest;
    CompletedIsBounded(Rel(R), Queues(run));
    StartWeighs(Rel(R), R.root, Queues(run)[0]);
  }
}
