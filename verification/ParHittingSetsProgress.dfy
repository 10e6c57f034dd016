/** The loop of the parallel hitting-set optimizer can always end: every round that has begun can be
    finished, every finished round with a rejected candidate can be followed by another, and each of
    these excludes an assignment, until a round has no rejected candidate left. */
module ParHittingSetsProgress {
  import opened Cnf
  import opened Pareto
  import opened Encoding
  import opened Archive
  import opened FenceQueue
  import opened Freezing
  import opened Relaxations
  import opened ParHarvest
  import Progress = ParHarvestProgress
  import opened ParHittingSets

  // ---------------------------------------------------------------- from round to round

  function Lower(x: Point, y: Point): Point
    requires |x| == |y|
  {
    seq(|x|, i requires 0 <= i < |x| => if x[i] <= y[i] then x[i] else y[i])
  }

  /** Points of the same size have a greatest lower bound. */
  lemma {:induction false} InfimumExists(ys: set<Point>, n: nat) returns (root: Point)
    requires ys != {} && forall y | y in ys :: |y| == n
    ensures |root| == n && Infimum(root, ys)
    decreases |ys|
  {
    var y :| y in ys;
    if ys == {y} {
      root := y;
    } else {
      var rest := ys - {y};
      assert ys == rest + {y};
      var r := InfimumExists(rest, n);
      root := Lower(r, y);
      forall q: Point | |q| == n
        ensures Dominates(q, root) <==> forall z | z in ys :: Dominates(q, z)
      {
        assert Dominates(q, root) <==> Dominates(q, r) && Dominates(q, y);
      }
    }
  }

  /** The clauses of the formula exclude every rejected candidate. */
  lemma FormulaExcludes(I: Instance, es: seq<Entry>)
    requires ValidInstance(I)
    ensures (forall c | c in I.hard :: Entails(I.hard, c)) && DbBelow(I.hard, I.n)
    ensures forall e | e in es && !SatDb(I.hard, e.model) :: Excluded(e, I.hard)
  {
    forall e | e in es && !SatDb(I.hard, e.model)
      ensures Excluded(e, I.hard)
    {
      var c :| c in I.hard && !SatClause(c, e.model);
    }
  }

  /** All failed candidates have as many coordinates as there are objectives. */
  lemma FailingSize(R: Round, s: State)
    requires ValidRound(R) && Shared(R, s)
    ensures forall y | y in Failing(R.I.hard, s.entries) :: |y| == |R.I.p.objs|
  {
    forall y | y in Failing(R.I.hard, s.entries)
      ensures |y| == |R.I.p.objs|
    {
      var e :| e in s.entries && !SatDb(R.I.hard, e.model) && e.point == y;
      CandidateModel(R, s, e);
    }
  }

  /** A round with a rejected candidate can be followed by another. */
  lemma AdvanceExists(R: Round, s: State) returns (R': Round, s': State)
    requires ValidRound(R) && Inv(R, s) && Failing(R.I.hard, s.entries) != {}
    ensures Advance(R, s, R', s', R.I.hard)
  {
    InvShares(R, s);
    FailingSize(R, s);
    ValidParts(R);
    FormulaExcludes(R.I, s.entries);
    Replayed(R, s);
    hide ValidRound, ValidInstance, Inv, Entails, SatDb, Excluded, Infimum, Failing, PassedVars, Units;
    var root := InfimumExists(Failing(R.I.hard, s.entries), |R.I.p.objs|);
    var workers := RenewedWorkers(s, R.I.hard + Units(PassedVars(R.I.hard, s)));
    R', s' := AdvanceBy(R, s, root, workers);
  }

  lemma ValidParts(R: Round)
    requires ValidRound(R)
    ensures ValidInstance(R.I)
  {
  }

  lemma RenewedWorkers(s: State, more: Db) returns (workers: seq<Worker>)
    requires forall i | 0 <= i < |s.workers| :: s.workers[i].next <= |s.updates|
    ensures |workers| == |s.workers|
    ensures forall i | 0 <= i < |s.workers| :: workers[i] == Renewed(s.workers[i], s.updates, more)
  {
    workers := seq(|s.workers|, i requires 0 <= i < |s.workers| => Renewed(s.workers[i], s.updates, more));
  }

  lemma AdvanceBy(R: Round, s: State, root: Point, workers: seq<Worker>) returns (R': Round, s': State)
    requires Failing(R.I.hard, s.entries) != {} && |root| == |R.I.p.objs| && Infimum(root, Failing(R.I.hard, s.entries))
    requires (forall c | c in R.I.hard :: Entails(R.I.hard, c)) && DbBelow(R.I.hard, R.I.n)
    requires forall e | e in s.entries && !SatDb(R.I.hard, e.model) :: Excluded(e, R.I.hard)
    requires |workers| == |s.workers| && forall i | 0 <= i < |s.workers| ::
        s.workers[i].next <= |s.updates|
        && workers[i] == Renewed(s.workers[i], s.updates, R.I.hard + Units(PassedVars(R.I.hard, s)))
    ensures Advance(R, s, R', s', R.I.hard)
  {
    hide Entails, SatDb, Excluded, Infimum, Failing, PassedVars, Passing, Units, Literals, Thawed, Renewed, DbBelow;
    var hard, lits := R.I.hard, Literals(R.I.hard);
    R' := Round(R.I, R.cores + hard, R.frozen - lits, R.slice + Thawed(R.frozen, lits),
                R.accepted + Passing(hard, s.entries), R.hardened + PassedVars(hard, s), root, R.stride);
    s' := State([root], {root}, 0, s.updates, {}, s.nVars, s.softBlocks - Passing(hard, s.entries), [], {}, workers);
  }

  lemma Replayed(R: Round, s: State)
    requires Inv(R, s)
    ensures forall i | 0 <= i < |s.workers| :: s.workers[i].next <= |s.updates|
  {
    forall i | 0 <= i < |s.workers|
      ensures s.workers[i].next <= |s.updates|
    {
      Progress.PrefixReplayed(R, s, i);
    }
  }

  // ---------------------------------------------------------------- the loop goes on

  function Final(stages: seq<Stage>): Stage
    requires stages != []
  {
    stages[|stages| - 1]
  }

  /** The second run of the loop continues the first. */
  ghost predicate Continues(stages: seq<Stage>, whole: seq<Stage>)
    requires stages != []
  {
    var n := |stages| - 1;
    && n < |whole| && whole[..n] == stages[..n]
    && whole[n].round == stages[n].round && stages[n].run <= whole[n].run
  }

  ghost predicate Complete(I: Instance, s: State) {
    Progress.AllExited(s) && Failing(I.hard, s.entries) == {}
  }

  /** The last round can be finished. */
  lemma FinishRound(I: Instance, stages: seq<Stage>) returns (more: seq<Stage>)
    requires ValidInstance(I) && Master(I, stages) && Final(stages).run != [] && Final(stages).run[0].workers != []
    ensures Master(I, more) && stages != [] && Continues(stages, more) && |more| == |stages|
    ensures Final(more).run != [] && Final(more).run[0] == Final(stages).run[0] &&
        Final(more).round == Final(stages).round
    ensures Progress.AllExited(Last(Final(more).run)) && Finished(Last(Final(more).run))
    ensures Inv(Final(more).round, Last(Final(more).run)) && ValidRound(Final(more).round)
    ensures |Last(Final(more).run).workers| == |Final(stages).run[0].workers|
  {
    var n := |stages| - 1;
    var st := stages[n];
    StagesKeepInv(I, stages, n);
    assert Steps(st.round, st.run);
    hide ValidInstance, ValidRound, Ready, Inv, Next, Start, Follows, Entails, AllTight;
    var run := Progress.CanFinish(st.round, st.run);
    Progress.SameWorkers(st.round, run, |run| - 1);
    Progress.SomebodyExited(Last(run));
    RunKeepsInv(st.round, run, |run| - 1);
    more := stages[..n] + [Stage(st.round, run)];
    StillMaster(I, stages, more);
  }

  lemma StillMaster(I: Instance, stages: seq<Stage>, more: seq<Stage>)
    requires Master(I, stages) && |more| == |stages| && more[..|stages| - 1] == stages[..|stages| - 1]
    requires Final(more).round == Final(stages).round && Steps(Final(more).round, Final(more).run)
    requires Final(stages).run <= Final(more).run
    ensures Master(I, more)
  {
    hide Start, Advance, Finished, Next;
    var n := |stages| - 1;
    forall k | 0 <= k < |more|
      ensures Steps(more[k].round, more[k].run)
    {
      if k < n {
        assert more[k] == more[..n][k] == stages[k];
      }
    }
    assert Steps(stages[0].round, stages[0].run);
    assert n > 0 ==> more[0] == more[..n][0] == stages[0];
    assert Steps(Final(stages).round, Final(stages).run);
    forall k | 0 <= k < |more| - 1
      ensures Follows(more[k], more[k + 1])
    {
      assert Follows(stages[k], stages[k + 1]);
      assert more[k] == more[..n][k] == stages[k];
      if k + 1 < n {
        assert more[k + 1] == more[..n][k + 1] == stages[k + 1];
      }
    }
  }

  /** A finished round with a rejected candidate is followed by one with fewer admitted assignments. */
  lemma NextRound(I: Instance, stages: seq<Stage>) returns (more: seq<Stage>)
    requires ValidInstance(I) && Master(I, stages) && Final(stages).run != []
    requires Finished(Last(Final(stages).run)) && Failing(I.hard, Last(Final(stages).run).entries) != {}
    requires Inv(Final(stages).round, Last(Final(stages).run)) && ValidRound(Final(stages).round)
    ensures Master(I, more) && |more| == |stages| + 1 && more[..|stages|] == stages
    ensures |Final(more).run| == 1 && |Final(more).run[0].workers| == |Last(Final(stages).run).workers|
    ensures |Admitted(I.n, Final(more).round.cores)| < |Admitted(I.n, Final(stages).round.cores)|
  {
    var st := Final(stages);
    StagesKeepInv(I, stages, |stages| - 1);
    assert Steps(st.round, st.run);
    hide ValidInstance, ValidRound, Ready, Inv, Next, Start, Follows, Entails, AllTight, Advance, Failing, Finished,
         Admitted;
    var R', s' := AdvanceExists(st.round, Last(st.run));
    var st' := Stage(R', [s']);
    AdvanceKeepsWorkers(st.round, Last(st.run), R', s', I.hard);
    StageAdvances(I, st, st', I.hard);
    SmallerSet(Admitted(I.n, R'.cores), Admitted(I.n, st.round.cores));
    more := stages + [st'];
    OneMoreStage(I, stages, st', I.hard);
  }

  lemma OneMoreStage(I: Instance, stages: seq<Stage>, st': Stage, diagnoses: Db)
    requires Master(I, stages) && Final(stages).run != [] && Finished(Last(Final(stages).run)) && |st'.run| == 1
    requires Advance(Final(stages).round, Last(Final(stages).run), st'.round, st'.run[0], diagnoses)
    requires Steps(Final(stages).round, Final(stages).run)
    ensures Master(I, stages + [st'])
  {
    AdvanceKeepsStride(Final(stages).round, Last(Final(stages).run), st'.round, st'.run[0], diagnoses);
    OneFollows(Final(stages), st', diagnoses);
    OneStepless(st');
    hide Start, Advance, Finished, Next, Follows, Steps;
    AppendedFollows(stages, st');
    var more := stages + [st'];
    assert forall k | 0 <= k < |stages| :: more[k] == stages[k];
  }

  lemma AppendedFollows(stages: seq<Stage>, st': Stage)
    requires stages != [] && Follows(Final(stages), st')
    requires forall k | 0 <= k < |stages| - 1 :: Follows(stages[k], stages[k + 1])
    ensures var more := stages + [st']; forall k | 0 <= k < |more| - 1 :: Follows(more[k], more[k + 1])
  {
    hide Follows;
    var more := stages + [st'];
    forall k | 0 <= k < |more| - 1
      ensures Follows(more[k], more[k + 1])
    {
      if k < |stages| - 1 {
        assert Follows(stages[k], stages[k + 1]);
      }
    }
  }

  lemma OneFollows(st: Stage, st': Stage, diagnoses: Db)
    requires st.run != [] && |st'.run| == 1 && Finished(Last(st.run))
    requires Advance(st.round, Last(st.run), st'.round, st'.run[0], diagnoses)
    ensures Follows(st, st')
  {
    hide Advance, Finished;
  }

  lemma OneStepless(st: Stage)
    requires |st.run| == 1 && st.round.stride >= 1.0
    ensures Steps(st.round, st.run)
  {
  }

  lemma AdvanceKeepsStride(R: Round, s: State, R': Round, s': State, diagnoses: Db)
    requires Advance(R, s, R', s', diagnoses)
    ensures R'.stride == R.stride
  {
  }

  /** Whatever the loop has done so far, it can end with a finished round without rejected candidates. */
  lemma {:induction false} CanComplete(I: Instance, stages: seq<Stage>) returns (whole: seq<Stage>)
    requires ValidInstance(I) && Master(I, stages) && Final(stages).run != [] && Final(stages).run[0].workers != []
    ensures Master(I, whole) && Continues(stages, whole) && Final(whole).run != []
    ensures Complete(I, Last(Final(whole).run)) && Finished(Last(Final(whole).run))
    decreases |Admitted(I.n, Final(stages).round.cores)|
  {
    hide ValidInstance, Master, ValidRound, Inv, Finished, Progress.AllExited, Failing, Admitted;
    whole := FinishRound(I, stages);
    if Failing(I.hard, Last(Final(whole).run).entries) != {} {
      var more := NextRound(I, whole);
      var rest := CanComplete(I, more);
      StillContinues(stages, whole, more, rest);
      whole := rest;
    }
  }

  lemma StillContinues(stages: seq<Stage>, whole: seq<Stage>, more: seq<Stage>, rest: seq<Stage>)
    requires stages != [] && Continues(stages, whole) && |whole| == |stages|
    requires |more| == |whole| + 1 && more[..|whole|] == whole && Continues(more, rest)
    ensures Continues(stages, rest)
  {
    var n := |stages| - 1;
    assert rest[..|whole|] == more[..|whole|];
    assert rest[..n] == rest[..|whole|][..n] && rest[n] == rest[..|whole|][n];
  }

  lemma {:induction false} WorkersKept(I: Instance, stages: seq<Stage>, k: nat)
    requires Master(I, stages) && k < |stages| && |stages[0].run| > 0
    ensures |stages[k].run| > 0 && |stages[k].run[0].workers| == |stages[0].run[0].workers|
  {
    hide Start, Next;
    if k > 0 {
      WorkersKept(I, stages, k - 1);
      var st, st' := stages[k - 1], stages[k];
      assert Steps(st.round, st.run) && Follows(stages[k - 1], stages[k - 1 + 1]);
      var diagnoses :| Advance(st.round, Last(st.run), st'.round, st'.run[0], diagnoses);
      StepsKeepWorkers(st.round, st.run, |st.run| - 1);
      AdvanceKeepsWorkers(st.round, Last(st.run), st'.round, st'.run[0], diagnoses);
    }
  }

  lemma AdvanceKeepsWorkers(R: Round, s: State, R': Round, s': State, diagnoses: Db)
    requires Advance(R, s, R', s', diagnoses)
    ensures |s'.workers| == |s.workers|
  {
  }

  lemma {:induction false} StepsKeepWorkers(R: Round, run: seq<State>, k: nat)
    requires Steps(R, run) && k < |run|
    ensures |run[k].workers| == |run[0].workers|
  {
    hide Step;
    if k > 0 {
      StepsKeepWorkers(R, run, k - 1);
      assert Next(R, run[k - 1], run[k - 1 + 1]);
      var i, act :| 0 <= i < |run[k - 1].workers| && Step(R, run[k - 1], i, act, run[k]);
      Progress.OneWorkerMoves(R, run[k - 1], i, act, run[k]);
    }
  }

  /** From every state that the loop reaches with at least one worker, it can end with all workers gone
      and no candidate rejected; and then, if all logged blocks are tight, it has the Pareto front. */
  lemma EveryLoopCanComplete(I: Instance, stages: seq<Stage>) returns (whole: seq<Stage>)
    requires ValidInstance(I) && Master(I, stages) && stages[0].run != [] && stages[0].run[0].workers != []
    ensures Master(I, whole) && Continues(stages, whole) && Final(whole).run != []
    ensures Complete(I, Last(Final(whole).run))
    ensures AllTight(I, Last(Final(whole).run).updates) ==>
        Final(whole).round.accepted + Points(Last(Final(whole).run).entries) == ParetoFront(FeasiblePoints(Whole(I)))
  {
    WorkersKept(I, stages, |stages| - 1);
    hide ValidInstance, Master, Finished, Progress.AllExited, Failing, AllTight, Whole, FeasiblePoints, ParetoFront,
         Points;
    whole := CanComplete(I, stages);
    ExactUnlessLoose(I, whole, |whole| - 1);
  }
}
