# Multi-objective Pseudo-Boolean optimization: a verified model

This project models the search engines and the rewriting passes of a multi-objective
Pseudo-Boolean / MaxSAT solver and proves what each of them promises. A search looks for the
Pareto front of a formula: the objective points of its models that no other model's point
dominates. All searches work around a SAT oracle, and the parallel ones around shared archives,
work lists and logs; the rewriting passes must not change the value of any objective or the
solutions of any constraint.

`dafny verify dfyconfig.toml` checks everything.

## How the files fit together

* `Pareto`, `Cnf`, `Encoding`, `Archive`, `WaitingList`, `ParallelMO`, `Fences`: points and fronts;
  clauses, pseudo-Boolean sums and the oracle; the order encoding and the clauses and assumptions
  built from it; the archive of solutions; the stack of fences; what all parallel searches share;
  how a core raises a fence. `FenceQueue` is the work list of the parallel fence searches.
* `PMinimal`, `UnsatSat`, `SlideDrill`, `HittingSets`: the sequential searches, as classes whose methods
  update the fields the source updates. `ConflictShunt` is a master that calls the drill-and-slide search
  as a server with a conflict budget and takes over its solutions.
* `Freezing`, `Slices`, `Relaxations`, `SliceBlocks`: what both hitting-set searches rest on. Which literals
  are kept false; the sums and root literals of a slice of an objective; the formula reduced to the cores
  with sliced objectives, and what its candidates say about the formula; block clauses made from a slice.
  `SliceLoss` and `Doubles` are concrete instances on which the hitting-set loop goes wrong. In
  `HittingSets` the datatype `Store` is the optimizer's solver state, `Relaxation` its view of the formula.
* `ParPMinimal` (with `LiteralPools`), `ParUnsatSat`, `ParSlideDrill`, `ParHarvest`: the parallel searches, as
  step relations over any number of workers. One step is what a worker does between two critical
  sections or oracle calls, so every interleaving, every budget outcome, every oracle answer and
  every choice of shared clauses is a run. `ParHittingSets` chains rounds of `ParHarvest` to runs of
  the whole hitting-set loop. `ParPMinimalProgress`, `ParUnsatSatProgress`, `ParSlideDrillProgress`,
  `ParHarvestProgress` and `ParHittingSetsProgress` show for each of them that no reachable state is
  stuck and that every run can go on to its end.
* `Oll`, `Bmo`, `Mcs` (with `MaxSat`): single-objective algorithms.
* `Factorization`, `PbFunction`, `Stratification`, `PbConstraint`: rewriting of objectives and
  constraints.

## What is assumed

* The SAT solver answers with a model of its database and the assumptions, with a conflict made of
  negated assumptions that the database entails, or, only when it has a budget, with nothing; a ghost
  counter says how often that was. A search that another thread can ask to stop has a constant for it.
  `Cnf.Solver` and `Bmo.CardSolver` are reference oracles of this kind; searches use only their
  contracts. Learnt clauses are arbitrary consequences of a worker's database.
* `Encoding.Valid`: per objective the keys increase strictly, index 0 is a sentinel, the literal of a
  key says "objective < key" in every model of the hard clauses, and every value plus one is a key.
  The literal of an objective-root variable belongs to one objective (`Fences.OwnRoots`).
* `Relaxations.ValidInstance`, for the hitting-set searches: each objective has one term for each variable,
  the keys of its complete encoding are exactly its sums plus one, the root variables lie beyond the
  variables of the formula, and every assignment of those variables extends to a model of the encoding.
  No variable occurs in both polarities.
* Integers are mathematical.

## What turned out false, and when it holds

* `operator==` of objective functions multiplies by the left factor twice. It means "equal up to a
  constant" if the left factor is not zero; a function that was moved from has factor zero and matches
  everything (`PbFunction.MatchesIffSame`, `PbFunction.ZeroFactorMatchesAnything`).
* `findNextMCS` goes on after an unsatisfiable first call, because the `exit` there is commented out,
  and records all soft clauses. What it records is a new minimal correction set exactly when the first
  call finds a model (`Mcs.Search.FindNextMcs`, `Mcs.ContradictionHasNoMcs`).
* `computeCostModel` with a weight also counts empty soft clauses of other weights; the counted cost is
  the cost of the level exactly when those cost nothing (`Bmo.CountedIsLevel`).
* With such clauses, multilevel optimization reports an upper bound that is too large by exactly what the
  levels count too much, which is nothing if and only if every level is counted right
  (`Bmo.Search.BmoSearch`, `Bmo.ExactIffCountedRight`). It answers, with an optimal model, if and only if no
  level is stuck: on each level the surplus is nothing, or less than the weight while every model within the
  least counts of the levels before falsifies a clause of the level. Otherwise the encoder's assertion fails or
  the bound stops tightening. An instance whose models all cost 3 ends with the bound 4
  (`Bmo.EmptyCountsTwice`, `Bmo.EmptyRaisesBound`).
* The hitting-set optimizer never freezes, and never puts into its slice, a variable that occurs in both
  polarities until a core names it; its sliced objectives stand for the objectives from the start exactly
  when there is no such variable (`Freezing.EmptySliceIffNoDoubles`). With objectives 2x + (not z) and
  2z + (not x) and no hard clauses, the candidate (2, 2) passes the check although (1, 1) is feasible
  (`Doubles.DoublesAcceptTheWorse`).
* `blockStep` of the hitting-set optimizer builds block clauses from the keys of the current slice. Such a
  clause always blocks what the point dominates (`SliceBlocks.SliceClauseBites`), but after a later thaw it
  may block more. All slices block exactly the dominated regions if and only if in every objective all
  positive weights are equal (`SliceBlocks.ExactIffUniform`); then both hitting-set loops are exact
  (`HittingSets.Search.Run`, `ParHittingSets.ParallelHittingSetsIsExact`). With objectives
  heavy * a + light * b and other * c, light < heavy, and hard clauses (a or b), (a or c), accepting
  (heavy, 0) before b is thawed makes the loop end without (light, other), which is on the front, unless
  that happens to be the point of the first solution (`SliceLoss.UnequalWeightsLosePoint`). Whatever the
  weights, the loop ends, with mutually non-dominated feasible points, and any run whose blocks are all
  tight, that is, the clauses that the complete objectives would give, is exact.
* `search_MO` of the drill-and-slide search reports an optimum also when its budget ran out. In all runs what
  it reports is the front if there is no conflict limit or the first solution covers everything feasible
  (`SlideDrill.Search.SearchMO`), and only then: a budget that runs out at the first call leaves the first
  solution alone (`SlideDrill.BudgetAtOnce`). For the objective x without hard clauses and x true in the first
  solution that is (1) instead of (0) (`SlideDrill.BudgetLosesFront`).
* As a server, the drill-and-slide search answers unsatisfiable, which is always wrong, exactly when the call
  that finishes the search starts with an empty archive and everything feasible covered
  (`SlideDrill.Search.SearchAgain`). Its master does not take that answer over (`ConflictShunt.Master.SearchMO`).
* An objective that no key of which is small enough is left unbounded by `assumeDominatingRegion`; the
  assumption is exact if and only if some key is (`Encoding.BoundIsExactIffKeyed`). An objective that is
  always 1, with the only key 2, is not bounded by the fence 0 (`Encoding.NothingAssumed`).

## Model

| member | source | states |
|---|---|---|
| Pareto.AntichainCoverIsTheFront | MaxSAT.cc:736-763 | a mutually non-dominated set of feasible points that covers every feasible point is the Pareto front; `pushSafe` archives have this form |
| Encoding.EvalToIndex | algorithms/Alg_PBtoCNF.cc:1705-1719 | each index is the last one up to which all real keys are at most the coordinate plus one |
| Encoding.BlockMeaning | algorithms/Alg_PBtoCNF.cc:449-491 | in every hard model, the block clause of y holds exactly when y does not weakly dominate the model's point |
| Encoding.BelowMeaning | algorithms/Alg_PBtoCNF.cc:1660-1680 | for a fence reached by keys, the assumptions hold exactly for the models whose point dominates it |
| Encoding.BelowComplete | algorithms/Alg_PBtoCNF.cc:1660-1680 | for any fence, the assumptions exclude no model whose point dominates it |
| Encoding.BoundIsExactIffKeyed | algorithms/Alg_PBtoCNF.cc:1660-1680 | one objective's assumption bounds it exactly if and only if some key is at most the bound plus one |
| Encoding.NothingAssumed | algorithms/Alg_PBtoCNF.cc:1660-1680 | an encoded objective and a fence below its keys for which nothing is assumed although no model's point dominates the fence |
| Encoding.GuardMeaning | algorithms/Alg_SlideDrillMO.cc:346-363 | the guarded clause holds exactly when the guard holds or the model's point does not dominate y |
| Encoding.BlockDominatedRegion | algorithms/Alg_PBtoCNF.cc:472-491 | the loops add exactly the block clause |
| Encoding.AssumeDominatingRegion | algorithms/Alg_PBtoCNF.cc:1660-1680 | the loop pushes exactly the assumptions of the fence |
| Encoding.AssumeIncomparableRegion | algorithms/Alg_SlideDrillMO.cc:346-363 | the loop adds exactly the guarded clause |
| Archive.Solution.PushSafe | MaxSAT.cc:736-763 | strictly dominated entries go; the model enters exactly when no entry weakly dominates it |
| Archive.PushedKeepsFront | MaxSAT.cc:736-763 | adding an undominated point keeps the archive an antichain that covers all it covered |
| Archive.BarredChangesNothing | MaxSAT.cc:736-763 | a point that the archive dominates removes nothing |
| Archive.Dominator | Pareto.cc:8-21 | the result is the greatest lower bound of the archive's points |
| Archive.FinalFront | MaxSAT.cc:736-763 | once the found points cover everything feasible, the archive is exactly the Pareto front |
| WaitingList.Stack.InsertAndPrune | waiting_list/waiting_list.h:130-156 | the stack becomes what the pruning function says, and the fence is remembered as seen |
| WaitingList.PrunedKeepsAbove | waiting_list/waiting_list.h:130-156 | pruning replaces a pending fence only by a larger one |
| PMinimal.LastIsOptimal | algorithms/Alg_PMinimalMO.cc:168-209 | when the region that dominates the last point is refuted, that point is Pareto-optimal |
| PMinimal.Search.Accept | algorithms/Alg_PMinimalMO.cc:147-160 | every model found is a new feasible point that nothing found before dominates |
| PMinimal.Search.Descend | algorithms/Alg_PMinimalMO.cc:131-184 | following models below the last one ends with a Pareto-optimal point, and no other point found on the way is one; it ends without only when the solver gave up too often |
| PMinimal.Search.Run | algorithms/Alg_PMinimalMO.cc:91-209 | unless the solver gave up more often than the search has patience for, there is an answer: the archive and the points reported optimal are the Pareto front, or nothing is feasible; satisfiable calls number at most the feasible points |
| Fences.ExtendUL | algorithms/Alg_ParUnsatSatMO.cc:233-255 | popping the core raises exactly the named objectives to their next key, each once |
| Fences.GenerateExpansionPoints | algorithms/Alg_ParUnsatSatMO.cc:202-231 | the new fences are the expansions, in the order of the objectives: for a valid encoding one for each objective that the core names and that has a larger key, and each rises as little as gets it past another key and a stride away or to the maximum |
| Fences.ExpansionsAreLeast | algorithms/Alg_ParUnsatSatMO.cc:202-231 | each expansion has the least coordinate within the maximum that passes another key and reaches the stretched value or the maximum; exactly the named objectives with a larger key have one |
| Fences.UncoveredPointExtends | algorithms/Alg_ParUnsatSatMO.cc:202-255 | a core of a fence names an objective in which any uncovered point exceeds the fence, and that objective can rise |
| Fences.ExpansionsRaise | algorithms/Alg_ParUnsatSatMO.cc:202-231 | every expansion strictly raises one coordinate within its maximum |
| UnsatSat.RefutedFenceIsExact | algorithms/Alg_UnsatSatBudgetMO.cc:79-152 | after a refuted harvest the archive below the fence is exactly the Pareto front below the fence |
| UnsatSat.Search.Harvest | algorithms/Alg_UnsatSatBudgetMO.cc:79-147 | the harvest, whose calls have no budget, ends with a valid core and an exact archive below the fence |
| UnsatSat.Search.OptimizeCore | algorithms/Alg_UnsatSatBudgetMO.cc:222-291 | shrinking ends with a valid core inside the first one; run to its end, no literal of it can be dropped for the database it started from, and it stops before only on request or when a budgeted call gave up |
| UnsatSat.Search.ExtendUL | algorithms/Alg_UnsatSatBudgetMO.cc:180-219 | exactly the objectives that the shrunk core names and that have a larger key rise, each to one below its next key; a false result means the archive is the whole Pareto front |
| UnsatSat.Search.RootedSearch | algorithms/Alg_UnsatSatBudgetMO.cc:79-152 | harvest and extension end, with the whole Pareto front |
| UnsatSat.Search.Run | algorithms/Alg_UnsatSatBudgetMO.cc:154-178 | the search returns true only with the Pareto front, reports unsatisfiable only without feasible points, and neither stops nor fails unless it was asked to stop or something outside can interrupt it |
| UnsatSat.Search.Consolidate | algorithms/Alg_PBtoCNF.cc:1625-1628 | consolidating the first solution changes nothing once the archive covers everything feasible |
| SlideDrill.GuardExtension | algorithms/Alg_SlideDrillMO.cc:255-324 | an uncovered model outside the finds of one slide extends to the database with only that slide's guards false |
| SlideDrill.RefutationCovers | algorithms/Alg_SlideDrillMO.cc:62-122 | a refutation below a point with its guards covers all that the point still owns |
| SlideDrill.RecordKeepsInv | algorithms/Alg_SlideDrillMO.cc:273-305 | recording a find keeps the coverage invariant: what the cell gives up, the find owns |
| SlideDrill.RefutedKeepsInv | algorithms/Alg_SlideDrillMO.cc:84-96 | dropping a refuted point keeps the coverage invariant, and an empty core means everything is covered |
| SlideDrill.FinishKeepsInv | algorithms/Alg_SlideDrillMO.cc:340-343 | finalizing and forgetting a slide keeps the coverage invariant |
| SlideDrill.UnpopKeepsInv | algorithms/Alg_SlideDrillMO.cc:110-116 | giving a point back on an exhausted budget keeps the coverage invariant |
| SlideDrill.EmptyListCovers | algorithms/Alg_SlideDrillMO.cc:31-58 | with an empty waiting list everything feasible is covered |
| SlideDrill.Search.Begin | algorithms/Alg_SlideDrillMO.cc:4-14 | blocking the first solution and inserting the upper bounds leaves a search that can be resumed |
| SlideDrill.Search.Drill | algorithms/Alg_SlideDrillMO.cc:62-122 | drilling leaves a held point with a model below it, or a resumable state after a call that gave up, or everything covered |
| SlideDrill.Search.Slide | algorithms/Alg_SlideDrillMO.cc:255-345 | sliding leaves a resumable state with strictly more finds, also when the budget runs out, which it only does by a call that gave up |
| SlideDrill.Search.Run | algorithms/Alg_SlideDrillMO.cc:31-58 | the search ends; it stops only when asked to from outside, an exhausted budget is a call that gave up, and otherwise everything is covered |
| SlideDrill.Search.SearchMO | algorithms/Alg_SlideDrillMO.cc:4-30 | a search that nobody interrupts reports an optimum, and leaves exactly the Pareto front without a conflict limit, when no call gave up, and when the first solution covers everything |
| SlideDrill.BudgetAtOnce | algorithms/Alg_SlideDrillMO.cc:4-30 | a budget that runs out at the first call leaves a resumable state with the first solution alone, which is the Pareto front exactly when it covers everything feasible |
| SlideDrill.BudgetLosesFront | algorithms/Alg_SlideDrillMO.cc:4-30 | an encoded instance with two points for which the reported optimum is not the front |
| SlideDrill.Search.SearchAgain | algorithms/Alg_SlideDrillMO.cc:410-431 | a call of the server ends resumable; a call that finishes the search covers everything feasible with all finds of all calls, and answers unsatisfiable exactly when it began with an empty archive and nothing uncovered |
| ConflictShunt.HandedOver | algorithms/Alg_ConflictShuntMO.cc:10-22 | a master's archive with all entries of a server's archive covers everything that the server ever found |
| ConflictShunt.Master.IncorporateApprox | algorithms/Alg_ConflictShuntMO.cc:10-22 | the server's archive is emptied into the master's; what was handed over before and now stays covered, and the server can resume |
| ConflictShunt.Master.SearchMO | algorithms/Alg_ConflictShuntMO.cc:54-128 | after any number of calls each of which gave up once, a search that nobody interrupts leaves exactly the Pareto front in the master's archive, and never answers unsatisfiable |
| ParallelMO.SoundLearnt | algorithms/Alg_ParallelMO.cc:701-722 | a clause learnt by any worker with a sound database may be added to any other |
| ParallelMO.SoundBlocks | algorithms/Alg_ParallelMO.cc:762-806 | block clauses of covered points keep a database sound |
| ParallelMO.RefutedRegionIsCovered | algorithms/Alg_ParallelMO.cc:724-760 | a refuted region contains no uncovered feasible point |
| ParPMinimal.StepKeepsInv | algorithms/Alg_ParPMinimalMO.cc:194-247 | every step of every worker keeps all databases entailed by formula and archived blocks |
| ParPMinimal.ClausesAreEntailed | algorithms/Alg_ParPMinimalMO.cc:205-246 | in every run, every clause of every worker holds in all models whose point the archive does not cover |
| ParPMinimal.RefutationMeansExact | algorithms/Alg_ParPMinimalMO.cc:205-246 | in every run, the first unassumed refutation by any worker proves the archive covers everything and has exactly the Pareto front |
| ParPMinimalProgress.NeverStuck | algorithms/Alg_ParPMinimalMO.cc:110-247 | in no state of any run is a worker that is not done without a step of its own, other than sharing, that changes the state |
| ParPMinimalProgress.EveryRunCanFinish | algorithms/Alg_ParPMinimalMO.cc:110-247 | every state of a run with a worker has a continuation in which all workers are done, and then the archive has exactly the Pareto front |
| LiteralPools.Pools.SwapRemove | algorithms/Alg_ParPMinimalMO.cc:144-155 | swap and pop remove exactly one literal and keep the position map the inverse of the pool |
| LiteralPools.Pools.RemoveCore | algorithms/Alg_ParPMinimalMO.cc:138-160 | exactly the literals of the core leave all pools |
| FenceQueue.MoveKeepsQueue | algorithms/Alg_ParUnsatSatMO.cc:74-110 | no critical section loses a fence: whatever was ever inserted lies below a pending or explored fence, or the search is done |
| FenceQueue.QuietIsDone | algorithms/Alg_ParUnsatSatMO.cc:83-107 | an empty list without active workers means that the search is done and nobody explores |
| FenceQueue.MoveWeighs | algorithms/Alg_ParUnsatSatMO.cc:202-231 | no move raises the potential of pending and explored fences, and completing a fence lowers it |
| FenceQueue.CompletedIsBounded | algorithms/Alg_ParUnsatSatMO.cc:74-110 | no run completes more fences than its first work list weighs |
| ParUnsatSat.StepMoves | algorithms/Alg_ParUnsatSatMO.cc:74-183 | every step of the search is a move of the work list |
| ParUnsatSat.StepKeepsInv | algorithms/Alg_ParUnsatSatMO.cc:74-183 | every step keeps the invariant: sound databases, and a work list that is done only when everything is covered |
| ParUnsatSat.QuietMeansCovered | algorithms/Alg_ParUnsatSatMO.cc:83-107 | an empty list without active workers means that everything feasible is covered |
| ParUnsatSat.CoreGuidedIsExact | algorithms/Alg_ParUnsatSatMO.cc:74-110 | in every run with any non-negative stride, when a worker has left its loop the archive has exactly the Pareto front |
| ParUnsatSat.FencesAreBounded | algorithms/Alg_ParUnsatSatMO.cc:74-110 | no run completes more fences than the weight of the root fence |
| ParUnsatSatProgress.NeverStuck | algorithms/Alg_ParUnsatSatMO.cc:74-183 | in no state of any run has somebody not left while nobody can move on by more than sharing |
| ParUnsatSatProgress.EveryRunCanFinish | algorithms/Alg_ParUnsatSatMO.cc:74-183 | every state of a run with a worker has a continuation in which all workers have left, and then the archive has exactly the Pareto front |
| ParSlideDrill.StepKeepsInv | algorithms/Alg_ParSlideDrillMO.cc:29-259 | every step of every interleaving keeps the invariant: log, replayed prefixes, guards, unique cells, sound databases and coverage |
| ParSlideDrill.GuardExtension | algorithms/Alg_ParSlideDrillMO.cc:260-276 | an uncovered model outside a cell's finds extends to all databases with only that cell's guards false |
| ParSlideDrill.RefutationCovers | algorithms/Alg_ParSlideDrillMO.cc:91-140 | a refutation under a cell's assumptions covers all that the cell still owns |
| ParSlideDrill.LogIsReplayed | algorithms/Alg_ParSlideDrillMO.cc:285-337 | in every run each worker holds the clauses of a prefix of the log, and finalizations follow their definitions |
| ParSlideDrill.GuardsRestrictOnlyAssumers | algorithms/Alg_ParSlideDrillMO.cc:302-337 | in every run a guard takes a point away from a worker only while it assumes the negated guard |
| ParSlideDrill.UncoveredIsSomebodysWork | algorithms/Alg_ParSlideDrillMO.cc:143-259 | in every run each uncovered feasible point lies below a cell that still owns it or below an unpublished find |
| ParSlideDrill.SlideDrillIsExact | algorithms/Alg_ParSlideDrillMO.cc:36-86 | in every run, when a worker has left its loop the archive and the first solution have exactly the Pareto front |
| ParSlideDrill.FindsAreBounded | algorithms/Alg_ParSlideDrillMO.cc:143-259 | no run records more finds than there are feasible points for each worker |
| ParSlideDrillProgress.NeverStuck | algorithms/Alg_ParSlideDrillMO.cc:29-259 | in no state of any run has somebody not left while nobody can move on by more than sharing or replaying |
| ParSlideDrillProgress.EveryRunCanFinish | algorithms/Alg_ParSlideDrillMO.cc:29-259 | every state of a run with a worker has a continuation in which all workers have left, and then the archive and the first solution have exactly the Pareto front |
| Freezing.Build | algorithms/Alg_UnsatSatIncHSMO.h:17-36 | exactly the literals that occur in some objective and whose negation occurs in none are frozen |
| Freezing.Thaw | algorithms/Alg_UnsatSatIncHSMO.cc:198-207 | the core's literals leave the frozen set; the slice takes them in, with the negations of those that were not frozen |
| Freezing.ThawKeepsFrozen | algorithms/Alg_UnsatSatIncHSMO.cc:198-214 | after any thaw no core asks for a frozen literal, and every single-polarity literal is frozen or in the slice |
| Freezing.FreezingLosesNothing | algorithms/Alg_UnsatSatIncHSMO.h:17-36 | every assignment of the cores has one with all frozen literals false that is no worse in any objective |
| Freezing.SliceIsExact | algorithms/Alg_UnsatSatIncHSMO.cc:198-214 | with the frozen literals false, sliced and complete objectives agree when no variable occurs in both polarities |
| Freezing.EmptySliceIffNoDoubles | algorithms/Alg_UnsatSatIncHSMO.h:17-36 | right after `build` they agree on all assignments if and only if no variable occurs in both polarities |
| Slices.AllSums | encodings/RootLits.cc:6-17 | the recursion adds to the given sums every sum of a sub-collection of the terms |
| Slices.GrownSums | encodings/RootLits.cc:45-86 | a slice with more literals has the sums of the old slice with those of the new terms on top |
| Slices.RootLitsSliced.Thaw | encodings/RootLits.cc:45-86 | after any thaws the slice holds the terms of all thawed literals, and its root literals are the complete literals of exactly its sums |
| Relaxations.SliceEncodes | encodings/RootLits.cc:45-86 | with the frozen literals false, the root literals of a slice are an order encoding of the objective with a key for every value |
| Relaxations.RelaxationIsBelow | algorithms/Alg_HittingSetsMO.cc:45-160 | every feasible point has a point of the relaxation that is no worse |
| Relaxations.CandidateIsOptimal | algorithms/Alg_HittingSetsMO.cc:82-135 | a candidate that satisfies the formula is Pareto-optimal |
| Relaxations.AllAcceptedIsTheFront | algorithms/Alg_MasterMO.h:61-82 | with every candidate accepted, the accepted points are the Pareto front |
| Relaxations.RestartIsBelow | algorithms/Alg_UnsatSatIncHSMO.cc:3-31 | the componentwise minimum of the rejected points bounds all that later relaxations leave open |
| SliceBlocks.SliceClauseBites | algorithms/Alg_UnsatSatIncHSMO.cc:141-153 | the block clause of any slice rejects every model whose point its own point dominates |
| SliceBlocks.ExactIffUniform | algorithms/Alg_UnsatSatIncHSMO.cc:141-153 | the block clauses of all slices and points reject nothing else if and only if in every objective all positive weights are equal |
| SliceBlocks.UniformIsNeverLoose | algorithms/Alg_UnsatSatIncHSMO.cc:141-153 | with equal weights a guarded block of any slice is the one of the complete objectives |
| SliceLoss.UnequalWeightsLosePoint | algorithms/Alg_UnsatSatIncHSMO.cc:141-182 | for all unequal weights an instance, candidates and cores after which the optimizer's database has no model although a point of the front is missing |
| Doubles.DoublesAcceptTheWorse | algorithms/Alg_UnsatSatIncHSMO.h:17-36 | an instance with variables in both polarities whose first candidate satisfies the formula and is dominated by a feasible point |
| HittingSets.BuildWorkFormula | algorithms/Alg_UnsatSatIncHSMO.h:39-54 | the search starts with an empty slice of each objective, in objects of their own |
| HittingSets.FencePartIsSound | algorithms/Alg_UnsatSatIncHSMO.cc:33-139 | with tight blocks, a core without its frozen and soft-block literals still holds in every open model of the relaxation |
| HittingSets.Optimizer.BlockStep | algorithms/Alg_UnsatSatIncHSMO.cc:141-153 | a point gets one guarded block clause, made from the slice and reused later |
| HittingSets.Optimizer.ExtendUL | algorithms/Alg_UnsatSatIncHSMO.cc:223-228 | exactly the objectives that the conflict names and whose slice has a larger key rise, each to one below its next key; a false result means that with tight blocks everything is covered |
| HittingSets.Optimizer.RootedSearch | algorithms/Alg_UnsatSatIncHSMO.cc:33-139 | the harvests end, and if all blocks are tight, accepted points and candidates cover the relaxation |
| HittingSets.Optimizer.CheckSols | algorithms/Alg_UnsatSatIncHSMO.cc:155-182 | rejected candidates become the lower bounds, the others are blocked for good |
| HittingSets.Optimizer.IncrementFormula | algorithms/Alg_UnsatSatIncHSMO.cc:155-214 | new cores are added, their literals thawed in every slice, and the search can go on |
| HittingSets.Search.Recycle | algorithms/Alg_HittingSetsMO.cc:82-135 | exactly the candidates that satisfy the formula are archived; exactly the others are marked, and each of them is excluded by a core; with tight blocks the archived ones are Pareto-optimal |
| HittingSets.Search.Run | algorithms/Alg_MasterMO.h:61-82 | the loop always ends with mutually non-dominated feasible points that cover the first solution; they are the Pareto front when all positive weights of each objective are equal, and whenever all blocks made were tight |
| ParHarvest.BlockingClause | algorithms/Alg_ParUnsatSatIncHSMO.cc:167-181 | the loops build the guarded block clause of the slice |
| ParHarvest.ExpansionPoints | algorithms/Alg_ParUnsatSatIncHSMO.cc:250-285 | the new fences are the expansions of the relaxation within the last keys of the slice: one for each objective that the core names and that has a larger key, and each rises as little as gets it past another key and a stride away or to the last key |
| ParHarvest.SyncKeepsWorker | algorithms/Alg_ParUnsatSatIncHSMO.cc:136-165 | replaying the rest of the log leaves a worker with all logged blocks, and with tight blocks every open model still extends to its database |
| ParHarvest.FoundIsOpen | algorithms/Alg_ParUnsatSatIncHSMO.cc:214-248 | a model found below a fence is a feasible point that no accepted point and no candidate known at the last synchronization dominates |
| ParHarvest.PublishKeepsShared | algorithms/Alg_ParUnsatSatIncHSMO.cc:183-202 | publishing keeps the log's variables distinct, every assumed guard the block of a candidate, and the archive an antichain that covers all candidates |
| ParHarvest.RefutationIsSound | algorithms/Alg_ParUnsatSatIncHSMO.cc:214-248 | with tight blocks, a worker's core without its frozen and guard literals holds in every open model of the relaxation |
| ParHarvest.StepKeepsInv | algorithms/Alg_ParUnsatSatIncHSMO.cc:93-285 | every step of every worker keeps the invariant of log, archive, databases and work list |
| ParHarvest.RoundIsComplete | algorithms/Alg_ParUnsatSatIncHSMO.cc:93-134 | in every run of a round, when a worker has left its loop nobody explores, and if all logged blocks are tight, accepted points and candidates cover the relaxation |
| ParHarvest.FencesAreBounded | algorithms/Alg_ParUnsatSatIncHSMO.cc:214-285 | no round completes more fences than its first fence weighs |
| ParHarvestProgress.NeverStuck | algorithms/Alg_ParUnsatSatIncHSMO.cc:93-285 | in no state of a round has somebody not left while nobody can move on by more than sharing |
| ParHarvestProgress.EveryRoundCanFinish | algorithms/Alg_ParUnsatSatIncHSMO.cc:93-285 | every state of a round with a worker has a continuation in which all workers have left, and then, if all logged blocks are tight, accepted points and candidates cover the relaxation |
| ParHittingSets.AdvanceIsReady | algorithms/Alg_ParUnsatSatIncHSMO.cc:287-306 | new cores, hardened blocks and the final synchronization leave every worker ready for the next round, and sound when all blocks are tight |
| ParHittingSets.ExactUnlessLoose | algorithms/Alg_ParHittingSetsMO.cc:226-260 | in every run of the loop, as long as all logged blocks are tight, accepted points are Pareto-optimal, and a finished round without rejection completes the front |
| ParHittingSets.ParallelHittingSetsIsExact | algorithms/Alg_ParHittingSetsMO.cc:226-260 | when all positive weights of each objective are equal, in every run accepted points are Pareto-optimal, and a finished round without rejection completes the front |
| ParHittingSets.RoundsAreBounded | algorithms/Alg_ParHittingSetsMO.cc:189-215 | every further round excludes an assignment, so no run has more rounds than assignments |
| ParHittingSetsProgress.AdvanceExists | algorithms/Alg_ParHittingSetsMO.cc:189-215 | every state of a round with a rejected candidate can be followed by a next round |
| ParHittingSetsProgress.EveryLoopCanComplete | algorithms/Alg_ParHittingSetsMO.cc:226-260 | whatever the loop has done, it can end with all workers gone and no candidate rejected, and then, if all logged blocks are tight, it has exactly the Pareto front |
| Oll.Search.RelaxSoft | algorithms/Alg_OLL.cc:449-520 | splitting and relaxing a soft clause moves exactly the core's weight off the residual |
| Oll.Search.RelaxOutput | algorithms/Alg_OLL.cc:522-680 | raising a bound, in place or in a duplicate, moves exactly the core's weight off the residual |
| Oll.Search.BuildTotalizer | algorithms/Alg_OLL.cc:692-724 | a new totalizer with bound one carries the core's weight beyond the first falsified literal |
| Oll.Search.MinCore | algorithms/Alg_OLL.cc:403-426 | the least weight of the core's literals |
| Oll.Search.AbsorbCore | algorithms/Alg_OLL.cc:403-724 | absorbing a core raises the lower bound by the least weight of its literals, keeps lower bound plus residual equal to the original cost of every hard model, and closes exactly when the bounds meet |
| Oll.Search.TakeModel | algorithms/Alg_OLL.cc:315-401 | a model is optimal when every weight was assumed; otherwise the threshold falls to the next diverse weight |
| Oll.Search.FindNextWeight | algorithms/Alg_OLL.cc:32-51 | the largest weight in play below the given one, or 1 |
| Oll.Search.FindNextWeightDiversity | algorithms/Alg_OLL.cc:53-98 | the heuristic ends with the largest smaller weight, or after the first model the same one, that enough clauses per distinct weight reach or that all reach |
| Oll.Search.Weighted | algorithms/Alg_OLL.cc:297-757 | the loop ends, with a model of least original cost or with no model at all |
| MaxSat.CostWithout | algorithms/Alg_PBtoCNF.cc:846-950 | leaving one soft clause out lowers the cost by its weight |
| Mcs.LoopLeavesMcs | algorithms/Alg_PBtoCNF.cc:881-931 | what the loop leaves out is a minimal correction set of the original formula, in spite of all blocks, and contains no blocked one |
| Mcs.Search.FindNextMcs | algorithms/Alg_PBtoCNF.cc:846-950 | a call that does not give up records a new minimal correction set exactly when its first call finds a model, exactly when one is left; the cost is the weight left out; it gives up exactly when the solver does |
| Mcs.Search.AddMcsClause | algorithms/Alg_PBtoCNF.cc:240-255 | with one objective the recorded set is blocked, with several nothing is added |
| Mcs.ContradictionHasNoMcs | algorithms/Alg_PBtoCNF.cc:861-873 | a formula without any minimal correction set |
| Bmo.IsBMO | MaxSAT.cc:218-252 | true exactly when every weight is at least the total of all smaller ones; the weights come out once each, decreasing |
| Bmo.ComputeCostModel | MaxSAT.cc:164-198 | the counted cost is that of falsified clauses of the weight and of all empty ones |
| Bmo.CountedIsLevel | MaxSAT.cc:164-198 | the counted cost is the level's cost exactly when empty clauses of other weights weigh nothing |
| Bmo.EmptyCountsTwice | MaxSAT.cc:164-198 | a lexicographic formula with an empty clause for which the counted costs of the levels exceed the cost of every model |
| Bmo.ExactIffCountedRight | MaxSAT.cc:164-198 | the levels together count nothing too much exactly when each is counted right, and then no level is stuck |
| Bmo.EmptyRaisesBound | algorithms/Alg_LinearSU.cc:58-175 | on that formula no level is stuck, and every model's cost and what is counted too much are 4 |
| Bmo.LexicographicIsOptimal | algorithms/Alg_LinearSU.cc:58-175 | when weights are lexicographic, a model with least counts level by level has the least total cost |
| Bmo.AdmitsMore | algorithms/Alg_LinearSU.cc:395-412 | encoding one more cardinality leaves exactly the hard models within the limits |
| Bmo.Search.BmoSearch | algorithms/Alg_LinearSU.cc:58-175 | for every lexicographic formula, an optimum is a hard model of least total cost, the upper bound is its cost and what was counted too much, and with enough calls the search answers exactly when no level is stuck |
| Bmo.Search.Run | algorithms/Alg_LinearSU.cc:282-298 | when the test passes, an optimum has the least total cost, unsatisfiable means no hard model, and with enough calls there is an answer exactly when no level is stuck |
| Factorization.PrimeFactors | FormulaPB.h:443-458 | trial division yields ordered primes whose powers multiply to the number |
| Factorization.CommonExponents | FormulaPB.h:461-476 | every prime power divides all coefficients and no lowered one can be raised |
| Factorization.CommonIsGcd | FormulaPB.h:443-476 | the product of the minimum powers divides all coefficients and leaves them without a common divisor |
| Factorization.PrimeDividesFactor | FormulaPB.h:443-476 | Euclid's lemma, on which trial division rests |
| PbFunction.Objective.Factorize | FormulaPB.h:434-489 | coefficients are divided in place by exactly their gcd, which the factor takes in |
| PbFunction.FactorizedMeaning | FormulaPB.h:434-512 | factorizing changes the value of no assignment and leaves coefficients with gcd 1 |
| PbFunction.NormalizeInverts | FormulaPB.h:518-519 | normalize undoes denormalize; the converse holds exactly on the values the function takes |
| PbFunction.Equal | FormulaPB.h:401-431 | the term map compares all coefficients scaled by the left factor |
| PbFunction.MatchesIffSame | FormulaPB.h:401-431 | equality means differing by a constant on all assignments when the left factor is not zero; otherwise it always holds |
| PbFunction.ZeroFactorMatchesAnything | FormulaPB.h:401-431 | two functions that match although they do not differ by a constant |
| PbFunction.Add | FormulaPB.cc:7-24 | the sum's value is the sum of the values on every assignment |
| Stratification.Partitioner.Head | partition.cc:58-76 | the head is the first prefix of whole groups of equal weights that holds enough literals per group, or the whole list when none does |
| Stratification.Partitioner.HeadUnitary | partition.cc:106-136 | each term of the part stands for the multiple of the head's mean below its weight, or for the mean; part and remaining list are worth what the list was worth, and the remaining list is strictly lighter |
| Stratification.RemainingIsLess | partition.cc:99-136 | with the mean as threshold, the remainders of any head weigh strictly less than the head |
| Stratification.NoneAfterLast | Converter.cc:37-44 | two rows of heads for one parameter agree: when one exhausts the list, no other is longer or leaves anything |
| Stratification.FirstRound | Converter.cc:36-44 | without a demand on groups the heads are the layers of the objective, and a list is left only when there are more weights than parts |
| Stratification.ConvertOne | Converter.cc:32-55 | with both limits, the parts and the tail of one objective add up to it, without its constant; they are the heads for the smallest parameter below 200 for which 30 suffice, or else 30 heads and a tail; with at most 30 distinct coefficients they are its layers: one part for each, the largest first, with coefficients 1, the coefficient as factor and exactly its literals |
| Stratification.Convert | Converter.cc:26-60 | the parts of all objectives add up to all objectives, without their constants; they are the parts of each objective, those of later ones first, and at most 31 for each |
| Stratification.TestAddsUp | algorithms/Alg_StratAnalysisMO.cc:19-34 | for every objective with positive coefficients the sum of the parts is accepted by `operator==` as the original |
| PbConstraint.PB.AddProduct | FormulaPB.h:126-138 | left side minus right side grows by the signed coefficient exactly when the literal holds |
| PbConstraint.PB.ChangeSign | FormulaPB.h:143-151 | in place, the constraint becomes its flipped form |
| PbConstraint.FlippedMeaning | FormulaPB.h:143-151 | flipping keeps all solutions, and flipping twice restores the constraint |
| PbConstraint.PB.IsClause | FormulaPB.h:153-171 | true exactly when the at-least form has unit weights and right side one, and only then left in that form |
| PbConstraint.PB.IsCardinality | FormulaPB.h:173-187 | true exactly when all weights are one, and only then left in the at-least form |
| PbConstraint.Formula.AddPBConstraint | MaxSATFormula.cc:197-215 | whichever list takes the constraint, exactly its solutions remain |
| PbConstraint.Formula.ParseConstraint | ParserPB.cc:259-358 | exactly the assignments that satisfy the written constraint, of any sign and sense, remain |

## Left out

- SAT solver internals and the cardinality and Pseudo-Boolean encoders: their effect is assumed as said above. In `Oll` a totalizer output is the statement "more than k inputs hold"; in `Bmo` the oracle takes cardinality constraints directly.
- Printing, statistics, timing, options, portfolio configuration, the epsilon and decay variants, hypervolume ordering, BLS, the naive search and the graph partitioning.
- Exchange of clauses and solutions between different searches of a portfolio in the sequential searches. The parallel searches model it between their own workers.
- Requests to stop and exhausted budgets: a search of `PMinimal` retries as often as its patience says before it sees such a request; the checks before its calls, which only end it earlier, are not modelled. In `HittingSets` there are no such requests, and oracle calls have no budget, so `recycleLowerBoundSet` never gives up on a candidate.
- PMinimal.Search.Run: one pass of the outer re-encoding loop; the relaxation by epsilon around it is not modelled.
- UnsatSat.Search.Harvest: the constructor leaves the budget off outside `extendUL` (algorithms/Alg_UnsatSatBudgetMO.h:41-46), so that the harvest's calls always answer; a budget that a derived class turns on there is not modelled.
- SlideDrill.Search.SearchAgain: solutions that other searches share with the server do not count for its answer.
- ConflictShunt.Master.SearchMO: a drill-and-slide server alone; alternating between two servers, which also exchange bounds, is not modelled. The number of calls is bounded by a parameter, since nothing bounds how often a budget runs out.
- HittingSets.Search.Run: no variable occurs in both polarities; `Doubles.DoublesAcceptTheWorse` shows why. With unequal weights the front is promised only for runs all of whose blocks are tight; `SliceLoss.UnequalWeightsLosePoint` shows why.
- Slices.RootLitsSliced.Thaw: the factor of the objective is 1. Before the first thaw the source's slice has no key at all; here an empty slice already has key 1, whose literal is true in every model with the frozen literals false.
- ParHittingSets.ParallelHittingSetsIsExact: instances without doubles, as for `HittingSets.Search.Run`. Candidates are checked by parallel workers in the source; here the outcome of all checks is one step, with any cores that exclude the failed candidates. The first solution, which the source adds to the answer, is weakly dominated by the front.
- HittingSets.Optimizer.BlockStep: the marks and notes that the archive keeps by identifier are kept by point.
- Bmo.Search.BmoSearch: weights are positive, and there is a soft clause, as the source asserts. The calls of the solver are bounded by a parameter, since a level that is stuck can go on forever. Of the encoder's assertions those on the bound and on an encoding to update are modelled; that it splits the bound by a modulus is not.
- Factorization.PrimeFactors: the largest coefficient is at least 2 as at its call; coefficients are positive, since a largest coefficient of zero divides by zero. The floating-point power is exact.
- Stratification.TestAddsUp: an objective without terms has no parts, and the source then reads a part that is not there.
- Oll.Search.Weighted: the unweighted variant, the same relaxation with all weights one, is not modelled. A totalizer keeps its inputs; encoding more of its outputs changes nothing.
- ParSlideDrill.SlideDrillIsExact: that every run stops is not stated, since an exhausted budget can put a cell back any number of times. What a run can find is bounded (`ParSlideDrill.FindsAreBounded`), and from every state the search can end (`ParSlideDrillProgress.EveryRunCanFinish`). That no cell is held twice is proved, not assumed.
- ParPMinimalProgress.EveryRunCanFinish: the workers that still sample go on with no sampled literals.
- WaitingList.Stack.InsertAndPrune: only the stack supports this operation; the other lists refuse it with an exception. Waiting lists are bags elsewhere, so the order of exploration is arbitrary.
- ParallelMO.SoundLearnt: which clauses are shared, and when, is up to the sharing heuristic; any entailed clause may be shared at any time. The shared archive is the set of points pushed to it.
- Raw data races, memory lifetime, 64-bit overflow, and character-level parsing; `evalToIndex` on raw arrays stops at the end of the keys.
