/** Minimal correction sets of a MaxSAT formula, one after another. */
module Mcs {
  import opened Cnf
  import opened MaxSat

  /** Leaving out the soft clauses of `u` makes the others satisfiable with the hard clauses. */
  ghost predicate Correction(f: Formula, u: set<nat>) {
    exists a: Assignment :: SatDb(f.hard, a) && Falsified(f, a) <= u
  }

  ghost predicate IsMcs(f: Formula, u: set<nat>) {
    Correction(f, u) && forall v: set<nat> | v < u :: !Correction(f, v)
  }

  /** `addMCSClause`: one of the left-out clauses must hold from now on. */
  function BlockMcs(f: Formula, u: set<nat>): Clause {
    set i | i in u :: Relax(f, i).Not()
  }

  function McsBlocks(f: Formula, us: set<set<nat>>): Db {
    set u | u in us :: BlockMcs(f, u)
  }

  /** The assumptions that force the soft clauses of `s`. */
  function Forced(f: Formula, s: set<nat>): set<Lit> {
    set i | i in s :: Relax(f, i).Not()
  }

  ghost predicate Stored(f: Formula, us: set<set<nat>>, db: Db) {
    db == f.hard + SoftClauses(f) + McsBlocks(f, us) && forall u | u in us :: u <= All(f)
  }

  /** A hard model that satisfies a clause of every blocked set. */
  ghost predicate Avoids(f: Formula, us: set<set<nat>>, a: Assignment) {
    SatDb(f.hard, a) && forall u | u in us :: !(u <= Falsified(f, a))
  }

  /** Something is left to find. */
  ghost predicate Open(f: Formula, us: set<set<nat>>) {
    exists a: Assignment :: Avoids(f, us, a)
  }

  ghost predicate Impossible(f: Formula, db: Db, s: set<nat>) {
    forall a: Assignment | SatDb(db, a) :: !AllHold(Forced(f, s), a)
  }

  /** An assignment that avoids the blocked sets is a model of the database once relaxed. */
  lemma EncodedIsModel(f: Formula, us: set<set<nat>>, db: Db, a: Assignment)
    requires Valid(f) && Stored(f, us, db) && Avoids(f, us, a)
    ensures SatDb(db, Encoded(f, a))
    ensures forall s: set<nat> | s <= All(f) && s !! Falsified(f, a) :: AllHold(Forced(f, s), Encoded(f, a))
  {
    hide SatDb, SoftClauses, McsBlocks, Encoded, Falsified, DbBelow, SatClause;
    var b := Encoded(f, a);
    forall i: nat | i < |f.softs|
      ensures f.base + i in b <==> i in Falsified(f, a)
    {
      EncodedMember(f, a, i);
    }
    EncodedAgrees(f, a);
    SatDbAgree(f.hard, a, b, f.base);
    SoftClausesHold(f, a, b);
    McsBlocksHold(f, us, a, b);
    SatUnion(f.hard, SoftClauses(f), b);
    SatUnion(f.hard + SoftClauses(f), McsBlocks(f, us), b);
    forall s: set<nat> | s <= All(f) && s !! Falsified(f, a)
      ensures AllHold(Forced(f, s), b)
    {
      ForcedHold(f, a, b, s);
    }
  }

  lemma ForcedHold(f: Formula, a: Assignment, b: Assignment, s: set<nat>)
    requires s <= All(f) && s !! Falsified(f, a) && forall i: nat | i < |f.softs| :: f.base + i in b <==>
        i in Falsified(f, a)
    ensures AllHold(Forced(f, s), b)
  {
    hide Falsified;
    forall l | l in Forced(f, s)
      ensures Holds(l, b)
    {
      var i :| i in s && l == Relax(f, i).Not();
      assert i !in Falsified(f, a);
    }
  }

  lemma McsBlocksHold(f: Formula, us: set<set<nat>>, a: Assignment, b: Assignment)
    requires Avoids(f, us, a) && forall u | u in us :: u <= All(f)
    requires forall i: nat | i < |f.softs| :: f.base + i in b <==> i in Falsified(f, a)
    ensures SatDb(McsBlocks(f, us), b)
  {
    forall c | c in McsBlocks(f, us)
      ensures SatClause(c, b)
    {
      var u :| u in us && c == BlockMcs(f, u);
      var i :| i in u && i !in Falsified(f, a);
      assert Relax(f, i).Not() in c && Holds(Relax(f, i).Not(), b);
    }
  }

  /** A model of the database satisfies the forced clauses, and avoids the blocked sets. */
  lemma ModelSatisfies(f: Formula, us: set<set<nat>>, db: Db, m: Assignment, s: set<nat>)
    requires Valid(f) && Stored(f, us, db) && SatDb(db, m) && AllHold(Forced(f, s), m) && s <= All(f)
    ensures Avoids(f, us, m) && s !! Falsified(f, m)
  {
    forall i | i in All(f) && Holds(Relax(f, i).Not(), m)
      ensures i !in Falsified(f, m)
    {
      RelaxedClauseHolds(f, db, m, i);
    }
    forall i | i in s
      ensures Holds(Relax(f, i).Not(), m)
    {
      assert Relax(f, i).Not() in Forced(f, s);
    }
    forall u | u in us
      ensures !(u <= Falsified(f, m))
    {
      assert BlockMcs(f, u) in db;
      var l :| l in BlockMcs(f, u) && Holds(l, m);
      var i :| i in u && l == Relax(f, i).Not();
    }
  }

  lemma ImpossibleGrows(f: Formula, db: Db, s: set<nat>, t: set<nat>)
    requires Impossible(f, db, s) && s <= t
    ensures Impossible(f, db, t)
  {
    assert Forced(f, s) <= Forced(f, t);
  }

  lemma ConflictIsImpossible(f: Formula, db: Db, conflict: Clause, s: set<nat>)
    requires Entails(db, conflict) && Negates(conflict, Forced(f, s))
    ensures Impossible(f, db, s)
  {
    forall a: Assignment | SatDb(db, a)
      ensures !AllHold(Forced(f, s), a)
    {
      ConflictRefutes(db, conflict, Forced(f, s), a);
    }
  }

  lemma PossibleWith(f: Formula, us: set<set<nat>>, db: Db, a: Assignment, s: set<nat>)
    requires Valid(f) && Stored(f, us, db) && Avoids(f, us, a) && s <= All(f) && s !! Falsified(f, a)
    ensures !Impossible(f, db, s)
  {
    hide SatDb, Forced, Stored, AllHold, Valid, Avoids;
    EncodedIsModel(f, us, db, a);
  }

  /** What the loop leaves is a minimal correction set of the original formula, whatever was
      blocked before, and it contains no blocked set. */
  lemma LoopLeavesMcs(f: Formula, us: set<set<nat>>, db: Db, m: Assignment, sat: set<nat>, unsat: set<nat>)
    requires Valid(f) && Stored(f, us, db) && Avoids(f, us, m) && sat !! Falsified(f, m)
    requires sat + unsat == All(f) && sat !! unsat
    requires forall i | i in unsat :: Impossible(f, db, sat + {i})
    ensures IsMcs(f, unsat) && forall u | u in us :: !(u <= unsat)
  {
    hide SatDb, Forced, Stored, AllHold, Valid, SatClause, Impossible;
    FalsifiedInRange(f, m);
    assert Falsified(f, m) <= unsat;
    forall u | u in us
      ensures !(u <= unsat)
    {
      var k :| k in u && k !in Falsified(f, m);
      if k in unsat {
        PossibleWith(f, us, db, m, sat + {k});
      }
    }
    forall v: set<nat> | v < unsat
      ensures !Correction(f, v)
    {
      if Correction(f, v) {
        var a: Assignment :| SatDb(f.hard, a) && Falsified(f, a) <= v;
        var i :| i in unsat && i !in v;
        PossibleWith(f, us, db, a, sat + {i});
      }
    }
  }

  /** With nothing open, all soft clauses together are no new minimal correction set. */
  lemma NothingNew(f: Formula, us: set<set<nat>>, u: set<nat>)
    requires !Open(f, us) && IsMcs(f, u)
    ensures exists e :: e in us && e <= u
  {
    var a: Assignment :| SatDb(f.hard, a) && Falsified(f, a) <= u;
    assert !Avoids(f, us, a);
  }

  /** Hard clauses that contradict each other have no correction set, yet the search records one. */
  lemma ContradictionHasNoMcs(u: set<nat>)
    ensures var f := Formula(1, {{}}, [Soft({Lit(0, false)}, 1)]); Valid(f) && !Open(f, {}) && !IsMcs(f, u)
  {
    var f := Formula(1, {{}}, [Soft({Lit(0, false)}, 1)]);
    forall a: Assignment
      ensures !SatDb(f.hard, a)
    {
      assert {} in f.hard && !SatClause({}, a);
    }
  }

  // ---------------------------------------------------------------- the search

  class Search {
    const f: Formula
    /** With several objectives no clause is added for a found set. */
    const single: bool
    const solver: Solver
    var model: Assignment
    var smallest: nat
    var nbMCS: nat
    /** What the last completed call recorded: the clauses left out, their cost, and the outcome of
        its first oracle call. */
    var last: set<nat>
    var lastCost: nat
    ghost var open: bool
    ghost var blocked: set<set<nat>>

    constructor (f: Formula, single: bool, solver: Solver)
      requires Valid(f) && solver.Valid() && solver.nVars >= f.base + |f.softs|
      requires solver.clauses == f.hard + SoftClauses(f)
      ensures this.f == f && this.single == single && this.solver == solver
      ensures Inv() && blocked == {} && nbMCS == 0 && smallest == Cost(f, All(f))
    {
      this.f, this.single, this.solver := f, single, solver;
      model, nbMCS, last, lastCost, smallest := {}, 0, {}, 0, Cost(f, All(f));
      blocked, open := {}, false;
      new;
      assert McsBlocks(f, {}) == {};
    }

    ghost predicate Inv()
      reads this, solver
    {
      Valid(f) && solver.Valid() && solver.nVars >= f.base + |f.softs| && Stored(f, blocked, solver.clauses)
    }

    predicate SatisfiedSoft(i: nat)
      requires i < |f.softs|
      reads this
    {
      SatClause(f.softs[i].clause, model)
    }

    /** `initUndefClauses`: all soft clauses, the heaviest first. */
    method InitUndefClauses() returns (undef: seq<nat>)
      ensures Listed(undef, All(f)) && HeaviestFirst(f, undef)
    {
      hide Listed, HeaviestFirst;
      NothingListed(f);
      undef := [];
      for n := 0 to |f.softs|
        invariant Listed(undef, VarsBelow(n)) && HeaviestFirst(f, undef)
      {
        ghost var before := undef;
        undef := InsertByWeight(f, undef, n);
        InsertedListed(before, undef, VarsBelow(n), n);
        assert VarsBelow(n + 1) == VarsBelow(n) + {n};
      }
    }

    /** The inner loop: clauses that the last model satisfies are satisfied from now on. */
    method MoveSatisfied(undef0: seq<nat>, sat0: set<nat>, cost0: nat, ghost rest: set<nat>, ghost others: set<nat>)
      returns (undef: seq<nat>, sat: set<nat>, cost: nat, ghost moved: set<nat>)
      requires Listed(undef0, rest) && rest <= All(f) && rest !! others && cost0 == Cost(f, rest + others)
      ensures moved <= rest && Listed(undef, rest - moved) && sat == sat0 + moved && |undef| <= |undef0|
      ensures cost == Cost(f, rest - moved + others) && moved !! Falsified(f, model)
      ensures forall k | 0 <= k < |undef| :: undef[k] in Falsified(f, model)
    {
      hide Listed, Cost;
      undef, sat, cost, moved := undef0, sat0, cost0, {};
      assert rest - {} == rest;
      var i := 0;
      while i < |undef|
        invariant 0 <= i <= |undef| <= |undef0| && moved <= rest && Listed(undef, rest - moved) && sat == sat0 + moved
        invariant moved !! Falsified(f, model) && cost == Cost(f, rest - moved + others)
        invariant forall k | 0 <= k < i :: undef[k] in Falsified(f, model)
        decreases |undef| - i
      {
        var x := undef[i];
        ListedMember(undef, rest - moved, i);
        if SatisfiedSoft(x) {
          CostWithout(f, rest - moved + others, x);
          assert rest - moved + others - {x} == rest - (moved + {x}) + others;
          assert (rest - moved) - {x} == rest - (moved + {x});
          SwapRemoveListed(undef, rest - moved, i);
          sat := sat + {x};
          cost := cost - f.softs[x].weight;
          undef := undef[i := undef[|undef| - 1]][..|undef| - 1];
          moved := moved + {x};
        } else {
          i := i + 1;
        }
      }
    }

    /** `addMCSClause`. */
    method AddMcsClause(unsat: set<nat>)
      requires Inv() && unsat <= All(f)
      modifies this`blocked, solver`clauses
      ensures Inv() && blocked == if single then old(blocked) + {unsat} else old(blocked)
    {
      if single {
        var lits: set<Lit> := set i | i in unsat :: Relax(f, i).Not();
        assert lits == BlockMcs(f, unsat);
        solver.AddClause(lits);
        assert McsBlocks(f, blocked + {unsat}) == McsBlocks(f, blocked) + {BlockMcs(f, unsat)};
        blocked := blocked + {unsat};
      }
    }

    /** One oracle call that forces the clauses of `s`. */
    method SolveForced(s: set<nat>) returns (res: Outcome)
      requires Inv() && s <= All(f)
      modifies solver`model, solver`conflict, solver`gaveUp
      ensures Inv() && solver.clauses == old(solver.clauses)
      ensures solver.gaveUp == old(solver.gaveUp) + if res == Undef then 1 else 0
      ensures res == Sat ==>
          Avoids(f, blocked, solver.model) && s !! Falsified(f, solver.model) && !Impossible(f, solver.clauses, {})
      ensures res == Unsat ==> Impossible(f, solver.clauses, s)
    {
      hide Valid, SatDb, Forced, Stored, AllHold, Avoids, Falsified, Impossible, Entails, Negates, LitsBelow, DbBelow;
      ForcedBelow(f, s, solver.nVars);
      res := solver.Solve(Forced(f, s), true);
      if res == Sat {
        ModelSatisfies(f, blocked, solver.clauses, solver.model, s);
        NoModelOfImpossible(f, solver.clauses, solver.model);
      } else if res == Unsat {
        ConflictIsImpossible(f, solver.clauses, solver.conflict, s);
      }
    }

    /** The first call of `findNextMCS`, without any forced clause. */
    method FirstCall() returns (res: Outcome)
      requires Inv()
      modifies this`open, this`model, solver`model, solver`conflict, solver`gaveUp
      ensures Inv() && solver.clauses == old(solver.clauses)
      ensures solver.gaveUp == old(solver.gaveUp) + if res == Undef then 1 else 0
      ensures res == Sat ==> open && Avoids(f, blocked, model)
      ensures res == Unsat ==> !open && !Open(f, blocked) && Impossible(f, solver.clauses, {})
    {
      hide Valid, SatDb, Forced, Stored, AllHold, Avoids, Falsified, Impossible, Open, LitsBelow, DbBelow;
      res := SolveForced({});
      open := res == Sat;
      if res == Sat {
        model := solver.model;
      } else if res == Unsat {
        NotOpen(f, blocked, solver.clauses);
      }
    }

    /** The end of `findNextMCS`: keep what was left out, and block it. */
    method Record(unsat: set<nat>, cost: nat)
      requires Inv() && unsat <= All(f)
      modifies this`last, this`lastCost, this`smallest, this`nbMCS, this`blocked, solver`clauses
      ensures Inv() && last == unsat && lastCost == cost && nbMCS == old(nbMCS) + 1
      ensures smallest == if cost < old(smallest) then cost else old(smallest)
      ensures blocked == if single then old(blocked) + {unsat} else old(blocked)
    {
      last, lastCost := unsat, cost;
      if cost < smallest {
        smallest := cost;
      }
      nbMCS := nbMCS + 1;
      AddMcsClause(unsat);
    }

    /** `findNextMCS`. A call is cut short exactly when the oracle gives
        up. One that is not records a minimal correction set of the original
        formula that contains none of the blocked ones exactly when its first oracle call finds a
        model, which it does exactly when something is left to find. The recorded cost is always
        the weight of the clauses left out. */
    method FindNextMcs() returns (finished: bool)
      requires Inv()
      modifies this, solver`clauses, solver`model, solver`conflict, solver`gaveUp
      ensures Inv() && (!finished ==> blocked == old(blocked))
      ensures solver.gaveUp == old(solver.gaveUp) + if finished then 0 else 1
      ensures finished ==> last <= All(f) && lastCost == Cost(f, last) && nbMCS == old(nbMCS) + 1
      ensures finished ==> smallest == if lastCost < old(smallest) then lastCost else old(smallest)
      ensures finished ==> (open <==> Open(f, old(blocked)))
      ensures finished ==> (open <==> IsMcs(f, last) && forall u | u in old(blocked) :: !(u <= last))
      ensures finished && !open ==> last == All(f)
      ensures finished ==> blocked == if single then old(blocked) + {last} else old(blocked)
    {
      hide Valid, SatDb, Forced, Stored, AllHold, Avoids, Falsified, IsMcs, Cost, Listed, Impossible, LitsBelow,
           DbBelow, VarsBelow;
      var undef := InitUndefClauses();
      var sat: set<nat>, unsat: set<nat>, cost := {}, {}, Cost(f, All(f));
      ghost var rest := All(f);
      var res := FirstCall();
      if res == Undef {
        return false;
      }
      while |undef| > 0
        invariant solver.gaveUp == old(solver.gaveUp)
        invariant Inv() && blocked == old(blocked) && nbMCS == old(nbMCS) && smallest == old(smallest) && res != Undef
        invariant Listed(undef, rest) && Apart(f, rest, sat, unsat) && cost == Cost(f, rest + unsat)
        invariant open ==> Avoids(f, blocked, model) && sat !! Falsified(f, model)
        invariant !open ==> !Open(f, blocked) && res == Unsat && sat == {} && Impossible(f, solver.clauses, {})
        invariant forall i | i in unsat :: Impossible(f, solver.clauses, sat + {i})
        decreases |undef|
      {
        if res == Sat {
          ghost var moved, before := {}, sat;
          undef, sat, cost, moved := MoveSatisfied(undef, sat, cost, rest, unsat);
          ApartAfterMove(f, rest, before, unsat, moved);
          rest := rest - moved;
          StillImpossible(f, solver.clauses, unsat, before, sat);
        }
        if |undef| == 0 {
          break;
        }
        var i := undef[|undef| - 1];
        TakeLast(f, undef, rest, sat, unsat);
        undef := undef[..|undef| - 1];
        res := SolveForced(sat + {i});
        if res == Undef {
          return false;
        }
        if res == Unsat {
          assert (rest - {i}) + (unsat + {i}) == rest + unsat;
          unsat := unsat + {i};
        } else {
          model := solver.model;
          StillImpossible(f, solver.clauses, unsat, sat, sat + {i});
          CostWithout(f, rest + unsat, i);
          assert (rest - {i}) + unsat == rest + unsat - {i};
          sat := sat + {i};
          cost := cost - f.softs[i].weight;
        }
        rest := rest - {i};
      }
      ListedEmpty(undef, rest);
      assert rest + unsat == unsat;
      if open {
        LoopLeavesMcs(f, blocked, solver.clauses, model, sat, unsat);
      } else if IsMcs(f, unsat) {
        NothingNew(f, blocked, unsat);
      }
      Record(unsat, cost);
      finished := true;
    }
  }

  /** Undecided, satisfied and left-out clauses are all clauses, each in one place. */
  ghost predicate Apart(f: Formula, rest: set<nat>, sat: set<nat>, unsat: set<nat>) {
    rest + sat + unsat == All(f) && rest !! sat && rest !! unsat && sat !! unsat
  }

  lemma ApartAfterMove(f: Formula, rest: set<nat>, sat: set<nat>, unsat: set<nat>, moved: set<nat>)
    requires Apart(f, rest, sat, unsat) && moved <= rest
    ensures Apart(f, rest - moved, sat + moved, unsat)
  {
  }

  lemma TakeLast(f: Formula, undef: seq<nat>, rest: set<nat>, sat: set<nat>, unsat: set<nat>)
    requires Listed(undef, rest) && Apart(f, rest, sat, unsat) && |undef| > 0
    ensures var i := undef[|undef| - 1]; i < |f.softs| && i in rest && Listed(undef[..|undef| - 1], rest - {i})
    ensures var i := undef[|undef| - 1];
        Apart(f, rest - {i}, sat + {i}, unsat) && Apart(f, rest - {i}, sat, unsat + {i}) && sat + {i} <= All(f)
  {
    DropLastListed(undef, rest);
  }

  lemma StillImpossible(f: Formula, db: Db, unsat: set<nat>, sat: set<nat>, more: set<nat>)
    requires sat <= more && forall i | i in unsat :: Impossible(f, db, sat + {i})
    ensures forall i | i in unsat :: Impossible(f, db, more + {i})
  {
    forall i | i in unsat
      ensures Impossible(f, db, more + {i})
    {
      ImpossibleGrows(f, db, sat + {i}, more + {i});
    }
  }

  lemma NoModelOfImpossible(f: Formula, db: Db, m: Assignment)
    requires SatDb(db, m)
    ensures !Impossible(f, db, {})
  {
    assert AllHold(Forced(f, {}), m);
  }

  lemma ListedEmpty(xs: seq<nat>, s: set<nat>)
    requires Listed(xs, s) && |xs| == 0
    ensures s == {}
  {
    if x :| x in s {
      assert x in xs;
    }
  }

  lemma ForcedBelow(f: Formula, s: set<nat>, n: nat)
    requires s <= All(f) && n >= f.base + |f.softs|
    ensures LitsBelow(Forced(f, s), n)
  {
  }

  lemma NotOpen(f: Formula, us: set<set<nat>>, db: Db)
    requires Valid(f) && Stored(f, us, db) && Impossible(f, db, {})
    ensures !Open(f, us)
  {
    hide SatDb, Stored, Valid;
    if a: Assignment :| Avoids(f, us, a) {
      EncodedIsModel(f, us, db, a);
    }
  }

  /** A list of the elements of a set, each once. */
  ghost predicate Listed(xs: seq<nat>, s: set<nat>) {
    (forall i | 0 <= i < |xs| :: xs[i] in s) && (forall x | x in s :: x in xs) && forall i, j | 0 <= i < j < |xs| ::
        xs[i] != xs[j]
  }

  lemma ListedMember(xs: seq<nat>, s: set<nat>, i: nat)
    requires Listed(xs, s) && i < |xs|
    ensures xs[i] in s
  {
  }

  ghost predicate HeaviestFirst(f: Formula, xs: seq<nat>) {
    && (forall i | 0 <= i < |xs| :: xs[i] < |f.softs|)
    && forall i, j | 0 <= i < j < |xs| :: f.softs[xs[i]].weight >= f.softs[xs[j]].weight
  }

  lemma NothingListed(f: Formula)
    ensures Listed([], VarsBelow(0)) && HeaviestFirst(f, [])
  {
  }

  /** Insertion into the map from weights to clauses: behind all clauses of at least its weight. */
  method InsertByWeight(f: Formula, xs: seq<nat>, n: nat) returns (ys: seq<nat>)
    requires HeaviestFirst(f, xs) && n < |f.softs|
    ensures HeaviestFirst(f, ys) && exists k :: 0 <= k <= |xs| && ys == xs[..k] + [n] + xs[k..]
  {
    var k := 0;
    while k < |xs| && f.softs[xs[k]].weight >= f.softs[n].weight
      invariant 0 <= k <= |xs|
      invariant forall i | 0 <= i < k :: f.softs[xs[i]].weight >= f.softs[n].weight
    {
      k := k + 1;
    }
    ys := xs[..k] + [n] + xs[k..];
  }

  lemma InsertedListed(xs: seq<nat>, ys: seq<nat>, s: set<nat>, x: nat)
    requires Listed(xs, s) && x !in s && exists k :: 0 <= k <= |xs| && ys == xs[..k] + [x] + xs[k..]
    ensures Listed(ys, s + {x})
  {
    var k :| 0 <= k <= |xs| && ys == xs[..k] + [x] + xs[k..];
    InsertListed(xs, s, k, x);
  }

  lemma InsertListed(xs: seq<nat>, s: set<nat>, k: nat, x: nat)
    requires Listed(xs, s) && k <= |xs| && x !in s
    ensures Listed(xs[..k] + [x] + xs[k..], s + {x})
  {
    var ys := xs[..k] + [x] + xs[k..];
    forall y | y in s + {x}
      ensures y in ys
    {
      if y == x {
        assert ys[k] == x;
      } else {
        var i :| 0 <= i < |xs| && xs[i] == y;
        assert ys[if i < k then i else i + 1] == y;
      }
    }
  }

  lemma SwapRemoveListed(xs: seq<nat>, s: set<nat>, i: nat)
    requires Listed(xs, s) && i < |xs|
    ensures Listed(xs[i := xs[|xs| - 1]][..|xs| - 1], s - {xs[i]})
  {
    var n := |xs| - 1;
    var ys := xs[i := xs[n]][..n];
    forall y | y in s - {xs[i]}
      ensures y in ys
    {
      var j :| 0 <= j < |xs| && xs[j] == y;
      assert j != i;
      assert ys[if j == n then i else j] == y;
    }
  }

  lemma DropLastListed(xs: seq<nat>, s: set<nat>)
    requires Listed(xs, s) && |xs| > 0
    ensures Listed(xs[..|xs| - 1], s - {xs[|xs| - 1]})
  {
    var n := |xs| - 1;
    forall y | y in s - {xs[n]}
      ensures y in xs[..n]
    {
      var j :| 0 <= j < |xs| && xs[j] == y;
      assert j != n && xs[..n][j] == y;
    }
  }
}
