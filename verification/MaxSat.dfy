/** Hard and weighted soft clauses, and their relaxation. */
module MaxSat {
  import opened Cnf

  datatype Soft = Soft(clause: Clause, weight: nat)

  /** Hard and soft clauses over variables below `base`; soft `i` is relaxed by variable `base + i`. */
  datatype Formula = Formula(base: nat, hard: Db, softs: seq<Soft>)

  ghost predicate Valid(f: Formula) {
    DbBelow(f.hard, f.base) && forall i | 0 <= i < |f.softs| :: LitsBelow(f.softs[i].clause, f.base)
  }

  /** The soft clauses that an assignment falsifies. */
  function Falsified(f: Formula, a: Assignment): set<nat> {
    set i: nat | i < |f.softs| && !SatClause(f.softs[i].clause, a)
  }

  function All(f: Formula): set<nat> {
    VarsBelow(|f.softs|)
  }

  function WeightOf(f: Formula, u: set<nat>, n: nat): nat
    requires n <= |f.softs|
  {
    if n == 0 then 0 else (if n - 1 in u then f.softs[n - 1].weight else 0) + WeightOf(f, u, n - 1)
  }

  /** The total weight of a set of soft clauses. */
  function Cost(f: Formula, u: set<nat>): nat {
    WeightOf(f, u, |f.softs|)
  }

  lemma {:induction false} WeightWithout(f: Formula, u: set<nat>, i: nat, n: nat)
    requires n <= |f.softs| && i in u && i < |f.softs|
    ensures WeightOf(f, u, n) == WeightOf(f, u - {i}, n) + if i < n then f.softs[i].weight else 0
  {
    if n > 0 {
      WeightWithout(f, u, i, n - 1);
    }
  }

  function Relax(f: Formula, i: nat): Lit {
    Lit(f.base + i, false)
  }

  function SoftClauses(f: Formula): Db {
    set i: nat | i < |f.softs| :: f.softs[i].clause + {Relax(f, i)}
  }

  lemma CostWithout(f: Formula, u: set<nat>, i: nat)
    requires i in u && i < |f.softs|
    ensures Cost(f, u) == Cost(f, u - {i}) + f.softs[i].weight
  {
    WeightWithout(f, u, i, |f.softs|);
  }

  /** The relaxation variables follow the falsified clauses. */
  function Encoded(f: Formula, a: Assignment): Assignment {
    (set v | v in a && v < f.base) + set i | i in Falsified(f, a) :: f.base + i
  }

  lemma EncodedMember(f: Formula, a: Assignment, i: nat)
    requires i < |f.softs|
    ensures f.base + i in Encoded(f, a) <==> i in Falsified(f, a)
  {
    if f.base + i in Encoded(f, a) {
      var j :| j in Falsified(f, a) && f.base + j == f.base + i;
    }
  }

  lemma EncodedAgrees(f: Formula, a: Assignment)
    ensures Agree(a, Encoded(f, a), f.base)
  {
  }

  lemma AgreeKeepsClause(c: Clause, a: Assignment, b: Assignment, n: nat)
    requires LitsBelow(c, n) && Agree(a, b, n)
    ensures SatClause(c, a) <==> SatClause(c, b)
  {
    if SatClause(c, a) {
      var l :| l in c && Holds(l, a);
      assert Holds(l, b);
    }
    if SatClause(c, b) {
      var l :| l in c && Holds(l, b);
      assert Holds(l, a);
    }
  }

  lemma SoftHolds(f: Formula, a: Assignment, b: Assignment, i: nat)
    requires Valid(f) && i < |f.softs| && Agree(a, b, f.base) && (f.base + i in b <==> i in Falsified(f, a))
    ensures SatClause(f.softs[i].clause + {Relax(f, i)}, b)
  {
    var c := f.softs[i].clause;
    AgreeKeepsClause(c, a, b, f.base);
    if SatClause(c, a) {
      var l :| l in c && Holds(l, b);
      assert l in c + {Relax(f, i)};
    } else {
      assert Holds(Relax(f, i), b) && Relax(f, i) in c + {Relax(f, i)};
    }
  }

  lemma SoftClausesHold(f: Formula, a: Assignment, b: Assignment)
    requires Valid(f) && Agree(a, b, f.base) && forall i: nat | i < |f.softs| :: f.base + i in b <==>
        i in Falsified(f, a)
    ensures SatDb(SoftClauses(f), b)
  {
    forall c | c in SoftClauses(f)
      ensures SatClause(c, b)
    {
      var i: nat :| i < |f.softs| && c == f.softs[i].clause + {Relax(f, i)};
      SoftHolds(f, a, b, i);
    }
  }

  lemma RelaxedClauseHolds(f: Formula, db: Db, m: Assignment, i: nat)
    requires SoftClauses(f) <= db && SatDb(db, m) && i < |f.softs| && Holds(Relax(f, i).Not(), m)
    ensures SatClause(f.softs[i].clause, m)
  {
    var c := f.softs[i].clause + {Relax(f, i)};
    assert c in SoftClauses(f);
    assert SatClause(c, m);
    var l :| l in c && Holds(l, m);
    assert l != Relax(f, i);
  }

  lemma FalsifiedInRange(f: Formula, a: Assignment)
    ensures Falsified(f, a) <= All(f)
  {
  }
}
