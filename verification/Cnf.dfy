/** Propositional formulas in clausal form, pseudo-Boolean sums, and the SAT oracle. */
module Cnf {

  datatype Lit = Lit(v: nat, neg: bool) {
    function Not(): Lit { Lit(v, !neg) }
  }

  /** The set of variables that are true. */
  type Assignment = set<nat>
  type Clause = set<Lit>
  type Db = set<Clause>

  predicate Holds(l: Lit, a: Assignment) {
    (l.v in a) != l.neg
  }

  predicate SatClause(c: Clause, a: Assignment) {
    exists l | l in c :: Holds(l, a)
  }

  predicate SatDb(db: Db, a: Assignment) {
    forall c | c in db :: SatClause(c, a)
  }

  predicate AllHold(ls: set<Lit>, a: Assignment) {
    forall l | l in ls :: Holds(l, a)
  }

  ghost predicate Entails(db: Db, c: Clause) {
    forall a: Assignment | SatDb(db, a) :: SatClause(c, a)
  }

  /** `c` is made of negations of literals of `ls`, as a conflict is of its assumptions. */
  ghost predicate Negates(c: Clause, ls: set<Lit>) {
    forall l | l in c :: l.Not() in ls
  }

  predicate LitsBelow(ls: set<Lit>, n: nat) {
    forall l | l in ls :: l.v < n
  }

  predicate DbBelow(db: Db, n: nat) {
    forall c | c in db :: LitsBelow(c, n)
  }

  /** The two assignments agree on all variables smaller than `n`. */
  ghost predicate Agree(a: Assignment, b: Assignment, n: nat) {
    forall v: nat | v < n :: v in a <==> v in b
  }

  lemma SatDbAgree(db: Db, a: Assignment, b: Assignment, n: nat)
    requires DbBelow(db, n) && Agree(a, b, n) && SatDb(db, a)
    ensures SatDb(db, b)
  {
    forall c | c in db
      ensures SatClause(c, b)
    {
      assert SatClause(c, a);
      var l :| l in c && Holds(l, a);
      assert LitsBelow(c, n);
      assert Holds(l, b);
    }
  }

  lemma SmallerSet<T>(s: set<T>, t: set<T>)
    requires s <= t
    ensures |s| <= |t| && (s != t ==> |s| < |t|)
  {
    assert t == s + (t - s);
  }

  lemma SatUnion(db: Db, more: Db, b: Assignment)
    requires SatDb(db, b) && SatDb(more, b)
    ensures SatDb(db + more, b)
  {
  }

  lemma SatFewer(db: Db, more: Db, a: Assignment)
    requires db <= more && SatDb(more, a)
    ensures SatDb(db, a)
  {
  }

  /** A conflict without assumptions is the empty clause. */
  lemma NegatesNothing(c: Clause)
    requires Negates(c, {})
    ensures c == {}
  {
    assert forall l :: l !in c;
  }

  /** A conflict is refuted by every assignment that satisfies the assumptions. */
  lemma ConflictRefutes(db: Db, conflict: Clause, ls: set<Lit>, a: Assignment)
    requires Entails(db, conflict) && Negates(conflict, ls) && SatDb(db, a)
    ensures !AllHold(ls, a)
  {
    var l :| l in conflict && Holds(l, a);
    assert l.Not() in ls && !Holds(l.Not(), a);
  }

  // ---------------------------------------------------------------- pseudo-Boolean sums

  datatype Term = Term(w: nat, l: Lit)

  function Value(o: seq<Term>, a: Assignment): nat {
    if o == [] then 0
    else (if Holds(o[0].l, a) then o[0].w else 0) + Value(o[1..], a)
  }

  predicate TermsBelow(o: seq<Term>, n: nat) {
    forall t | t in o :: t.l.v < n
  }

  lemma {:induction false} ValueAgree(o: seq<Term>, a: Assignment, b: Assignment, n: nat)
    requires TermsBelow(o, n) && Agree(a, b, n)
    ensures Value(o, a) == Value(o, b)
  {
    if o != [] {
      assert o[0] in o;
      assert Holds(o[0].l, a) == Holds(o[0].l, b);
      ValueAgree(o[1..], a, b, n);
    }
  }

  // ---------------------------------------------------------------- the oracle

  datatype Outcome = Sat | Unsat | Undef

  function VarsBelow(n: nat): (s: set<nat>)
    ensures forall v: nat :: v in s <==> v < n
  {
    if n == 0 then {} else VarsBelow(n - 1) + {n - 1}
  }

  lemma {:induction false} SizeOfAll(n: nat)
    ensures |VarsBelow(n)| == n
  {
    if n > 0 {
      SizeOfAll(n - 1);
    }
  }

  predicate Refuted(db: Db, core: set<Lit>, vars: set<nat>) {
    forall a | a <= vars :: !(SatDb(db, a) && AllHold(core, a))
  }

  lemma RefutedEntails(db: Db, core: set<Lit>, conflict: Clause, n: nat)
    requires DbBelow(db, n) && LitsBelow(core, n)
    requires Refuted(db, core, VarsBelow(n))
    requires conflict == set l | l in core :: l.Not()
    ensures Entails(db, conflict)
  {
    forall a: Assignment | SatDb(db, a)
      ensures SatClause(conflict, a)
    {
      var b := set v | v in a && v < n;
      SatDbAgree(db, a, b, n);
      assert b <= VarsBelow(n);
      assert !AllHold(core, b);
      var l :| l in core && !Holds(l, b);
      assert l.Not() in conflict && Holds(l.Not(), a);
    }
  }

  /** A reference SAT solver with assumptions and a conflict budget. It may return any model,
      any core, and, when it has a budget, it may give up: callers rely on nothing else. */
  class Solver {
    var nVars: nat
    var clauses: Db
    var model: Assignment
    var conflict: Clause
    // How many calls have ended without an answer.
    ghost var gaveUp: nat

    ghost predicate Valid()
      reads this
    {
      DbBelow(clauses, nVars)
    }

    constructor (nVars: nat, clauses: Db)
      requires DbBelow(clauses, nVars)
      ensures Valid() && this.nVars == nVars && this.clauses == clauses
    {
      this.nVars, this.clauses := nVars, clauses;
      model, conflict, gaveUp := {}, {}, 0;
    }

    method NewVar() returns (v: nat)
      requires Valid()
      modifies this`nVars
      ensures Valid() && v == old(nVars) && nVars == v + 1
    {
      v := nVars;
      nVars := nVars + 1;
    }

    method AddClause(c: Clause)
      requires Valid() && LitsBelow(c, nVars)
      modifies this`clauses
      ensures Valid() && clauses == old(clauses) + {c}
    {
      clauses := clauses + {c};
    }

    method Solve(assumptions: set<Lit>, budgeted: bool) returns (r: Outcome)
      requires Valid() && LitsBelow(assumptions, nVars)
      modifies this`model, this`conflict, this`gaveUp
      ensures r == Sat ==> SatDb(clauses, model) && AllHold(assumptions, model)
      ensures r == Unsat ==> Negates(conflict, assumptions) && Entails(clauses, conflict)
      ensures r == Undef ==> budgeted
      ensures gaveUp == old(gaveUp) + if r == Undef then 1 else 0
    {
      if budgeted {
        if * {
          gaveUp := gaveUp + 1;
          return Undef;
        }
      }
      var vars := VarsBelow(nVars);
      if a :| a <= vars && SatDb(clauses, a) && AllHold(assumptions, a) {
        model := a;
        return Sat;
      }
      assert Refuted(clauses, assumptions, vars);
      var core: set<Lit> :| core <= assumptions && Refuted(clauses, core, vars);
      conflict := set l | l in core :: l.Not();
      RefutedEntails(clauses, core, conflict, nVars);
      return Unsat;
    }
  }
}
