/** From a parsed linear constraint to clauses, cardinality and at-most constraints. */
module PbConstraint {
  import opened Cnf

  datatype Sense = AtLeast | AtMost | Exactly
  datatype Product = Product(coeff: int, l: Lit)

  /** The left side of a constraint as it is written, with coefficients of any sign. */
  function Sum(ps: seq<Product>, a: Assignment): int {
    if ps == [] then 0 else (if Holds(ps[0].l, a) then ps[0].coeff else 0) + Sum(ps[1..], a)
  }

  predicate Satisfies(sum: int, sense: Sense, rhs: int) {
    match sense
    case AtLeast => sum >= rhs
    case AtMost => sum <= rhs
    case Exactly => sum == rhs
  }

  /** Non-negative coefficients, a right side, and the sign: at most when it is set, else at least. */
  datatype Inequality = Inequality(terms: seq<Term>, rhs: int, sign: bool)

  predicate Meets(c: Inequality, a: Assignment) {
    if c.sign then Value(c.terms, a) <= c.rhs else Value(c.terms, a) >= c.rhs
  }

  function Weight(ts: seq<Term>): nat {
    if ts == [] then 0 else ts[0].w + Weight(ts[1..])
  }

  function Negated(ts: seq<Term>): seq<Term> {
    seq(|ts|, i requires 0 <= i < |ts| => Term(ts[i].w, ts[i].l.Not()))
  }

  /** `changeSign`. */
  function Flipped(c: Inequality): Inequality {
    Inequality(Negated(c.terms), Weight(c.terms) - c.rhs, !c.sign)
  }

  lemma {:induction false} NegatedValue(ts: seq<Term>, a: Assignment)
    ensures Value(Negated(ts), a) + Value(ts, a) == Weight(ts) == Weight(Negated(ts))
  {
    if ts != [] {
      NegatedValue(ts[1..], a);
      assert Negated(ts)[1..] == Negated(ts[1..]);
    }
  }

  /** Flipping keeps the satisfying assignments, and flipping twice changes nothing. */
  lemma FlippedMeaning(c: Inequality)
    ensures forall a: Assignment :: Meets(Flipped(c), a) <==> Meets(c, a)
    ensures Flipped(Flipped(c)) == c
  {
    forall a: Assignment
      ensures Value(Negated(c.terms), a) + Value(c.terms, a) == Weight(c.terms)
    {
      NegatedValue(c.terms, a);
    }
    NegatedValue(c.terms, {});
    assert Negated(Negated(c.terms)) == c.terms;
  }

  predicate Unitary(ts: seq<Term>) {
    forall i | 0 <= i < |ts| :: ts[i].w == 1
  }

  /** The constraint in its at-least form. */
  function Lower(c: Inequality): Inequality {
    if c.sign then Flipped(c) else c
  }

  function Literals(ts: seq<Term>): Clause {
    set i | 0 <= i < |ts| :: ts[i].l
  }

  lemma {:induction false} UnitaryClause(ts: seq<Term>, a: Assignment)
    requires Unitary(ts)
    ensures Value(ts, a) >= 1 <==> SatClause(Literals(ts), a)
  {
    if ts != [] {
      assert Unitary(ts[1..]);
      UnitaryClause(ts[1..], a);
      assert Literals(ts) == {ts[0].l} + Literals(ts[1..]) by {
        forall l | l in Literals(ts[1..])
          ensures l in Literals(ts)
        {
          var i :| 0 <= i < |ts| - 1 && ts[1..][i].l == l;
          assert ts[i + 1].l == l;
        }
        forall l | l in Literals(ts)
          ensures l in {ts[0].l} + Literals(ts[1..])
        {
          var i :| 0 <= i < |ts| && ts[i].l == l;
          assert i > 0 ==> ts[1..][i - 1].l == l;
        }
      }
    }
  }

  class PB {
    var terms: seq<Term>
    var rhs: int
    var sign: bool

    function Contents(): Inequality
      reads this
    {
      Inequality(terms, rhs, sign)
    }

    constructor (terms: seq<Term>, rhs: int, sign: bool)
      ensures Contents() == Inequality(terms, rhs, sign)
    {
      this.terms, this.rhs, this.sign := terms, rhs, sign;
    }

    /** `addProduct`: a negative coefficient goes to the negated literal and moves the right side. */
    method AddProduct(l: Lit, c: int)
      modifies this
      ensures sign == old(sign)
      ensures forall a: Assignment :: Value(terms, a) - rhs == Value(old(terms), a) - old(rhs) +
                (if Holds(l, a) then c else 0)
    {
      if c >= 0 {
        AppendValue(terms, Term(c, l));
        terms := terms + [Term(c, l)];
      } else {
        AppendValue(terms, Term(-c, l.Not()));
        terms := terms + [Term(-c, l.Not())];
        rhs := rhs - c;
      }
    }

    method AddRHS(r: int)
      modifies this`rhs
      ensures rhs == old(rhs) + r
    {
      rhs := rhs + r;
    }

    /** `changeSign`. */
    method ChangeSign()
      modifies this
      ensures Contents() == Flipped(old(Contents()))
    {
      var s := 0;
      for i := 0 to |terms|
        invariant |terms| == |old(terms)| && s + Weight(old(terms)[i..]) == Weight(old(terms))
        invariant forall j | 0 <= j < |terms| :: terms[j] == if j < i then Negated(old(terms))[j] else old(terms)[j]
        invariant rhs == old(rhs) && sign == old(sign)
      {
        assert old(terms)[i..][1..] == old(terms)[i + 1..];
        s := s + terms[i].w;
        terms := terms[i := Term(terms[i].w, terms[i].l.Not())];
      }
      assert terms == Negated(old(terms));
      rhs := s - rhs;
      sign := !sign;
    }

    /** `isClause`: a constraint that is a clause is left in its at-least form, any other as it was. */
    method IsClause() returns (b: bool)
      modifies this
      ensures b <==> old(Lower(Contents())).rhs == 1 && Unitary(old(Lower(Contents())).terms)
      ensures Contents() == if b then old(Lower(Contents())) else old(Contents())
    {
      FlippedMeaning(Contents());
      var was := sign;
      if sign {
        ChangeSign();
      }
      if rhs != 1 {
        if sign != was {
          ChangeSign();
        }
        return false;
      }
      for i := 0 to |terms|
        invariant Contents() == old(Lower(Contents()))
        invariant forall j | 0 <= j < i :: terms[j].w == 1
      {
        if terms[i].w != 1 {
          if sign != was {
            ChangeSign();
          }
          return false;
        }
      }
      b := true;
    }

    /** `isCardinality`. */
    method IsCardinality() returns (b: bool)
      modifies this
      ensures b <==> Unitary(old(Lower(Contents())).terms)
      ensures Contents() == if b then old(Lower(Contents())) else old(Contents())
    {
      FlippedMeaning(Contents());
      var was := sign;
      if sign {
        ChangeSign();
      }
      for i := 0 to |terms|
        invariant Contents() == old(Lower(Contents()))
        invariant forall j | 0 <= j < i :: terms[j].w == 1
      {
        if terms[i].w != 1 {
          if sign != was {
            ChangeSign();
          }
          return false;
        }
      }
      b := true;
    }
  }

  lemma {:induction false} AppendValue(ts: seq<Term>, t: Term)
    ensures forall a: Assignment :: Value(ts + [t], a) == Value(ts, a) + if Holds(t.l, a) then t.w else 0
  {
    if ts == [] {
      assert ([] + [t])[1..] == [];
    } else {
      AppendValue(ts[1..], t);
      assert (ts + [t])[1..] == ts[1..] + [t];
    }
  }

  lemma {:induction false} AppendSum(ps: seq<Product>, p: Product)
    ensures forall a: Assignment :: Sum(ps + [p], a) == Sum(ps, a) + if Holds(p.l, a) then p.coeff else 0
  {
    if ps == [] {
      assert ([] + [p])[1..] == [];
    } else {
      AppendSum(ps[1..], p);
      assert (ps + [p])[1..] == ps[1..] + [p];
    }
  }

  // ---------------------------------------------------------------- the formula

  datatype Card = Card(lits: seq<Lit>, rhs: int)

  /** How many literals of the list hold. */
  function CountHolding(ls: seq<Lit>, a: Assignment): nat {
    if ls == [] then 0 else (if Holds(ls[0], a) then 1 else 0) + CountHolding(ls[1..], a)
  }

  function LitsOf(ts: seq<Term>): seq<Lit> {
    seq(|ts|, i requires 0 <= i < |ts| => ts[i].l)
  }

  lemma {:induction false} UnitaryCount(ts: seq<Term>, a: Assignment)
    requires Unitary(ts)
    ensures Value(ts, a) == CountHolding(LitsOf(ts), a)
  {
    if ts != [] {
      assert Unitary(ts[1..]);
      UnitaryCount(ts[1..], a);
      assert LitsOf(ts)[1..] == LitsOf(ts[1..]);
    }
  }

  /** The lists that the parser fills: hard clauses, at-most cardinalities, at-most constraints. */
  class Formula {
    var hard: seq<Clause>
    var cards: seq<Card>
    var pbs: seq<Inequality>

    constructor ()
      ensures forall a: Assignment :: Accepts(a)
    {
      hard, cards, pbs := [], [], [];
    }

    /** The assignment satisfies every constraint of the formula. */
    ghost predicate Accepts(a: Assignment)
      reads this
    {
      && (forall c | c in hard :: SatClause(c, a))
      && (forall c | c in cards :: CountHolding(c.lits, a) <= c.rhs)
      && forall c | c in pbs :: Meets(c, a)
    }

    /** `addPBConstraint`: whichever list the constraint goes to, exactly its solutions remain. */
    method AddPBConstraint(p: PB)
      modifies this, p
      ensures forall a: Assignment :: Accepts(a) <==> old(Accepts(a)) && Meets(old(p.Contents()), a)
      ensures |hard| + |cards| + |pbs| == old(|hard| + |cards| + |pbs|) + 1
    {
      ghost var c := p.Contents();
      FlippedMeaning(c);
      FlippedMeaning(Lower(c));
      var clause := p.IsClause();
      if clause {
        forall a: Assignment
          ensures SatClause(Literals(p.terms), a) <==> Meets(c, a)
        {
          UnitaryClause(p.terms, a);
        }
        hard := hard + [Literals(p.terms)];
      } else {
        var cardinality := p.IsCardinality();
        if cardinality {
          if !p.sign {
            p.ChangeSign();
          }
          forall a: Assignment
            ensures CountHolding(LitsOf(p.terms), a) <= p.rhs <==> Meets(c, a)
          {
            UnitaryCount(p.terms, a);
          }
          cards := cards + [Card(LitsOf(p.terms), p.rhs)];
        } else {
          if !p.sign {
            p.ChangeSign();
          }
          pbs := pbs + [p.Contents()];
        }
      }
    }

    /** `parseConstraint` after tokenizing: exactly the solutions of the constraint remain. */
    method ParseConstraint(products: seq<Product>, sense: Sense, rhs: int)
      requires |products| > 0
      modifies this
      ensures forall a: Assignment :: Accepts(a) <==> old(Accepts(a)) && Satisfies(Sum(products, a), sense, rhs)
    {
      var p := new PB([], 0, false);
      for i := 0 to |products|
        invariant fresh(p) && !p.sign && hard == old(hard) && cards == old(cards) && pbs == old(pbs)
        invariant forall a: Assignment :: Value(p.terms, a) - p.rhs == Sum(products[..i], a)
      {
        assert products[..i + 1] == products[..i] + [products[i]];
        AppendSum(products[..i], products[i]);
        p.AddProduct(products[i].l, products[i].coeff);
      }
      assert products[..|products|] == products;
      if sense == AtMost {
        p.sign := true;
      }
      p.AddRHS(rhs);
      ghost var c := p.Contents();
      FlippedMeaning(c);
      if sense == AtMost {
        p.ChangeSign();
      }
      if sense == Exactly {
        var p2 := new PB(p.terms, p.rhs, true);
        AddPBConstraint(p);
        AddPBConstraint(p2);
      } else {
        AddPBConstraint(p);
      }
    }
  }
}
