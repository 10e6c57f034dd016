/** Pseudo-Boolean objective functions: factoring out the common divisor, comparing and adding. */
module PbFunction {
  import opened Cnf
  import opened Factorization

  /** A linear part over literals, scaled by `factor` and shifted by `constant`. */
  datatype Pb = Pb(terms: seq<Term>, constant: int, factor: int)

  /** `evaluate`, denormalised. */
  function Evaluate(f: Pb, a: Assignment): int {
    Value(f.terms, a) * f.factor + f.constant
  }

  function Times(x: int, k: int): int {
    x * k
  }

  function Weights(ts: seq<Term>): seq<nat> {
    seq(|ts|, i requires 0 <= i < |ts| => ts[i].w)
  }

  predicate Positive(ts: seq<Term>) {
    forall i | 0 <= i < |ts| :: ts[i].w > 0
  }

  /** What a function built from positive coefficients looks like. */
  predicate Built(f: Pb) {
    Positive(f.terms) && f.factor >= 1
  }

  // ---------------------------------------------------------------- normalize, denormalize

  /** Division truncates towards zero. */
  function Quot(x: int, y: int): int
    requires y != 0
  {
    if (x >= 0) == (y > 0) then Abs(x) / Abs(y) else -(Abs(x) / Abs(y))
  }

  function Abs(x: int): nat {
    if x >= 0 then x else -x
  }

  function Normalize(f: Pb, y: int): int
    requires f.factor != 0
  {
    Quot(y - f.constant, f.factor)
  }

  function Denormalize(f: Pb, x: int): int {
    x * f.factor + f.constant
  }

  /** `normalize` undoes `denormalize` always; `denormalize` undoes `normalize` exactly on the values
      that the function can take. */
  lemma NormalizeInverts(f: Pb, x: int, y: int)
    requires f.factor != 0
    ensures Normalize(f, Denormalize(f, x)) == x
    ensures Denormalize(f, Normalize(f, y)) == y <==> exists z :: y == Denormalize(f, z)
  {
    QuotTimes(x, f.factor);
    if z :| y == Denormalize(f, z) {
      QuotTimes(z, f.factor);
    }
  }

  lemma QuotTimes(x: int, y: int)
    requires y != 0
    ensures Quot(x * y, y) == x
  {
    assert Abs(x * y) == Abs(y) * Abs(x) by {
      SignRules(x, y);
    }
    QuotientIsUnique(Abs(y), Abs(x * y), Abs(x));
    SignRules(x, y);
  }

  lemma SignRules(x: int, y: int)
    requires y != 0
    ensures x >= 0 && y > 0 ==> x * y >= 0
    ensures x < 0 && y < 0 ==> x * y > 0 && x * y == (-x) * (-y)
    ensures x < 0 && y > 0 ==> x * y < 0 && -(x * y) == (-x) * y
    ensures x > 0 && y < 0 ==> x * y < 0 && -(x * y) == x * (-y)
    ensures x == 0 ==> x * y == 0
  {
  }

  // ---------------------------------------------------------------- factorize

  function Divided(ts: seq<Term>, g: nat): seq<Term>
    requires g > 0
  {
    seq(|ts|, i requires 0 <= i < |ts| => Term(ts[i].w / g, ts[i].l))
  }

  lemma {:induction false} DividedValue(ts: seq<Term>, g: nat, a: Assignment)
    requires g > 0 && forall i | 0 <= i < |ts| :: Divides(g, ts[i].w)
    ensures Value(Divided(ts, g), a) * g == Value(ts, a)
  {
    if ts != [] {
      DividedValue(ts[1..], g, a);
      assert Divided(ts, g)[1..] == Divided(ts[1..], g);
      var k := Quotient(g, ts[0].w);
      var rest := Value(Divided(ts[1..], g), a);
      Distribute3(k, rest, g);
    }
  }

  lemma Distribute3(k: int, rest: int, g: int)
    ensures (k + rest) * g == g * k + rest * g
  {
  }

  /** The largest coefficient; the set of coefficients in the source is ordered. */
  method Largest(cs: seq<nat>) returns (m: nat)
    requires |cs| > 0
    ensures m in cs && forall c | c in cs :: c <= m
  {
    m := cs[0];
    for i := 0 to |cs|
      invariant m in cs && forall j | 0 <= j < i :: cs[j] <= m
    {
      if cs[i] > m {
        m := cs[i];
      }
    }
  }

  /** The gcd of positive coefficients that `factorize` divides by; 1 for none. */
  ghost predicate Factorized(before: Pb, after: Pb, g: nat) {
    && g > 0 && (before.terms != [] ==> IsGcd(g, Weights(before.terms))) && (before.terms == [] ==> g == 1)
    && after == Pb(Divided(before.terms, g), before.constant, before.factor * g)
  }

  /** Term by term the same literal with the same true coefficient. */
  predicate SameScaled(f: Pb, g: Pb) {
    |f.terms| == |g.terms|
    && forall i | 0 <= i < |f.terms| ::
        f.terms[i].l == g.terms[i].l && Times(f.terms[i].w, f.factor) == Times(g.terms[i].w, g.factor)
  }

  /** Dividing by the gcd changes no value and leaves coefficients without a common divisor. */
  lemma FactorizedMeaning(before: Pb, after: Pb, g: nat)
    requires Built(before) && Factorized(before, after, g)
    ensures forall a: Assignment :: Evaluate(after, a) == Evaluate(before, a)
    ensures Built(after)
    ensures after.terms != [] ==> IsGcd(1, Weights(after.terms))
    ensures SameScaled(before, after)
  {
    WeightsMembers(before.terms);
    GcdDivides(before.terms, g);
    hide IsGcd;
    forall a: Assignment
      ensures Evaluate(after, a) == Evaluate(before, a)
    {
      DividedValue(before.terms, g, a);
      Regroup(Value(after.terms, a), g, before.factor);
    }
    forall i | 0 <= i < |after.terms|
      ensures after.terms[i].w > 0 && Times(after.terms[i].w, after.factor) == Times(before.terms[i].w, before.factor)
    {
      var k := Quotient(g, before.terms[i].w);
      assert k == 0 ==> g * k == 0;
      Regroup(k, g, before.factor);
    }
    TimesPositive(before.factor, g);
    if after.terms != [] {
      ReducedHasGcdOne(before.terms, g);
    }
  }

  lemma GcdDivides(ts: seq<Term>, g: nat)
    requires g > 0 && (ts != [] ==> IsGcd(g, Weights(ts)))
    ensures forall i | 0 <= i < |ts| :: Divides(g, ts[i].w)
  {
    WeightsMembers(ts);
  }

  lemma Regroup(x: int, g: int, f: int)
    ensures x * (f * g) == (x * g) * f
  {
  }

  lemma ReducedHasGcdOne(ts: seq<Term>, g: nat)
    requires ts != [] && IsGcd(g, Weights(ts))
    ensures IsGcd(1, Weights(Divided(ts, g)))
  {
    var cs, ds := Weights(ts), Weights(Divided(ts, g));
    forall d: nat | d >= 2
      ensures Misses(d, 1, ds)
    {
      assert Misses(d, g, cs);
      var c :| c in cs && !Divides(d, c / g);
      var i :| 0 <= i < |cs| && cs[i] == c;
      assert ds[i] == c / g && ds[i] in ds;
      assert (c / g) / 1 == c / g;
    }
  }

  lemma WeightsMembers(ts: seq<Term>)
    ensures |Weights(ts)| == |ts|
    ensures Positive(ts) ==> forall c | c in Weights(ts) :: c > 0
    ensures forall i | 0 <= i < |ts| :: ts[i].w in Weights(ts)
  {
    forall i | 0 <= i < |ts|
      ensures ts[i].w in Weights(ts)
    {
      assert Weights(ts)[i] == ts[i].w;
    }
  }

  lemma UnitIsGcd(cs: seq<nat>)
    requires 1 in cs
    ensures IsGcd(1, cs)
  {
    forall c | c in cs
      ensures Divides(1, c)
    {
    }
    forall d: nat | d >= 2
      ensures Misses(d, 1, cs)
    {
      NotDividesSmaller(d, 1);
      assert 1 / 1 == 1;
    }
  }

  /** An objective function whose constructor factorizes it in place. */
  class Objective {
    var terms: seq<Term>
    var constant: int
    var factor: int

    function Contents(): Pb
      reads this
    {
      Pb(terms, constant, factor)
    }

    constructor (terms: seq<Term>, constant: int, factor: int)
      requires Built(Pb(terms, constant, factor))
      ensures exists g :: Factorized(Pb(terms, constant, factor), Contents(), g)
    {
      this.terms, this.constant, this.factor := terms, constant, factor;
      new;
      var changed := Factorize();
    }

    /** `factorize`: the coefficients are divided by their gcd, the factor takes it in. */
    method Factorize() returns (changed: bool)
      requires Built(Contents())
      modifies this
      ensures exists g :: Factorized(old(Contents()), Contents(), g) && (changed <==> g != 1)
    {
      hide IsGcd, Divided;
      var n := |terms|;
      if n == 0 {
        DivideByOne(Contents());
        return false;
      }
      var coeffs := Weights(terms);
      WeightsMembers(terms);
      var cur := Largest(coeffs);
      if cur == 1 {
        UnitIsGcd(coeffs);
        DivideByOne(Contents());
        return false;
      }
      var gcd := GcdOf(coeffs, cur);
      if gcd != 1 {
        DivideBy(gcd);
        assert Factorized(old(Contents()), Contents(), gcd);
        return true;
      }
      DivideByOne(Contents());
      changed := false;
    }

    method DivideBy(gcd: nat)
      requires gcd > 0
      modifies this
      ensures Contents() == Pb(Divided(old(terms), gcd), old(constant), old(factor) * gcd)
    {
      var n := |terms|;
      var i := 0;
      NothingDivided(terms, gcd);
      hide Divided;
      while i < n
        invariant i <= n == |terms| && terms == Divided(old(terms)[..i], gcd) + old(terms)[i..] &&
            |Divided(old(terms)[..i], gcd)| == i
        invariant constant == old(constant) && factor == old(factor)
      {
        OneMoreDivided(old(terms), i, gcd);
        ReplaceNext(Divided(old(terms)[..i], gcd), old(terms), i, Term(old(terms)[i].w / gcd, old(terms)[i].l));
        terms := terms[i := Term(terms[i].w / gcd, terms[i].l)];
        i := i + 1;
      }
      assert old(terms)[..n] == old(terms);
      factor := factor * gcd;
    }
  }

  lemma NothingDivided(ts: seq<Term>, g: nat)
    requires g > 0
    ensures Divided(ts[..0], g) == []
  {
  }

  lemma ReplaceNext(front: seq<Term>, ts: seq<Term>, i: nat, t: Term)
    requires |front| == i < |ts|
    ensures (front + ts[i..])[i] == ts[i] && (front + ts[i..])[i := t] == (front + [t]) + ts[i + 1..]
  {
  }

  lemma OneMoreDivided(ts: seq<Term>, i: nat, g: nat)
    requires g > 0 && i < |ts|
    ensures |Divided(ts[..i], g)| == i && Divided(ts[..i + 1], g) == Divided(ts[..i], g) + [Term(ts[i].w / g, ts[i].l)]
  {
  }

  /** Trial division of the largest coefficient, then minimum exponents over all coefficients. */
  method GcdOf(coeffs: seq<nat>, largest: nat) returns (gcd: nat)
    requires largest in coeffs && largest >= 2
    ensures IsGcd(gcd, coeffs)
  {
    var factors := PrimeFactors(largest);
    var common := CommonExponents(factors, coeffs);
    CommonIsGcd(common, factors, coeffs);
    gcd := Product(common);
  }

  lemma DivideByOne(f: Pb)
    requires f.terms == [] || IsGcd(1, Weights(f.terms))
    ensures Factorized(f, f, 1)
  {
    forall i | 0 <= i < |f.terms|
      ensures f.terms[i].w / 1 == f.terms[i].w && f.terms[i].w % 1 == 0
    {
    }
    assert Divided(f.terms, 1) == f.terms;
  }

  /** Build a function and take its value. */
  method Build(terms: seq<Term>, constant: int, factor: int) returns (f: Pb)
    requires Positive(terms) && factor >= 1
    ensures Built(f) && (f.terms == [] <==> terms == [])
    ensures forall a: Assignment :: Evaluate(f, a) == Evaluate(Pb(terms, constant, factor), a)
    ensures f.constant == constant && SameScaled(Pb(terms, constant, factor), f)
    ensures f.terms != [] ==> IsGcd(1, Weights(f.terms))
  {
    var o := new Objective(terms, constant, factor);
    f := o.Contents();
    ghost var g :| Factorized(Pb(terms, constant, factor), f, g);
    FactorizedMeaning(Pb(terms, constant, factor), f, g);
  }

  // ---------------------------------------------------------------- operator==

  /** The coefficient of the variable of a term once its literal is positive. */
  function Signed(t: Term): int {
    var w: int := t.w;
    if t.l.neg then -w else w
  }

  /** The coefficient of a variable once all literals are positive. */
  function Net(ts: seq<Term>, v: nat): int {
    if ts == [] then 0
    else (if ts[0].l.v == v then Signed(ts[0]) else 0) + Net(ts[1..], v)
  }

  lemma {:induction false} SetVariable(ts: seq<Term>, a: Assignment, v: nat)
    requires v !in a
    ensures Value(ts, a + {v}) - Value(ts, a) == Net(ts, v)
  {
    if ts != [] {
      SetVariable(ts[1..], a, v);
    }
  }

  lemma TimesSum(x: int, y: int, k: int)
    ensures Times(x + y, k) == Times(x, k) + Times(y, k)
  {
  }

  lemma TimesTwice(x: int, j: int, k: int)
    ensures Times(Times(x, j), k) == Times(x, j * k) == j * Times(x, k)
  {
    Associate(x, j, k);
    Associate(j, x, k);
    assert x * j == j * x;
  }

  /** The two functions differ by the same amount on all assignments. */
  ghost predicate SameUpToConstant(f: Pb, g: Pb) {
    forall a: Assignment :: Evaluate(f, a) - Evaluate(g, a) == Evaluate(f, {}) - Evaluate(g, {})
  }

  ghost predicate SameCoefficients(f: Pb, g: Pb) {
    forall v: nat :: Times(Net(f.terms, v), f.factor) == Times(Net(g.terms, v), g.factor)
  }

  lemma {:induction false} CoefficientsDecide(f: Pb, g: Pb, a: Assignment)
    requires SameCoefficients(f, g)
    ensures Evaluate(f, a) - Evaluate(g, a) == Evaluate(f, {}) - Evaluate(g, {})
    decreases |a|
  {
    hide Evaluate, Net, Times;
    if a != {} {
      var v :| v in a;
      var b := a - {v};
      assert b + {v} == a;
      CoefficientsDecide(f, g, b);
      StepOfVariable(f, b, v);
      StepOfVariable(g, b, v);
    }
  }

  lemma StepOfVariable(f: Pb, a: Assignment, v: nat)
    requires v !in a
    ensures Evaluate(f, a + {v}) - Evaluate(f, a) == Times(Net(f.terms, v), f.factor)
  {
    SetVariable(f.terms, a, v);
    TimesSum(Value(f.terms, a), Net(f.terms, v), f.factor);
  }

  lemma SameIffCoefficients(f: Pb, g: Pb)
    ensures SameUpToConstant(f, g) <==> SameCoefficients(f, g)
  {
    hide Evaluate, Net, Times;
    if SameUpToConstant(f, g) {
      forall v: nat
        ensures Times(Net(f.terms, v), f.factor) == Times(Net(g.terms, v), g.factor)
      {
        StepOfVariable(f, {}, v);
        StepOfVariable(g, {}, v);
        assert Evaluate(f, {} + {v}) - Evaluate(g, {} + {v}) == Evaluate(f, {}) - Evaluate(g, {});
      }
    } else if SameCoefficients(f, g) {
      forall a: Assignment
        ensures Evaluate(f, a) - Evaluate(g, a) == Evaluate(f, {}) - Evaluate(g, {})
      {
        CoefficientsDecide(f, g, a);
      }
    }
  }

  function Lookup(m: map<nat, int>, v: nat): int {
    if v in m then m[v] else 0
  }

  /** What `operator==` decides: the factor of the left function scales both sides. */
  ghost predicate Matches(f: Pb, g: Pb) {
    forall v: nat :: f.factor * Times(Net(f.terms, v), f.factor) == f.factor * Times(Net(g.terms, v), g.factor)
  }

  /** `operator==`. */
  method Equal(f: Pb, g: Pb) returns (same: bool)
    ensures same <==> Matches(f, g)
  {
    hide Times, Net, Signed;
    ghost var square, cross := f.factor * f.factor, f.factor * g.factor;
    var sums: map<nat, int> := map[];
    NetNothing(f.terms, square);
    for i := 0 to |f.terms|
      invariant forall v: nat :: Lookup(sums, v) == Times(Net(f.terms[..i], v), square)
    {
      var t := f.terms[i];
      var coeff := Times(Signed(t), f.factor);
      NetLast(f.terms, i, square);
      TimesTwice(Signed(t), f.factor, f.factor);
      assert Times(coeff, f.factor) == Times(Signed(t), square);
      ghost var before := sums;
      sums := sums[t.l.v := Lookup(sums, t.l.v) + Times(coeff, f.factor)];
      forall v: nat
        ensures Lookup(sums, v) == Times(Net(f.terms[..i + 1], v), square)
      {
        assert Lookup(before, v) == Times(Net(f.terms[..i], v), square);
      }
    }
    assert f.terms[..|f.terms|] == f.terms;
    NetNothing(g.terms, cross);
    for i := 0 to |g.terms|
      invariant forall v: nat :: Lookup(sums, v) == Times(Net(f.terms, v), square) - Times(Net(g.terms[..i], v), cross)
    {
      var t := g.terms[i];
      var coeff := Times(Signed(t), f.factor);
      NetLast(g.terms, i, cross);
      TimesTwice(Signed(t), f.factor, g.factor);
      sums := sums[t.l.v := Lookup(sums, t.l.v) - Times(coeff, g.factor)];
    }
    assert g.terms[..|g.terms|] == g.terms;
    same := true;
    var vs := sums.Keys;
    while vs != {}
      invariant vs <= sums.Keys && same && forall v | v in sums.Keys - vs :: sums[v] == 0
      decreases vs
    {
      var v :| v in vs;
      if sums[v] != 0 {
        assert Lookup(sums, v) != 0;
        TimesTwice(Net(f.terms, v), f.factor, f.factor);
        TimesTwice(Net(g.terms, v), f.factor, g.factor);
        return false;
      }
      vs := vs - {v};
    }
    forall v: nat
      ensures f.factor * Times(Net(f.terms, v), f.factor) == f.factor * Times(Net(g.terms, v), g.factor)
    {
      assert Lookup(sums, v) == 0;
      TimesTwice(Net(f.terms, v), f.factor, f.factor);
      TimesTwice(Net(g.terms, v), f.factor, g.factor);
    }
  }

  lemma NetNothing(ts: seq<Term>, k: int)
    ensures forall v: nat :: Times(Net(ts[..0], v), k) == 0
  {
  }

  /** One more term changes the coefficient of its variable only. */
  lemma NetLast(ts: seq<Term>, i: nat, k: int)
    requires i < |ts|
    ensures forall v: nat ::
        Times(Net(ts[..i + 1], v), k) == Times(Net(ts[..i], v), k) +
          (if ts[i].l.v == v then Times(Signed(ts[i]), k) else 0)
  {
    assert ts[..i + 1] == ts[..i] + [ts[i]];
    forall v: nat
      ensures Times(Net(ts[..i + 1], v), k) == Times(Net(ts[..i], v), k) +
          if ts[i].l.v == v then Times(Signed(ts[i]), k) else 0
    {
      NetConcat(ts[..i], [ts[i]], v);
      TimesSum(Net(ts[..i], v), Net([ts[i]], v), k);
      assert Net([ts[i]], v) == if ts[i].l.v == v then Signed(ts[i]) else 0;
    }
  }

  lemma {:induction false} NetConcat(s: seq<Term>, t: seq<Term>, v: nat)
    ensures Net(s + t, v) == Net(s, v) + Net(t, v)
  {
    if s == [] {
      assert s + t == t;
    } else {
      NetConcat(s[1..], t, v);
      assert (s + t)[1..] == s[1..] + t;
    }
  }

  /** `operator==` holds exactly when the functions differ by a constant if and only if the factor of
      the left function is not zero or the right function is itself constant. */
  lemma MatchesIffSame(f: Pb, g: Pb)
    ensures f.factor != 0 ==> (Matches(f, g) <==> SameUpToConstant(f, g))
    ensures f.factor == 0 ==> Matches(f, g) && (SameUpToConstant(f, g) <==> SameUpToConstant(Pb([], 0, 0), g))
  {
    SameIffCoefficients(f, g);
    if f.factor == 0 {
      SameIffCoefficients(Pb([], 0, 0), g);
    } else {
      forall v: nat
        ensures f.factor * Times(Net(f.terms, v), f.factor) == f.factor * Times(Net(g.terms, v), g.factor)
           <==> Times(Net(f.terms, v), f.factor) == Times(Net(g.terms, v), g.factor)
      {
        CancelNonzero(f.factor, Times(Net(f.terms, v), f.factor), Times(Net(g.terms, v), g.factor));
      }
    }
  }

  lemma CancelNonzero(d: int, x: int, y: int)
    requires d != 0
    ensures d * x == d * y <==> x == y
  {
    Distribute(d, x, y);
    if x != y {
      NonzeroProduct(d, x - y);
    }
  }

  lemma NonzeroProduct(d: int, x: int)
    requires d != 0 && x != 0
    ensures d * x != 0
  {
  }

  /** A function with a zero factor, as one moved from, matches one that it differs from. */
  lemma ZeroFactorMatchesAnything()
    ensures var f, g := Pb([], 0, 0), Pb([Term(1, Lit(0, false))], 0, 1); Matches(f, g) && !SameUpToConstant(f, g)
  {
    var f, g := Pb([], 0, 0), Pb([Term(1, Lit(0, false))], 0, 1);
    assert Matches(f, g) by { MatchesIffSame(f, g); }
    StepOfVariable(f, {}, 0);
    StepOfVariable(g, {}, 0);
    assert Net(g.terms, 0) == 1;
    assert Evaluate(f, {} + {0}) - Evaluate(g, {} + {0}) == Evaluate(f, {}) - Evaluate(g, {}) - 1;
  }

  // ---------------------------------------------------------------- add

  /** `terms[l] += w` on a map from literals to coefficients, kept as a list. */
  function Accumulate(ts: seq<Term>, t: Term): seq<Term> {
    if ts == [] then [t]
    else if ts[0].l == t.l then [Term(ts[0].w + t.w, t.l)] + ts[1..]
    else [ts[0]] + Accumulate(ts[1..], t)
  }

  lemma {:induction false} AccumulateValue(ts: seq<Term>, t: Term)
    ensures forall a: Assignment :: Value(Accumulate(ts, t), a) == Value(ts, a) + if Holds(t.l, a) then t.w else 0
    ensures Positive(ts) && t.w > 0 ==> Positive(Accumulate(ts, t))
  {
    if ts == [] {
      assert [t][1..] == [];
    } else if ts[0].l == t.l {
      assert Accumulate(ts, t)[1..] == ts[1..];
    } else {
      AccumulateValue(ts[1..], t);
      assert Accumulate(ts, t)[1..] == Accumulate(ts[1..], t);
      assert Positive(ts) ==> Positive(ts[1..]);
    }
  }

  /** One of the two loops of `add`. */
  method AddTerms(acc: seq<Term>, f: Pb) returns (r: seq<Term>)
    requires Positive(acc) && Built(f)
    ensures Positive(r)
    ensures forall a: Assignment :: Value(r, a) == Value(acc, a) + Times(Value(f.terms, a), f.factor)
  {
    r := acc;
    NothingTimes(f.terms, f.factor);
    hide Times, Holds;
    for j := 0 to |f.terms|
      invariant Positive(r)
      invariant forall a: Assignment :: Value(r, a) == Value(acc, a) + Times(Value(f.terms[..j], a), f.factor)
    {
      TimesPositive(f.terms[j].w, f.factor);
      var t := Term(f.terms[j].w * f.factor, f.terms[j].l);
      TimesIs(f.terms[j].w, f.factor);
      AccumulateValue(r, t);
      ValueLast(f.terms, j, f.factor);
      r := Accumulate(r, t);
    }
    assert f.terms[..|f.terms|] == f.terms;
  }

  lemma TimesIs(x: int, k: int)
    ensures Times(x, k) == x * k
  {
  }

  lemma NothingTimes(ts: seq<Term>, k: int)
    ensures forall a: Assignment :: Times(Value(ts[..0], a), k) == 0
  {
  }

  lemma ValueLast(ts: seq<Term>, j: nat, x: int)
    requires j < |ts|
    ensures forall a: Assignment ::
        Times(Value(ts[..j + 1], a), x) == Times(Value(ts[..j], a), x) +
          (if Holds(ts[j].l, a) then Times(ts[j].w, x) else 0)
  {
    forall a: Assignment
      ensures Times(Value(ts[..j + 1], a), x) == Times(Value(ts[..j], a), x) +
          if Holds(ts[j].l, a) then Times(ts[j].w, x) else 0
    {
      assert ts[..j + 1] == ts[..j] + [ts[j]];
      ValueConcat(ts[..j], [ts[j]], a);
      TimesSum(Value(ts[..j], a), Value([ts[j]], a), x);
      assert [ts[j]][1..] == [];
    }
  }

  lemma {:induction false} ValueConcat(s: seq<Term>, t: seq<Term>, a: Assignment)
    ensures Value(s + t, a) == Value(s, a) + Value(t, a)
  {
    if s == [] {
      assert s + t == t;
    } else {
      ValueConcat(s[1..], t, a);
      assert (s + t)[1..] == s[1..] + t;
    }
  }

  /** `add`. */
  method Add(f: Pb, g: Pb) returns (sum: Pb)
    requires Built(f) && Built(g)
    ensures Built(sum)
    ensures forall a: Assignment :: Evaluate(sum, a) == Evaluate(f, a) + Evaluate(g, a)
  {
    var ts := AddTerms([], f);
    ts := AddTerms(ts, g);
    sum := Build(ts, f.constant + g.constant, 1);
  }
}
