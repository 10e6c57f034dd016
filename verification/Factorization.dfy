/** The greatest common divisor of coefficients by trial division of the largest one. */
module Factorization {

  predicate Divides(d: nat, n: nat) {
    d > 0 && n % d == 0
  }

  predicate Prime(p: nat) {
    p >= 2 && forall d | 2 <= d < p :: !Divides(d, p)
  }

  function Pow(b: nat, e: nat): (r: nat)
    ensures b > 0 ==> r > 0
  {
    if e == 0 then 1 else PositiveProduct(b, Pow(b, e - 1))
  }

  function PositiveProduct(x: nat, y: nat): (r: nat)
    ensures r == x * y
    ensures x > 0 && y > 0 ==> r > 0
  {
    TimesPositive(x, y);
    x * y
  }

  lemma TimesPositive(x: nat, y: nat)
    ensures x * y >= 0 && (x > 0 && y > 0 ==> x * y > 0)
  {
  }

  // ---------------------------------------------------------------- divisibility

  lemma MultipleIsDivisible(d: nat, k: nat)
    requires d > 0
    ensures d * k >= 0 && Divides(d, d * k) && (d * k) / d == k
  {
    TimesPositive(d, k);
    QuotientIsUnique(d, d * k, k);
  }

  lemma QuotientIsUnique(d: nat, n: nat, k: nat)
    requires d > 0 && n == d * k
    ensures n / d == k && n % d == 0
  {
    var q := n / d;
    assert n == d * q + n % d;
    Distribute(d, q + 1, q);
    Distribute(d, k + 1, k);
    if k > q {
      TimesMonotone(d, q + 1, k);
    } else if k < q {
      TimesMonotone(d, k + 1, q);
    }
  }

  lemma TimesMonotone(d: nat, x: int, y: int)
    requires x <= y
    ensures d * x <= d * y
  {
  }

  lemma TimesStrict(d: nat, x: int, y: int)
    requires d > 0 && x < y
    ensures d * x < d * y
  {
  }

  lemma Quotient(d: nat, n: nat) returns (k: nat)
    requires Divides(d, n)
    ensures n == d * k && k == n / d
  {
    k := n / d;
  }

  lemma DividesTransitive(a: nat, b: nat, c: nat)
    requires Divides(a, b) && Divides(b, c)
    ensures Divides(a, c)
  {
    var j := Quotient(a, b);
    var k := Quotient(b, c);
    assert c == a * (j * k) by {
      Associate(a, j, k);
    }
    TimesPositive(j, k);
    MultipleIsDivisible(a, j * k);
  }

  lemma Associate(a: int, b: int, c: int)
    ensures (a * b) * c == a * (b * c)
  {
  }

  lemma DividesProduct(d: nat, n: nat, m: nat)
    requires Divides(d, n)
    ensures n * m >= 0 && Divides(d, n * m)
  {
    TimesPositive(n, m);
    var k := Quotient(d, n);
    Associate(d, k, m);
    TimesPositive(k, m);
    MultipleIsDivisible(d, k * m);
  }

  lemma DividesDifference(d: nat, n: nat, m: nat)
    requires Divides(d, n) && Divides(d, m) && m <= n
    ensures Divides(d, n - m)
  {
    var j := Quotient(d, n);
    var k := Quotient(d, m);
    Distribute(d, j, k);
    if j < k {
      TimesStrict(d, j, k);
    } else {
      MultipleIsDivisible(d, j - k);
    }
  }

  lemma Distribute(d: int, j: int, k: int)
    ensures d * j - d * k == d * (j - k)
  {
  }

  lemma CancelFactor(d: nat, a: nat, b: nat)
    requires d > 0 && d * a > 0 && d * b >= 0 && Divides(d * a, d * b)
    ensures a > 0 && Divides(a, b)
  {
    var k := Quotient(d * a, d * b);
    Associate(d, a, k);
    assert a == 0 ==> d * a == 0;
    assert d * b == d * (a * k);
    CancelEqual(d, b, a * k);
    MultipleIsDivisible(a, k);
  }

  lemma CancelEqual(d: nat, x: int, y: int)
    requires d > 0 && d * x == d * y
    ensures x == y
  {
    if x < y {
      TimesStrict(d, x, y);
    } else if x > y {
      TimesStrict(d, y, x);
    }
  }

  /** Euclid's lemma. */
  lemma {:induction false} PrimeDividesFactor(p: nat, a: nat, b: nat)
    requires Prime(p) && a * b >= 0 && Divides(p, a * b) && !Divides(p, a)
    ensures Divides(p, b)
    decreases a
  {
    var r := a % p;
    // p divides r * b
    var q := a / p;
    assert a * b == p * (q * b) + r * b by {
      assert a == p * q + r;
      SplitProduct(p, q, r, b);
    }
    TimesPositive(q, b);
    TimesPositive(r, b);
    MultipleIsDivisible(p, q * b);
    DividesDifference(p, a * b, p * (q * b));
    assert Divides(p, r * b);
    if r == 1 {
    } else {
      var t, s := p / r, p % r;
      assert s > 0 by {
        assert !Divides(r, p);
      }
      // p divides s * b
      assert p == r * t + s;
      SplitProduct(r, t, s, b);
      TimesPositive(t, b);
      TimesPositive(s, b);
      assert p * b == r * (t * b) + s * b;
      assert r * (t * b) == (r * b) * t by {
        Associate(r, t, b);
        Associate(r, b, t);
        assert t * b == b * t;
      }
      DividesProduct(p, r * b, t);
      MultipleIsDivisible(p, b);
      DividesDifference(p, p * b, (r * b) * t);
      assert Divides(p, s * b);
      NotDividesSmaller(p, s);
      PrimeDividesFactor(p, s, b);
    }
  }

  lemma NotDividesSmaller(p: nat, s: nat)
    requires 0 < s < p
    ensures !Divides(p, s)
  {
  }

  lemma SplitProduct(p: int, q: int, r: int, b: int)
    ensures (p * q + r) * b == p * (q * b) + r * b
  {
    Associate(p, q, b);
  }

  lemma DistinctPrimes(p: nat, q: nat)
    requires Prime(p) && Prime(q) && p != q
    ensures !Divides(p, q)
  {
    if p > q {
      NotDividesSmaller(p, q);
    }
  }

  /** A power of a prime that divides `x` times another prime divides `x`. */
  lemma {:induction false} PowerSkipsPrime(q: nat, k: nat, p: nat, x: nat)
    requires Prime(p) && Prime(q) && p != q && p * x >= 0 && Divides(Pow(q, k), p * x)
    ensures Divides(Pow(q, k), x)
    decreases k
  {
    if k > 0 {
      var m := Pow(q, k - 1);
      assert Pow(q, k) == q * m;
      MultipleIsDivisible(q, m);
      DividesTransitive(q, q * m, p * x);
      DistinctPrimes(q, p);
      PrimeDividesFactor(q, p, x);
      var y := Quotient(q, x);
      assert p * x == q * (p * y) by {
        Associate(p, q, y);
        Associate(q, p, y);
        assert p * q == q * p;
      }
      TimesPositive(p, y);
      CancelFactor(q, m, p * y);
      PowerSkipsPrime(q, k - 1, p, y);
      var z := Quotient(m, y);
      Associate(q, m, z);
      MultipleIsDivisible(q * m, z);
    }
  }

  lemma {:induction false} PowerSkipsPower(q: nat, k: nat, p: nat, e: nat, x: nat)
    requires Prime(p) && Prime(q) && p != q && Pow(p, e) * x >= 0 && Divides(Pow(q, k), Pow(p, e) * x)
    ensures Divides(Pow(q, k), x)
    decreases e
  {
    if e > 0 {
      Associate(p, Pow(p, e - 1), x);
      TimesPositive(Pow(p, e - 1), x);
      PowerSkipsPrime(q, k, p, Pow(p, e - 1) * x);
      PowerSkipsPower(q, k, p, e - 1, x);
    }
  }

  /** Every number from 2 on has a prime divisor. */
  lemma {:induction false} HasPrimeDivisor(d: nat) returns (p: nat)
    requires d >= 2
    ensures Prime(p) && Divides(p, d)
    decreases d
  {
    if Prime(d) {
      p := d;
    } else {
      var e :| 2 <= e < d && Divides(e, d);
      p := HasPrimeDivisor(e);
      DividesTransitive(p, e, d);
    }
  }

  // ---------------------------------------------------------------- ordered factors

  datatype Factor = Factor(prime: nat, count: nat)

  /** The map from primes to exponents, in the order of its keys. */
  ghost predicate Ordered(fs: seq<Factor>) {
    && (forall i | 0 <= i < |fs| :: Prime(fs[i].prime))
    && forall i, j | 0 <= i < j < |fs| :: fs[i].prime < fs[j].prime
  }

  function Product(fs: seq<Factor>): (r: nat)
    ensures (forall i | 0 <= i < |fs| :: fs[i].prime > 0) ==> r > 0
  {
    if fs == [] then 1
    else PositiveProduct(Product(fs[..|fs| - 1]), Pow(fs[|fs| - 1].prime, fs[|fs| - 1].count))
  }

  /** `factors[d]++` for a key that is at least the last one. */
  function Bump(fs: seq<Factor>, d: nat): seq<Factor> {
    if |fs| > 0 && fs[|fs| - 1].prime == d then fs[..|fs| - 1] + [Factor(d, fs[|fs| - 1].count + 1)]
    else fs + [Factor(d, 1)]
  }

  lemma BumpProduct(fs: seq<Factor>, d: nat)
    ensures Product(Bump(fs, d)) == Product(fs) * d
  {
    var b := Bump(fs, d);
    if |fs| > 0 && fs[|fs| - 1].prime == d {
      var init, e := fs[..|fs| - 1], fs[|fs| - 1].count;
      assert b[..|b| - 1] == init;
      assert Pow(d, e + 1) == d * Pow(d, e);
      Associate(Product(init), Pow(d, e), d);
    } else {
      assert b[..|b| - 1] == fs;
      assert Pow(d, 1) == d * Pow(d, 0) == d;
    }
  }

  /** A prime divides the product only if it is one of the factors. */
  lemma {:induction false} PrimeOfProduct(fs: seq<Factor>, p: nat) returns (i: nat)
    requires Ordered(fs) && Prime(p) && Divides(p, Product(fs))
    ensures i < |fs| && fs[i].prime == p
    decreases |fs|
  {
    if |fs| == 0 {
      NotDividesSmaller(p, 1);
    } else {
      var init, last := fs[..|fs| - 1], fs[|fs| - 1];
      if last.prime == p {
        i := |fs| - 1;
      } else {
        var x := Product(init);
        assert Product(fs) == Pow(last.prime, last.count) * x;
        assert Pow(p, 1) == p * Pow(p, 0) == p;
        PowerSkipsPower(p, 1, last.prime, last.count, x);
        i := PrimeOfProduct(init, p);
      }
    }
  }

  /** The exponent of each factor is as large as it can be. */
  lemma {:induction false} ExponentIsExact(fs: seq<Factor>, i: nat)
    requires Ordered(fs) && i < |fs|
    ensures !Divides(Pow(fs[i].prime, fs[i].count + 1), Product(fs))
    decreases |fs|
  {
    var init, last := fs[..|fs| - 1], fs[|fs| - 1];
    var p, e := fs[i].prime, fs[i].count;
    if Divides(Pow(p, e + 1), Product(fs)) {
      if i < |fs| - 1 {
        assert Product(fs) == Pow(last.prime, last.count) * Product(init);
        hide Divides, Pow, Product, Prime;
        PowerSkipsPower(p, e + 1, last.prime, last.count, Product(init));
        ExponentIsExact(init, i);
      } else {
        assert Product(fs) == Pow(p, e) * Product(init);
        assert Pow(p, e + 1) == Pow(p, e) * p;
        hide Divides, Pow, Product, Prime;
        CancelFactor(Pow(p, e), p, Product(init));
        var j := PrimeOfProduct(init, p);
      }
    }
  }

  /** Powers of distinct primes that divide a number divide it together. */
  lemma {:induction false} ProductDivides(fs: seq<Factor>, c: nat)
    requires Ordered(fs) && forall i | 0 <= i < |fs| :: Divides(Pow(fs[i].prime, fs[i].count), c)
    ensures Divides(Product(fs), c)
    decreases |fs|
  {
    if fs != [] {
      var init, last := fs[..|fs| - 1], fs[|fs| - 1];
      var w := Pow(last.prime, last.count);
      var x := Quotient(w, c);
      forall i | 0 <= i < |init|
        ensures Divides(Pow(init[i].prime, init[i].count), x)
      {
        PowerSkipsPower(fs[i].prime, fs[i].count, last.prime, last.count, x);
      }
      ProductDivides(init, x);
      var k := Quotient(Product(init), x);
      assert c == Product(fs) * k by {
        assert Product(fs) == w * Product(init);
        Associate(w, Product(init), k);
      }
      MultipleIsDivisible(Product(fs), k);
    }
  }

  // ---------------------------------------------------------------- trial division

  predicate NoDivisorBelow(n: nat, d: nat) {
    forall e | 2 <= e < d :: !Divides(e, n)
  }

  lemma SmallestDivisorIsPrime(n: nat, d: nat)
    requires d >= 2 && NoDivisorBelow(n, d) && Divides(d, n)
    ensures Prime(d)
  {
    forall e | 2 <= e < d
      ensures !Divides(e, d)
    {
      if Divides(e, d) {
        DividesTransitive(e, d, n);
      }
    }
  }

  lemma QuotientKeepsBound(n: nat, d: nat)
    requires d >= 2 && NoDivisorBelow(n, d) && Divides(d, n) && d * d <= n
    ensures 2 <= n / d < n && NoDivisorBelow(n / d, d) && (n / d) * d == n
  {
    var k := Quotient(d, n);
    assert k >= d by {
      if k < d {
        TimesStrict(d, k, d);
      }
    }
    assert k < n;
    forall e | 2 <= e < d
      ensures !Divides(e, k)
    {
      if Divides(e, k) {
        assert n == k * d;
        DividesProduct(e, k, d);
      }
    }
  }

  /** A number without divisors up to its square root is prime. */
  lemma UndividedIsPrime(n: nat, d: nat)
    requires n >= 2 && d >= 2 && NoDivisorBelow(n, d) && d * d > n
    ensures Prime(n) && d <= n
  {
    forall e | 2 <= e < n
      ensures !Divides(e, n)
    {
      if Divides(e, n) {
        var k := Quotient(e, n);
        assert k >= 2 by {
          assert k != 0 && k != 1;
        }
        if e >= d && k >= d {
          TimesMonotone(e, d, k);
          TimesMonotone(d, d, e);
        }
        assert n == k * e;
        MultipleIsDivisible(k, e);
      }
    }
    assert Divides(n, n);
  }

  /** All factors are primes up to `d`. */
  ghost predicate UpTo(fs: seq<Factor>, d: nat) {
    Ordered(fs) && forall i | 0 <= i < |fs| :: fs[i].prime <= d
  }

  lemma BumpKeepsOrder(fs: seq<Factor>, d: nat)
    requires UpTo(fs, d) && Prime(d)
    ensures UpTo(Bump(fs, d), d)
  {
    hide Prime;
  }

  lemma UpToMore(fs: seq<Factor>, d: nat, e: nat)
    requires UpTo(fs, d) && d <= e
    ensures UpTo(fs, e)
  {
    hide Prime;
  }

  lemma NextCandidate(n: nat, d: nat)
    requires NoDivisorBelow(n, d) && d >= 2 && n % d != 0
    ensures NoDivisorBelow(n, d + 1)
  {
  }

  /** The first block of `factorize`: the prime factors of the largest coefficient. */
  method PrimeFactors(n: nat) returns (fs: seq<Factor>)
    requires n >= 2
    ensures Ordered(fs) && Product(fs) == n
  {
    hide Prime, NoDivisorBelow, UpTo, Bump, Product;
    fs := [];
    assert Product(fs) == 1 && UpTo(fs, 2) && NoDivisorBelow(n, 2) by { NoFactors(n); }
    var cur, d := n, 2;
    while d * d <= cur
      invariant d >= 2 && cur >= 2 && UpTo(fs, d) && Product(fs) * cur == n && NoDivisorBelow(cur, d)
      decreases cur, if d <= cur then cur - d else 0
    {
      AtMostSquare(d);
      if cur % d == 0 {
        SmallestDivisorIsPrime(cur, d);
        QuotientKeepsBound(cur, d);
        BumpProduct(fs, d);
        BumpKeepsOrder(fs, d);
        Associate(Product(fs), d, cur / d);
        fs := Bump(fs, d);
        cur := cur / d;
      } else {
        NextCandidate(cur, d);
        UpToMore(fs, d, d + 1);
        d := d + 1;
      }
    }
    UndividedIsPrime(cur, d);
    UpToMore(fs, d, cur);
    BumpProduct(fs, cur);
    BumpKeepsOrder(fs, cur);
    fs := Bump(fs, cur);
    assert Ordered(fs) by { UpToIsOrdered(fs, cur); }
  }

  lemma NoFactors(n: nat)
    ensures Product([]) == 1 && UpTo([], 2) && NoDivisorBelow(n, 2)
  {
  }

  lemma UpToIsOrdered(fs: seq<Factor>, d: nat)
    requires UpTo(fs, d)
    ensures Ordered(fs)
  {
  }

  lemma AtMostSquare(d: nat)
    ensures d <= d * d
  {
    if d > 0 {
      TimesMonotone(d, 1, d);
    }
  }

  // ---------------------------------------------------------------- minimum exponents

  /** The number is `n`, at most `bound`, and the largest for which the power divides `c`. */
  ghost predicate Exponent(p: nat, bound: nat, c: nat, n: nat) {
    n <= bound && Divides(Pow(p, n), c) && (n < bound ==> !Divides(Pow(p, n + 1), c))
  }

  /** The innermost loop: how often `p` divides `c`, up to `bound`. */
  method CountDivisions(p: nat, bound: nat, c: nat) returns (n: nat)
    requires p >= 2
    ensures Exponent(p, bound, c, n)
  {
    n := 0;
    var cur := c;
    while n < bound && cur % p == 0
      invariant n <= bound && c == Pow(p, n) * cur
    {
      assert cur == p * (cur / p);
      Associate(Pow(p, n), p, cur / p);
      assert Pow(p, n + 1) == Pow(p, n) * p;
      n := n + 1;
      cur := cur / p;
    }
    MultipleIsDivisible(Pow(p, n), cur);
    if n < bound && Divides(Pow(p, n + 1), c) {
      assert Pow(p, n + 1) == Pow(p, n) * p;
      CancelFactor(Pow(p, n), p, cur);
    }
  }

  /** The power of each prime divides all of `cs`, and the next power misses one of them or
      one of the numbers that set the initial exponents. */
  ghost predicate Common(fs: seq<Factor>, start: seq<Factor>, cs: seq<nat>) {
    && |fs| == |start|
    && (forall i | 0 <= i < |fs| :: fs[i].prime == start[i].prime && fs[i].count <= start[i].count)
    && (forall i, c | 0 <= i < |fs| && c in cs :: Divides(Pow(fs[i].prime, fs[i].count), c))
    && forall i | 0 <= i < |fs| && fs[i].count < start[i].count :: NextMisses(fs[i], cs)
  }

  ghost predicate NextMisses(f: Factor, cs: seq<nat>) {
    exists c :: c in cs && !Divides(Pow(f.prime, f.count + 1), c)
  }

  lemma {:induction false} SmallerPowerDivides(p: nat, m: nat, n: nat, c: nat)
    requires p > 0 && m <= n && Divides(Pow(p, n), c)
    ensures Divides(Pow(p, m), c)
    decreases n
  {
    if m < n {
      assert Pow(p, n) == Pow(p, n - 1) * p;
      MultipleIsDivisible(Pow(p, n - 1), p);
      DividesTransitive(Pow(p, n - 1), Pow(p, n), c);
      SmallerPowerDivides(p, m, n - 1, c);
    }
  }

  /** One exponent is lowered to what divides the next coefficient. */
  lemma LoweredStaysCommon(f: Factor, n: nat, cs: seq<nat>, c: nat)
    requires f.prime >= 2 && Exponent(f.prime, f.count, c, n)
    requires forall x | x in cs :: Divides(Pow(f.prime, f.count), x)
    ensures forall x | x in cs + [c] :: Divides(Pow(f.prime, n), x)
    ensures n < f.count || NextMisses(f, cs) ==> NextMisses(Factor(f.prime, n), cs + [c])
  {
    forall x | x in cs
      ensures Divides(Pow(f.prime, n), x)
    {
      SmallerPowerDivides(f.prime, n, f.count, x);
    }
    if n < f.count {
      assert c in cs + [c];
    } else if NextMisses(f, cs) {
      var x :| x in cs && !Divides(Pow(f.prime, f.count + 1), x);
      assert x in cs + [c];
    }
  }

  /** The second block of `factorize`: lower every exponent to what divides every coefficient. */
  method CommonExponents(start: seq<Factor>, cs: seq<nat>) returns (fs: seq<Factor>)
    requires Ordered(start)
    ensures Common(fs, start, cs)
  {
    fs := start;
    for k := 0 to |cs|
      invariant Common(fs, start, cs[..k])
    {
      ghost var before := fs;
      for i := 0 to |fs|
        invariant |fs| == |before| == |start|
        invariant forall j | i <= j < |fs| :: fs[j] == before[j]
        invariant forall j | 0 <= j < i :: fs[j].prime == start[j].prime && fs[j].count <= start[j].count
        invariant forall j, c | 0 <= j < i && c in cs[..k] + [cs[k]] :: Divides(Pow(fs[j].prime, fs[j].count), c)
        invariant forall j | 0 <= j < i && fs[j].count < start[j].count :: NextMisses(fs[j], cs[..k] + [cs[k]])
      {
        var n := CountDivisions(fs[i].prime, fs[i].count, cs[k]);
        LoweredStaysCommon(before[i], n, cs[..k], cs[k]);
        fs := fs[i := Factor(fs[i].prime, n)];
      }
      assert cs[..k + 1] == cs[..k] + [cs[k]];
    }
    assert cs[..|cs|] == cs;
  }

  // ---------------------------------------------------------------- the greatest common divisor

  /** Some of the numbers divided by `g` is not a multiple of `d`. */
  ghost predicate Misses(d: nat, g: nat, cs: seq<nat>)
    requires g > 0
  {
    exists c :: c in cs && !Divides(d, c / g)
  }

  /** `g` divides all of `cs`, and what is left of them has no common divisor. */
  ghost predicate IsGcd(g: nat, cs: seq<nat>) {
    && g > 0 && (forall c | c in cs :: Divides(g, c))
    && forall d: nat | d >= 2 :: Misses(d, g, cs)
  }

  lemma CommonIsOrdered(fs: seq<Factor>, start: seq<Factor>, cs: seq<nat>)
    requires Ordered(start) && Common(fs, start, cs)
    ensures Ordered(fs) && |fs| == |start| && forall i | 0 <= i < |fs| :: fs[i].prime == start[i].prime
  {
  }

  lemma CommonIsGcd(fs: seq<Factor>, start: seq<Factor>, cs: seq<nat>)
    requires Ordered(start) && Common(fs, start, cs) && Product(start) in cs
    ensures IsGcd(Product(fs), cs)
  {
    CommonIsOrdered(fs, start, cs);
    var g := Product(fs);
    hide Ordered, Pow, NextMisses, Divides, Misses, Product;
    forall c | c in cs
      ensures Divides(g, c)
    {
      ProductDivides(fs, c);
    }
    forall d: nat | d >= 2
      ensures Misses(d, g, cs)
    {
      NothingCommonIsLeft(fs, start, cs, d);
    }
  }

  /** Some coefficient is no multiple of the next power of a factor. */
  lemma NextPowerMisses(fs: seq<Factor>, start: seq<Factor>, cs: seq<nat>, i: nat) returns (c: nat)
    requires Ordered(start) && Common(fs, start, cs) && Product(start) in cs && i < |fs|
    ensures c in cs && !Divides(Pow(fs[i].prime, fs[i].count + 1), c)
  {
    if fs[i].count < start[i].count {
      assert NextMisses(fs[i], cs);
      c :| c in cs && !Divides(Pow(fs[i].prime, fs[i].count + 1), c);
    } else {
      ExponentIsExact(start, i);
      c := Product(start);
    }
  }

  lemma NothingCommonIsLeft(fs: seq<Factor>, start: seq<Factor>, cs: seq<nat>, d: nat)
    requires Ordered(start) && Ordered(fs) && Common(fs, start, cs) && Product(start) in cs && d >= 2
    requires Product(fs) > 0 && forall c | c in cs :: Divides(Product(fs), c)
    ensures Misses(d, Product(fs), cs)
  {
    hide Pow, Ordered, Common, Product, Prime, Divides;
    var g := Product(fs);
    var p := HasPrimeDivisor(d);
    if forall c | c in cs :: Divides(d, c / g) {
      var max := Product(start);
      DividesTransitive(p, d, max / g);
      var k := Quotient(g, max);
      assert k * g == g * k;
      DividesProduct(p, k, g);
      CommonIsOrdered(fs, start, cs);
      var i := PrimeOfProduct(start, p);
      var c := NextPowerMisses(fs, start, cs, i);
      DividesTransitive(p, d, c / g);
      PowerTimesQuotient(fs, i, c);
    }
  }

  /** If a prime still divides the quotient, its next power divides the number. */
  lemma PowerTimesQuotient(fs: seq<Factor>, i: nat, c: nat)
    requires Ordered(fs) && i < |fs| && Product(fs) > 0 && Divides(Product(fs), c) &&
        Divides(fs[i].prime, c / Product(fs))
    ensures Divides(Pow(fs[i].prime, fs[i].count + 1), c)
  {
    var g, p, w := Product(fs), fs[i].prime, Pow(fs[i].prime, fs[i].count);
    PowerDividesProduct(fs, i);
    assert Pow(p, fs[i].count + 1) == w * p;
    hide Pow, Ordered, Product, Divides, Prime;
    var x := Quotient(g, c);
    var y := Quotient(p, x);
    var z := Quotient(w, g);
    // c == (w * z) * (p * y) == (w * p) * (z * y)
    Rearrange(w, z, p, y);
    TimesPositive(z, y);
    MultipleIsDivisible(w * p, z * y);
  }

  lemma Rearrange(w: int, z: int, p: int, y: int)
    ensures (w * z) * (p * y) == (w * p) * (z * y)
  {
    Associate(w, z, p * y);
    Associate(z, p, y);
    Associate(p, z, y);
    Associate(w, p, z * y);
    assert z * p == p * z;
  }

  lemma {:induction false} PowerDividesProduct(fs: seq<Factor>, i: nat)
    requires Ordered(fs) && i < |fs|
    ensures Divides(Pow(fs[i].prime, fs[i].count), Product(fs))
    decreases |fs|
  {
    var init, last := fs[..|fs| - 1], fs[|fs| - 1];
    assert Product(fs) == Product(init) * Pow(last.prime, last.count);
    if i < |init| {
      PowerDividesProduct(init, i);
      DividesProduct(Pow(fs[i].prime, fs[i].count), Product(init), Pow(last.prime, last.count));
    } else {
      assert Product(fs) == Pow(last.prime, last.count) * Product(init);
      MultipleIsDivisible(Pow(last.prime, last.count), Product(init));
    }
  }
}
