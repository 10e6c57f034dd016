/** Breaking a weighted objective into parts whose sum is the objective again. */
module Stratification {
  import opened Cnf
  import opened Factorization
  import opened PbFunction

  predicate Descending(ts: seq<Term>) {
    forall i, j | 0 <= i < j < |ts| :: ts[i].w >= ts[j].w
  }

  function Total(ts: seq<Term>): nat {
    if ts == [] then 0 else ts[0].w + Total(ts[1..])
  }

  lemma {:induction false} TotalConcat(s: seq<Term>, t: seq<Term>)
    ensures Total(s + t) == Total(s) + Total(t)
  {
    if s == [] {
      assert s + t == t;
    } else {
      TotalConcat(s[1..], t);
      assert (s + t)[1..] == s[1..] + t;
    }
  }

  /** Insertion into the multimap: behind all entries of at least the same weight. */
  function Inserted(ts: seq<Term>, t: Term): seq<Term> {
    if ts == [] || ts[0].w < t.w then [t] + ts else [ts[0]] + Inserted(ts[1..], t)
  }

  lemma {:induction false} InsertedMeaning(ts: seq<Term>, t: Term)
    ensures forall a: Assignment :: Value(Inserted(ts, t), a) == Value(ts, a) + if Holds(t.l, a) then t.w else 0
    ensures Total(Inserted(ts, t)) == Total(ts) + t.w
    ensures Positive(ts) && t.w > 0 ==> Positive(Inserted(ts, t))
    ensures forall x :: x in Inserted(ts, t) ==> x in ts || x == t
  {
    if ts == [] || ts[0].w < t.w {
      assert ([t] + ts)[1..] == ts;
    } else {
      InsertedMeaning(ts[1..], t);
      assert Inserted(ts, t)[1..] == Inserted(ts[1..], t);
      assert Positive(ts) ==> Positive(ts[1..]);
    }
  }

  lemma {:induction false} InsertedDescends(ts: seq<Term>, t: Term)
    requires Descending(ts)
    ensures Descending(Inserted(ts, t))
  {
    if ts == [] || ts[0].w < t.w {
    } else {
      InsertedDescends(ts[1..], t);
      InsertedMeaning(ts[1..], t);
      var r := Inserted(ts[1..], t);
      forall j | 0 <= j < |r|
        ensures ts[0].w >= r[j].w
      {
        assert r[j] in r;
      }
    }
  }

  /** The literals of the terms of one weight, in their order. */
  function LitsOf(ts: seq<Term>, w: nat): seq<Lit> {
    if ts == [] then [] else (if ts[0].w == w then [ts[0].l] else []) + LitsOf(ts[1..], w)
  }

  lemma {:induction false} LitsConcat(s: seq<Term>, t: seq<Term>, w: nat)
    ensures LitsOf(s + t, w) == LitsOf(s, w) + LitsOf(t, w)
  {
    if s == [] {
      assert s + t == t;
    } else {
      LitsConcat(s[1..], t, w);
      assert (s + t)[1..] == s[1..] + t && (s + t)[0] == s[0];
      var first := if s[0].w == w then [s[0].l] else [];
      assert first + (LitsOf(s[1..], w) + LitsOf(t, w)) == (first + LitsOf(s[1..], w)) + LitsOf(t, w);
    }
  }

  /** Insertion adds the literal to those of its weight. */
  lemma {:induction false} InsertedLits(ts: seq<Term>, t: Term, w: nat)
    ensures multiset(LitsOf(Inserted(ts, t), w)) ==
        multiset(LitsOf(ts, w)) + if t.w == w then multiset{t.l} else multiset{}
  {
    if ts == [] || ts[0].w < t.w {
      assert ([t] + ts)[1..] == ts;
    } else {
      InsertedLits(ts[1..], t, w);
      assert Inserted(ts, t)[1..] == Inserted(ts[1..], t);
    }
  }

  /** The terms with their true coefficients. */
  function TrueTerms(f: Pb): seq<Term>
    requires Built(f)
  {
    seq(|f.terms|, i requires 0 <= i < |f.terms| => Term(Times(f.terms[i].w, f.factor), f.terms[i].l))
  }

  // ---------------------------------------------------------------- the remainders of a head

  /** The multiple of `m` that stands for a weight, and what is left of the term. */
  function Proxy(w: nat, m: nat): nat
    requires m > 0
  {
    if w < m then m else w / m * m
  }

  /** The remaining term: on the same literal, or on its negation when the proxy is too large. */
  function Remainder(t: Term, m: nat): Term
    requires m > 0
  {
    if t.w < m then Term(m - t.w, t.l.Not()) else Term(t.w % m, t.l)
  }

  /** What the negated literal adds on all assignments. */
  function Shift(t: Term, m: nat): int
    requires m > 0
  {
    if t.w < m then t.w - m else 0
  }

  lemma ProxyAndRemainder(t: Term, m: nat, a: Assignment)
    requires m > 0 && t.w > 0
    ensures Proxy(t.w, m) / m >= 1 && Proxy(t.w, m) == (Proxy(t.w, m) / m) * m
    ensures (if Holds(t.l, a) then t.w else 0)
            == (if Holds(t.l, a) then Proxy(t.w, m) else 0) +
                (if Holds(Remainder(t, m).l, a) then Remainder(t, m).w else 0) + Shift(t, m)
  {
    if t.w < m {
      QuotientIsUnique(m, m, 1);
      assert Holds(t.l.Not(), a) == !Holds(t.l, a);
    } else {
      var q := t.w / m;
      assert t.w == m * q + t.w % m;
      assert q * m == m * q;
      QuotientIsUnique(m, q * m, q);
      assert q == 0 ==> m * q == 0;
    }
  }

  /** What is not zero of the remainders goes back to the list. */
  function Restored(ts: seq<Term>, head: seq<Term>, m: nat): seq<Term>
    requires m > 0
    decreases |head|
  {
    if head == [] then ts
    else
      var r := Remainder(head[0], m);
      Restored(if r.w > 0 then Inserted(ts, r) else ts, head[1..], m)
  }

  function Shifts(head: seq<Term>, m: nat): int
    requires m > 0
  {
    if head == [] then 0 else Shift(head[0], m) + Shifts(head[1..], m)
  }

  lemma RestoredStep(ts: seq<Term>, head: seq<Term>, i: nat, m: nat)
    requires i < |head| && m > 0
    ensures Shifts(head[i..], m) == Shift(head[i], m) + Shifts(head[i + 1..], m)
    ensures var r := Remainder(head[i], m);
      Restored(ts, head[i..], m) == Restored(if r.w > 0 then Inserted(ts, r) else ts, head[i + 1..], m)
  {
    assert head[i..][1..] == head[i + 1..];
  }

  lemma NothingRestored(ts: seq<Term>, m: nat)
    requires m > 0
    ensures Restored(ts, [], m) == ts && Shifts([], m) == 0
  {
  }

  /** The sums of one head: the weights and what remains of them. */
  function Remaining(head: seq<Term>, m: nat): nat
    requires m > 0
  {
    if head == [] then 0 else Remainder(head[0], m).w + Remaining(head[1..], m)
  }

  /** How far the weights of at least `m` exceed it, and how far the others fall short of it. */
  function Excess(head: seq<Term>, m: nat): nat {
    if head == [] then 0 else (if head[0].w >= m then head[0].w - m else 0) + Excess(head[1..], m)
  }

  function Shortfall(head: seq<Term>, m: nat): nat {
    if head == [] then 0 else (if head[0].w < m then m - head[0].w else 0) + Shortfall(head[1..], m)
  }

  /** How many weights reach `m`. */
  function Reaching(head: seq<Term>, m: nat): nat {
    if head == [] then 0 else (if head[0].w >= m then 1 else 0) + Reaching(head[1..], m)
  }

  lemma {:induction false} ExcessBalances(head: seq<Term>, m: nat)
    ensures Total(head) + Shortfall(head, m) == |head| * m + Excess(head, m)
    ensures Reaching(head, m) == 0 ==> Excess(head, m) == 0 && Shortfall(head, m) >= |head|
  {
    if head != [] {
      ExcessBalances(head[1..], m);
      OneMoreTimes(|head[1..]|, m);
    }
  }

  lemma OneMoreTimes(n: nat, m: nat)
    ensures (n + 1) * m == n * m + m
  {
  }

  /** A remainder modulo `m` leaves out at least `m`; a shortfall is taken as it is. */
  lemma {:induction false} RemainingBound(head: seq<Term>, m: nat)
    requires m > 0
    ensures Remaining(head, m) + Excess(head, m) + Reaching(head, m) <= Total(head) + Shortfall(head, m)
  {
    if head != [] {
      RemainingBound(head[1..], m);
    }
  }

  /** With the mean of the head as threshold, what remains of it weighs strictly less. */
  lemma RemainingIsLess(head: seq<Term>, m: nat)
    requires head != [] && m > 0 && m == Total(head) / |head|
    ensures Remaining(head, m) < Total(head)
  {
    hide Remaining, Total, Excess, Reaching, Shortfall;
    ExcessBalances(head, m);
    RemainingBound(head, m);
    assert Total(head) == |head| * m + Total(head) % |head|;
  }

  lemma {:induction false} TotalAtLeastSize(ts: seq<Term>)
    requires Positive(ts)
    ensures Total(ts) >= |ts|
  {
    if ts != [] {
      assert Positive(ts[1..]);
      TotalAtLeastSize(ts[1..]);
    }
  }

  lemma MeanIsPositive(head: seq<Term>)
    requires head != [] && Positive(head)
    ensures Total(head) / |head| > 0
  {
    TotalAtLeastSize(head);
    var m := Total(head) / |head|;
    assert Total(head) == |head| * m + Total(head) % |head|;
    assert m == 0 ==> |head| * m == 0;
  }

  /** Each term stands for the multiple of `m` that is closest below its weight, or for `m` itself. */
  predicate StandsFor(f: Pb, head: seq<Term>, m: nat) {
    && m > 0 && |f.terms| == |head|
    && forall i | 0 <= i < |head| ::
        f.terms[i].l == head[i].l && Times(f.terms[i].w, f.factor) == Proxy(head[i].w, m)
  }

  /** With the mean of the head as threshold: the shift and the list that the part leaves, and its
      coefficients have no common divisor. */
  ghost predicate Leaves(f: Pb, head: seq<Term>, rest: seq<Term>, left: seq<Term>) {
    && head != [] && f.terms != [] && IsGcd(1, Weights(f.terms))
    && var m := Total(head) / |head|; m > 0 && f.constant == Shifts(head, m) && left == Restored(rest, head, m)
  }

  // ---------------------------------------------------------------- where a head stops

  /** How many groups of equal weights follow each other. */
  function Groups(ts: seq<Term>): (n: nat)
    ensures n == 0 <==> ts == []
  {
    if ts == [] then 0
    else Groups(ts[..|ts| - 1]) + if |ts| == 1 || ts[|ts| - 2].w != ts[|ts| - 1].w then 1 else 0
  }

  /** The terms fill their groups: at least `param` of them per group. */
  predicate Dense(ts: seq<Term>, param: nat) {
    ts != [] && |ts| / Groups(ts) >= param
  }

  predicate Boundary(ts: seq<Term>, k: nat) {
    0 < k < |ts| && ts[k - 1].w != ts[k].w
  }

  /** The first dense prefix that ends with a group, or everything when there is none. */
  predicate IsHead(head: seq<Term>, rest: seq<Term>, param: nat) {
    && (head == [] ==> rest == [])
    && (rest != [] ==> Dense(head, param) && head[|head| - 1].w > rest[0].w)
    && forall k: nat | k < |head| && Boundary(head, k) :: !Dense(head[..k], param)
  }

  /** No prefix that ends with a group is dense so far. */
  predicate OpenHead(head: seq<Term>, rest: seq<Term>, param: nat) {
    && !Dense(head, param)
    && (head != [] && rest != [] ==> head[|head| - 1].w != rest[0].w)
    && forall k: nat | k < |head| && Boundary(head, k) :: !Dense(head[..k], param)
  }

  lemma HeadStarts(lits: seq<Term>, param: nat)
    ensures Groups([]) == 0 && OpenHead([], lits, param)
  {
  }

  lemma HeadEnds(head: seq<Term>, param: nat)
    requires OpenHead(head, [], param)
    ensures IsHead(head, [], param)
  {
  }

  /** What a head of `n` terms leaves of the list. */
  function Left(ts: seq<Term>, n: nat): seq<Term> {
    if 0 < n <= |ts| && Total(ts[..n]) / n > 0 then Restored(ts[n..], ts[..n], Total(ts[..n]) / n) else ts
  }

  /** The part of the head of the list: the multiples of the mean, shifted, without a common divisor. */
  ghost predicate IsPart(f: Pb, ts: seq<Term>, param: nat) {
    && Built(f) && 0 < |f.terms| <= |ts| && IsHead(ts[..|f.terms|], ts[|f.terms|..], param)
    && StandsFor(f, ts[..|f.terms|], Total(ts[..|f.terms|]) / |f.terms|)
    && Leaves(f, ts[..|f.terms|], ts[|f.terms|..], Left(ts, |f.terms|))
  }

  predicate Uniform(group: seq<Term>, w: nat) {
    group != [] && forall i | 0 <= i < |group| :: group[i].w == w
  }

  lemma {:induction false} GroupAdded(ts: seq<Term>, group: seq<Term>, w: nat)
    requires Uniform(group, w) && (ts != [] ==> ts[|ts| - 1].w != w)
    ensures Groups(ts + group) == Groups(ts) + 1
  {
    var n := |group| - 1;
    assert (ts + group)[..|ts| + n] == ts + group[..n];
    if n == 0 {
      assert ts + group[..0] == ts;
    } else {
      GroupAdded(ts, group[..n], w);
    }
  }

  /** One more group keeps the prefixes that end with a group, and adds the one before it. */
  lemma BoundariesAdded(ts: seq<Term>, group: seq<Term>, w: nat, param: nat)
    requires Uniform(group, w)
    requires forall k: nat | k < |ts| && Boundary(ts, k) :: !Dense(ts[..k], param)
    requires ts != [] ==> !Dense(ts, param)
    ensures forall k: nat | k < |ts + group| && Boundary(ts + group, k) :: !Dense((ts + group)[..k], param)
  {
    hide Dense;
    var all := ts + group;
    forall k: nat | k < |all| && Boundary(all, k)
      ensures !Dense(all[..k], param)
    {
      if k < |ts| {
        assert Boundary(ts, k) && all[..k] == ts[..k];
      } else {
        assert all[k] == group[k - |ts|];
        assert k == |ts| && all[..k] == ts;
      }
    }
  }

  /** Taking one more group closes the head when it has become dense, and leaves it open otherwise. */
  lemma GroupTaken(taken: seq<Term>, group: seq<Term>, rest: seq<Term>, w: nat, param: nat)
    requires Uniform(group, w) && OpenHead(taken, group + rest, param) && Descending(group + rest)
    requires rest != [] ==> rest[0].w != w
    ensures Groups(taken + group) == Groups(taken) + 1
    ensures if |taken + group| / (Groups(taken) + 1) >= param then IsHead(taken + group, rest, param)
        else OpenHead(taken + group, rest, param)
  {
    hide Groups;
    GroupAdded(taken, group, w);
    BoundariesAdded(taken, group, w, param);
    GroupEnds(group, rest);
    var head := taken + group;
    assert head[|head| - 1] == group[|group| - 1] && (group + rest)[0] == group[0];
  }

  // ---------------------------------------------------------------- the partitioner

  class Partitioner {
    var lits: seq<Term>
    var litsCopy: seq<Term>
    var param: nat

    ghost predicate Valid()
      reads this
    {
      Positive(lits) && Descending(lits) && Positive(litsCopy) && Descending(litsCopy)
    }

    /** All terms with their true coefficients, the largest first. */
    constructor (f: Pb)
      requires Built(f)
      ensures Valid() && litsCopy == lits && param == 0
      ensures forall a: Assignment :: Value(lits, a) == Evaluate(f, a) - f.constant
      ensures lits == [] <==> f.terms == []
      ensures forall w: nat :: multiset(LitsOf(lits, w)) == multiset(LitsOf(TrueTerms(f), w))
    {
      var ts: seq<Term> := [];
      NothingTimes(f.terms, f.factor);
      for i := 0 to |f.terms|
        invariant Positive(ts) && Descending(ts) && (ts == [] <==> i == 0)
        invariant forall a: Assignment :: Value(ts, a) == Times(Value(f.terms[..i], a), f.factor)
        invariant forall w: nat :: multiset(LitsOf(ts, w)) == multiset(LitsOf(TrueTerms(f)[..i], w))
      {
        TimesPositive(f.terms[i].w, f.factor);
        var t := Term(f.terms[i].w * f.factor, f.terms[i].l);
        InsertedMeaning(ts, t);
        InsertedDescends(ts, t);
        ValueLast(f.terms, i, f.factor);
        TrueLast(f, i, ts, t);
        ts := Inserted(ts, t);
      }
      assert f.terms[..|f.terms|] == f.terms && TrueTerms(f)[..|f.terms|] == TrueTerms(f);
      lits, litsCopy, param := ts, ts, 0;
    }

    /** The inner loop of `head`: move the leading terms of equal weight. */
    method TakeGroup() returns (group: seq<Term>)
      requires lits != []
      modifies this`lits
      ensures Uniform(group, old(lits)[0].w) && group + lits == old(lits)
      ensures lits != [] ==> lits[0].w != old(lits)[0].w
    {
      var w := lits[0].w;
      group := [];
      while lits != [] && lits[0].w == w
        invariant group + lits == old(lits) && (group == [] ==> lits == old(lits)) &&
            (group != [] ==> Uniform(group, w))
        decreases |lits|
      {
        group, lits := group + [lits[0]], lits[1..];
      }
    }

    /** `head`: whole groups of equal weights, until there are enough literals per group. */
    method Head() returns (head: seq<Term>)
      requires Valid()
      modifies this`lits
      ensures Valid() && head + lits == old(lits) && IsHead(head, lits, param)
    {
      hide Positive, Descending, Groups, Uniform, Dense, IsHead, OpenHead;
      var wn, n := 0, 0;
      head := [];
      HeadStarts(lits, param);
      while lits != []
        invariant Valid() && head + lits == old(lits) && n == |head| && wn == Groups(head)
        invariant OpenHead(head, lits, param)
        decreases |lits|
      {
        ghost var taken, w := head, lits[0].w;
        var group := TakeGroup();
        SuffixKeeps(group, lits);
        GroupTaken(taken, group, lits, w, param);
        assert taken + (group + lits) == (taken + group) + lits;
        head := head + group;
        n := n + |group|;
        wn := wn + 1;
        if n / wn >= param {
          return;
        }
      }
      HeadEnds(head, param);
    }

    /** `mean`. */
    method Mean(head: seq<Term>) returns (m: nat)
      requires head != []
      ensures m == Total(head) / |head|
    {
      var total := 0;
      for i := 0 to |head|
        invariant total + Total(head[i..]) == Total(head)
      {
        total := total + head[i].w;
        assert head[i..][1..] == head[i + 1..];
      }
      m := total / |head|;
    }

    /** A remainder goes back to the list. */
    method PutBack(remain: Term)
      requires Valid() && remain.w > 0
      modifies this`lits
      ensures Valid() && lits == Inserted(old(lits), remain) && Total(lits) == Total(old(lits)) + remain.w
      ensures forall a: Assignment :: Value(lits, a) == Value(old(lits), a) + if Holds(remain.l, a) then remain.w else 0
    {
      InsertedMeaning(lits, remain);
      InsertedDescends(lits, remain);
      lits := Inserted(lits, remain);
    }

    /** The loop of `headUnitary`: the multiples of `m` form the part, the rest goes back. */
    method Unitary(head: seq<Term>, m: nat) returns (part: seq<Term>, shift: int)
      requires Valid() && Positive(head) && m > 0
      modifies this`lits
      ensures Valid() && StandsFor(Pb(part, 0, m), head, m) && Positive(part)
      ensures forall a: Assignment ::
          Times(Value(part, a), m) + shift + Value(lits, a) == Value(head, a) + Value(old(lits), a)
      ensures Total(lits) == Total(old(lits)) + Remaining(head, m)
      ensures lits == Restored(old(lits), head, m) && shift == Shifts(head, m)
    {
      part, shift := [], 0;
      PartStarts(head, m);
      assert StandsFor(Pb([], 0, m), head[..0], m);
      hide Value, Remaining, Total, Holds, Proxy, Remainder, Shift, Times, Positive, Descending, Restored, Shifts,
           Inserted, StandsFor;
      for i := 0 to |head|
        invariant Valid() && StandsFor(Pb(part, 0, m), head[..i], m) && |part| == i && Positive(part)
        invariant forall a: Assignment ::
          Value(head[i..], a) + Times(Value(part, a), m) + shift + Value(lits, a) == Value(head, a) +
              Value(old(lits), a)
        invariant Total(lits) + Remaining(head[i..], m) == Total(old(lits)) + Remaining(head, m)
        invariant Restored(lits, head[i..], m) == Restored(old(lits), head, m)
        invariant shift + Shifts(head[i..], m) == Shifts(head, m)
      {
        RestoredStep(lits, head, i, m);
        PartStep(head, i, m, part);
        var cur := head[i].w;
        var proxy := Proxy(cur, m);
        var remain := Remainder(head[i], m);
        PartStands(part, head, i, m);
        part := part + [Term(proxy / m, head[i].l)];
        if remain.w > 0 {
          PutBack(remain);
        }
        shift := shift + Shift(head[i], m);
      }
      assert head[|head|..] == [] && head[..|head|] == head;
      NothingRestored(lits, m);
      PartEnds(m);
    }

    /** `headUnitary`: one part; what remains goes back to the list. Together they are worth what the
        list was worth, and the list has become strictly lighter. */
    method HeadUnitary() returns (f: Pb)
      requires Valid()
      modifies this`lits
      ensures Valid() && Built(f)
      ensures f.terms != [] ==> IsPart(f, old(lits), param) && lits == Left(old(lits), |f.terms|)
      ensures forall a: Assignment :: Evaluate(f, a) + Value(lits, a) == Value(old(lits), a)
      ensures old(lits) != [] ==> Total(lits) < Total(old(lits))
      ensures f.terms == [] <==> old(lits) == []
      ensures old(lits) == [] ==> lits == [] && f == Pb([], 0, 1)
    {
      var head := Head();
      ghost var rest := lits;
      HeadIsPrefix(head, rest, old(lits), param);
      if |head| == 0 {
        return Pb([], 0, 1);
      }
      hide Total, Remaining, Positive, Descending, Value, IsHead, StandsFor, SameScaled;
      PrefixKeeps(head, rest);
      MeanIsPositive(head);
      var m := Mean(head);
      RemainingIsLess(head, m);
      TotalConcat(head, rest);
      var part, shift := Unitary(head, m);
      f := Build(part, shift, m);
      StandsStill(Pb(part, shift, m), f, head, m);
      SameSize(f, head, m);
      forall a: Assignment
        ensures Evaluate(f, a) + Value(lits, a) == Value(old(lits), a)
      {
        ValueConcat(head, rest, a);
        TimesIs(Value(part, a), m);
      }
    }

    /** `tail`: everything that is left. */
    method Tail() returns (f: Pb)
      requires Valid()
      ensures Built(f) && (f.terms == [] <==> lits == [])
      ensures forall a: Assignment :: Evaluate(f, a) == Value(lits, a)
      ensures SameScaled(Pb(lits, 0, 1), f) && f.constant == 0
    {
      f := Build(lits, 0, 1);
    }

    method ResetTerms()
      requires Valid()
      modifies this`lits
      ensures Valid() && lits == litsCopy
    {
      lits := litsCopy;
    }

    method BumpParam()
      modifies this`param
      ensures param == old(param) + 1
    {
      param := param + 1;
    }
  }

  lemma TrueLast(f: Pb, i: nat, ts: seq<Term>, t: Term)
    requires Built(f) && i < |f.terms| && t == Term(f.terms[i].w * f.factor, f.terms[i].l)
    requires forall w: nat :: multiset(LitsOf(ts, w)) == multiset(LitsOf(TrueTerms(f)[..i], w))
    ensures forall w: nat :: multiset(LitsOf(Inserted(ts, t), w)) == multiset(LitsOf(TrueTerms(f)[..i + 1], w))
  {
    TimesIs(f.terms[i].w, f.factor);
    var all := TrueTerms(f);
    assert all[..i + 1] == all[..i] + [t];
    forall w: nat
      ensures multiset(LitsOf(Inserted(ts, t), w)) == multiset(LitsOf(all[..i + 1], w))
    {
      InsertedLits(ts, t, w);
      LitsConcat(all[..i], [t], w);
      assert [t][1..] == [];
    }
  }

  lemma HeadIsPrefix(head: seq<Term>, rest: seq<Term>, all: seq<Term>, param: nat)
    requires head + rest == all && IsHead(head, rest, param)
    ensures all[..|head|] == head && all[|head|..] == rest && (head == [] <==> all == [])
  {
  }

  lemma SameSize(f: Pb, head: seq<Term>, m: nat)
    requires StandsFor(f, head, m)
    ensures |f.terms| == |head|
  {
  }

  lemma GroupEnds(group: seq<Term>, rest: seq<Term>)
    requires Descending(group + rest) && group != []
    requires rest != [] ==> rest[0].w != group[|group| - 1].w
    ensures rest != [] ==> group[|group| - 1].w > rest[0].w
  {
    var ts := group + rest;
    assert ts[|group| - 1] == group[|group| - 1];
    assert rest != [] ==> ts[|group|] == rest[0];
  }

  lemma SuffixKeeps(s: seq<Term>, t: seq<Term>)
    ensures Positive(s + t) ==> Positive(t)
    ensures Descending(s + t) ==> Descending(t)
  {
    assert forall i | 0 <= i < |t| :: t[i] == (s + t)[|s| + i];
  }

  lemma PrefixKeeps(s: seq<Term>, t: seq<Term>)
    ensures Positive(s + t) ==> Positive(s)
  {
    assert forall i | 0 <= i < |s| :: s[i] == (s + t)[i];
  }

  lemma PartStarts(head: seq<Term>, m: nat)
    requires m > 0
    ensures head[0..] == head && forall a: Assignment :: Times(Value([], a), m) == 0
    ensures Positive([])
  {
  }

  lemma PartEnds(m: nat)
    requires m > 0
    ensures Remaining([], m) == 0 && forall a: Assignment :: Value([], a) == 0
  {
  }

  lemma PartStands(part: seq<Term>, head: seq<Term>, i: nat, m: nat)
    requires i < |head| && m > 0 && Positive(head) && StandsFor(Pb(part, 0, m), head[..i], m)
    ensures StandsFor(Pb(part + [Term(Proxy(head[i].w, m) / m, head[i].l)], 0, m), head[..i + 1], m)
  {
    ProxyAndRemainder(head[i], m, {});
  }

  lemma StandsStill(f: Pb, g: Pb, head: seq<Term>, m: nat)
    requires StandsFor(Pb(f.terms, 0, f.factor), head, m) && SameScaled(f, g)
    ensures StandsFor(g, head, m)
  {
  }

  /** One term of the head moves into the part, its remainder and its shift. */
  lemma PartStep(head: seq<Term>, i: nat, m: nat, part: seq<Term>)
    requires i < |head| && m > 0 && Positive(head) && Positive(part)
    ensures var t, k, r := head[i], Proxy(head[i].w, m) / m, Remainder(head[i], m);
      && Positive(part + [Term(k, t.l)])
      && Remaining(head[i..], m) == r.w + Remaining(head[i + 1..], m)
      && forall a: Assignment ::
          Value(head[i..], a) + Times(Value(part, a), m)
          == Value(head[i + 1..], a) + Times(Value(part + [Term(k, t.l)], a), m) + (if Holds(r.l, a) then r.w else 0) +
              Shift(t, m)
  {
    var t, k, r := head[i], Proxy(head[i].w, m) / m, Remainder(head[i], m);
    assert head[i..][1..] == head[i + 1..];
    ProxyAndRemainder(t, m, {});
    forall a: Assignment
      ensures Value(head[i..], a) + Times(Value(part, a), m)
          == Value(head[i + 1..], a) + Times(Value(part + [Term(k, t.l)], a), m) + (if Holds(r.l, a) then r.w else 0) +
              Shift(t, m)
    {
      ProxyAndRemainder(t, m, a);
      PartGrows(part, k, t.l, m, a);
      TimesIs(k, m);
    }
  }

  lemma PartGrows(part: seq<Term>, w: nat, l: Lit, m: nat, a: Assignment)
    ensures Times(Value(part + [Term(w, l)], a), m) == Times(Value(part, a), m) + if Holds(l, a) then Times(w, m) else 0
  {
    ValueConcat(part, [Term(w, l)], a);
    assert [Term(w, l)][1..] == [];
    TimesSum(Value(part, a), Value([Term(w, l)], a), m);
  }

  // ---------------------------------------------------------------- the layers of an objective

  /** The first `n` terms are those of the largest weight. */
  predicate FirstGroup(ts: seq<Term>, n: nat) {
    0 < n <= |ts| && Uniform(ts[..n], ts[0].w) && (n < |ts| ==> ts[n].w != ts[0].w)
  }

  /** The terms of a group with coefficient 1, and their weight as factor. */
  predicate IsUnit(f: Pb, group: seq<Term>) {
    && group != [] && |f.terms| == |group| && f.factor == group[0].w && f.constant == 0
    && forall i | 0 <= i < |group| :: f.terms[i] == Term(1, group[i].l)
  }

  /** The parts are those of the leading groups, one after the other, in front of what is left. */
  predicate Layered(ts: seq<Term>, parts: seq<Pb>, rest: seq<Term>) {
    if parts == [] then rest == ts
    else
      var n := |parts[0].terms|;
      FirstGroup(ts, n) && IsUnit(parts[0], ts[..n]) && Layered(ts[n..], parts[1..], rest)
  }

  /** Without a demand on groups, the head is the first group. */
  lemma FirstHead(f: Pb, all: seq<Term>, left: seq<Term>)
    requires Built(f) && Positive(all) && Descending(all) && f.terms != [] && |f.terms| <= |all|
    requires IsHead(all[..|f.terms|], all[|f.terms|..], 0)
    requires StandsFor(f, all[..|f.terms|], Total(all[..|f.terms|]) / |f.terms|)
    requires Leaves(f, all[..|f.terms|], all[|f.terms|..], left)
    ensures FirstGroup(all, |f.terms|) && IsUnit(f, all[..|f.terms|]) && left == all[|f.terms|..]
  {
    var n := |f.terms|;
    var head, w := all[..n], all[0].w;
    HeadIsGroup(all, n);
    UniformTotal(head, w);
    assert Total(head) / n == w by { MeanOfUniform(Total(head), n, w); }
    UniformRestored(all[n..], head, w);
    UnitCoefficients(f, head, w);
  }

  lemma HeadIsGroup(all: seq<Term>, n: nat)
    requires 0 < n <= |all| && IsHead(all[..n], all[n..], 0)
    ensures FirstGroup(all, n)
  {
    var head := all[..n];
    forall i | 0 <= i < n
      ensures head[i].w == head[0].w
    {
      SameAsFirst(head, all[n..], i);
    }
  }

  lemma {:induction false} SameAsFirst(head: seq<Term>, rest: seq<Term>, i: nat)
    requires i < |head| && IsHead(head, rest, 0)
    ensures head[i].w == head[0].w
  {
    if i > 0 {
      SameAsFirst(head, rest, i - 1);
      assert Dense(head[..i], 0);
      assert !Boundary(head, i);
    }
  }

  lemma {:induction false} UniformTotal(ts: seq<Term>, w: nat)
    requires forall i | 0 <= i < |ts| :: ts[i].w == w
    ensures Total(ts) == |ts| * w
  {
    if ts != [] {
      UniformTotal(ts[1..], w);
      OneMoreTimes(|ts| - 1, w);
    }
  }

  lemma MeanOfUniform(total: nat, n: nat, w: nat)
    requires n > 0 && total == n * w
    ensures total / n == w
  {
    QuotientIsUnique(n, total, w);
  }

  lemma {:induction false} UniformRestored(ts: seq<Term>, head: seq<Term>, w: nat)
    requires w > 0 && forall i | 0 <= i < |head| :: head[i].w == w
    ensures Restored(ts, head, w) == ts && Shifts(head, w) == 0
  {
    if head != [] {
      assert w % w == 0;
      UniformRestored(ts, head[1..], w);
    }
  }

  /** Equal true coefficients without a common divisor are all 1. */
  lemma UnitCoefficients(f: Pb, head: seq<Term>, w: nat)
    requires Built(f) && StandsFor(f, head, w) && head != [] && w > 0 && IsGcd(1, Weights(f.terms))
    requires forall i | 0 <= i < |head| :: head[i].w == w
    ensures f.factor == w && forall i | 0 <= i < |head| :: f.terms[i] == Term(1, head[i].l)
  {
    var c := f.terms[0].w;
    QuotientIsUnique(w, w, 1);
    assert f.terms[0].l == head[0].l;
    forall i | 0 <= i < |head|
      ensures f.terms[i].w == c && f.terms[i].l == head[i].l
    {
      TimesIs(c, f.factor);
      TimesIs(f.terms[i].w, f.factor);
      CancelFactor(c, f.terms[i].w, f.factor);
    }
    WeightsMembers(f.terms);
    if c >= 2 {
      EqualDivides(c, Weights(f.terms));
    }
    TimesIs(c, f.factor);
  }

  lemma EqualDivides(c: nat, cs: seq<nat>)
    requires c >= 2 && forall x | x in cs :: x == c
    ensures !Misses(c, 1, cs)
  {
    QuotientIsUnique(c, c, 1);
    assert forall x: nat :: x / 1 == x;
  }

  lemma CancelFactor(x: nat, y: nat, k: nat)
    requires k > 0 && x * k == y * k
    ensures x == y
  {
    QuotientIsUnique(k, x * k, x);
    QuotientIsUnique(k, x * k, y);
  }

  lemma {:induction false} LayerAppended(ts: seq<Term>, parts: seq<Pb>, mid: seq<Term>, f: Pb)
    requires Layered(ts, parts, mid) && FirstGroup(mid, |f.terms|) && IsUnit(f, mid[..|f.terms|])
    ensures Layered(ts, parts + [f], mid[|f.terms|..])
  {
    if parts == [] {
      assert (parts + [f])[1..] == [];
    } else {
      LayerAppended(ts[|parts[0].terms|..], parts[1..], mid, f);
      assert (parts + [f])[1..] == parts[1..] + [f];
    }
  }

  function WeightsOf(ts: seq<Term>): set<nat> {
    set t | t in ts :: t.w
  }

  /** What follows the first group weighs less. */
  lemma LaterIsLess(ts: seq<Term>, n: nat)
    requires Descending(ts) && FirstGroup(ts, n)
    ensures Descending(ts[n..]) && forall t | t in ts[n..] :: t.w < ts[0].w
  {
    forall t | t in ts[n..]
      ensures t.w < ts[0].w
    {
      var j :| 0 <= j < |ts[n..]| && ts[n..][j] == t;
      assert ts[n..][j] == ts[n + j] && ts[n].w >= ts[n + j].w && ts[0].w >= ts[n].w;
    }
  }

  /** The first group takes its weight and no other. */
  lemma GroupTakesWeight(ts: seq<Term>, n: nat)
    requires FirstGroup(ts, n)
    ensures WeightsOf(ts) == {ts[0].w} + WeightsOf(ts[n..])
  {
    assert ts[0] in ts;
    forall t | t in ts
      ensures t.w == ts[0].w || t in ts[n..]
    {
      var j :| 0 <= j < |ts| && ts[j] == t;
      if j < n {
        assert ts[..n][j] == t;
      } else {
        assert ts[n..][j - n] == t;
      }
    }
  }

  /** The first group takes all literals of its weight and none of any other. */
  lemma GroupTakesLits(ts: seq<Term>, n: nat, w: nat)
    requires Descending(ts) && FirstGroup(ts, n)
    ensures LitsOf(ts, w) == if w == ts[0].w then LitsOf(ts[..n], w) else LitsOf(ts[n..], w)
  {
    hide LitsOf, Descending;
    LaterIsLess(ts, n);
    assert ts == ts[..n] + ts[n..];
    LitsConcat(ts[..n], ts[n..], w);
    NoLitsOf(if w == ts[0].w then ts[n..] else ts[..n], w);
  }

  lemma {:induction false} NoLitsOf(ts: seq<Term>, w: nat)
    requires forall t | t in ts :: t.w != w
    ensures LitsOf(ts, w) == []
  {
    if ts != [] {
      assert ts[0] in ts && forall t | t in ts[1..] :: t in ts;
      NoLitsOf(ts[1..], w);
    }
  }

  /** A part has coefficients 1, the weight as factor, and the literals of the weight. */
  predicate IsLayer(ts: seq<Term>, part: Pb, w: nat) {
    && part.factor == w && part.constant == 0 && (forall t | t in part.terms :: t.w == 1)
    && multiset(LitsOf(part.terms, 1)) == multiset(LitsOf(ts, w))
  }

  lemma {:induction false} UnitLits(f: seq<Term>, group: seq<Term>, w: nat)
    requires |f| == |group| && forall i | 0 <= i < |group| :: f[i] == Term(1, group[i].l) && group[i].w == w
    ensures LitsOf(f, 1) == LitsOf(group, w)
  {
    if f != [] {
      UnitLits(f[1..], group[1..], w);
    }
  }

  /** Each part is the layer of its factor, and the factors fall from part to part. */
  predicate AreLayers(ts: seq<Term>, parts: seq<Pb>) {
    && (forall k | 0 <= k < |parts| ::
        parts[k].factor in WeightsOf(ts) && IsLayer(ts, parts[k], parts[k].factor))
    && forall j, k | 0 <= j < k < |parts| :: parts[j].factor > parts[k].factor
  }

  /** The layers are as many as the weights that they leave out, largest weight first. */
  lemma {:induction false} LayersAreWeights(ts: seq<Term>, parts: seq<Pb>, rest: seq<Term>)
    requires Descending(ts) && Layered(ts, parts, rest)
    ensures |WeightsOf(ts)| == |parts| + |WeightsOf(rest)| && AreLayers(ts, parts)
  {
    hide IsUnit, AreLayers, WeightsOf, Descending, Uniform;
    if parts == [] {
      NoLayers(ts);
    } else {
      var n := |parts[0].terms|;
      LaterIsLess(ts, n);
      LayersAreWeights(ts[n..], parts[1..], rest);
      OneMoreWeight(ts, n);
      OneMoreLayer(ts, n, parts);
    }
  }

  lemma NoLayers(ts: seq<Term>)
    ensures AreLayers(ts, [])
  {
  }

  lemma OneMoreWeight(ts: seq<Term>, n: nat)
    requires FirstGroup(ts, n) && forall t | t in ts[n..] :: t.w < ts[0].w
    ensures |WeightsOf(ts)| == 1 + |WeightsOf(ts[n..])|
  {
    GroupTakesWeight(ts, n);
    assert ts[0].w !in WeightsOf(ts[n..]);
  }

  lemma OneMoreLayer(ts: seq<Term>, n: nat, parts: seq<Pb>)
    requires Descending(ts) && FirstGroup(ts, n)
    requires parts != [] && n == |parts[0].terms| && IsUnit(parts[0], ts[..n])
    requires AreLayers(ts[n..], parts[1..])
    ensures AreLayers(ts, parts)
  {
    hide Descending, LitsOf;
    GroupTakesWeight(ts, n);
    FirstLayer(ts, n, parts[0]);
    LaterIsLess(ts, n);
    forall k | 1 <= k < |parts|
      ensures parts[k].factor in WeightsOf(ts) && parts[k].factor < ts[0].w && IsLayer(ts, parts[k], parts[k].factor)
    {
      assert parts[k] == parts[1..][k - 1];
      GroupTakesLits(ts, n, parts[k].factor);
    }
    forall j, k | 0 <= j < k < |parts|
      ensures parts[j].factor > parts[k].factor
    {
      assert parts[k] == parts[1..][k - 1] && (j > 0 ==> parts[j] == parts[1..][j - 1]);
    }
  }

  lemma FirstLayer(ts: seq<Term>, n: nat, f: Pb)
    requires Descending(ts) && FirstGroup(ts, n) && n == |f.terms| && IsUnit(f, ts[..n])
    ensures f.factor == ts[0].w && IsLayer(ts, f, ts[0].w)
  {
    hide Descending, LitsOf;
    GroupTakesLits(ts, n, ts[0].w);
    UnitLits(f.terms, ts[..n], ts[0].w);
    forall t | t in f.terms
      ensures t.w == 1
    {
      var i :| 0 <= i < n && f.terms[i] == t;
      assert f.terms[i] == Term(1, ts[..n][i].l);
    }
  }

  lemma {:induction false} WeightHasLits(ts: seq<Term>, w: nat)
    ensures w in WeightsOf(ts) <==> LitsOf(ts, w) != []
  {
    if ts != [] {
      WeightHasLits(ts[1..], w);
      assert ts == [ts[0]] + ts[1..];
    }
  }

  /** Lists with the same literals per weight have the same layers. */
  lemma SameLayers(ts: seq<Term>, us: seq<Term>, parts: seq<Pb>)
    requires forall w: nat :: multiset(LitsOf(ts, w)) == multiset(LitsOf(us, w))
    ensures WeightsOf(ts) == WeightsOf(us) && (AreLayers(ts, parts) ==> AreLayers(us, parts))
  {
    hide LitsOf;
    forall w: nat
      ensures w in WeightsOf(ts) <==> w in WeightsOf(us)
    {
      hide WeightsOf;
      WeightHasLits(ts, w);
      WeightHasLits(us, w);
      assert |multiset(LitsOf(ts, w))| == |multiset(LitsOf(us, w))|;
    }
  }

  // ---------------------------------------------------------------- the heads of one round

  /** The parts are those of successive heads, down to `rest`. */
  ghost predicate Peeled(ts: seq<Term>, param: nat, parts: seq<Pb>, rest: seq<Term>)
    decreases |parts|
  {
    if parts == [] then rest == ts
    else IsPart(parts[0], ts, param) && Peeled(Left(ts, |parts[0].terms|), param, parts[1..], rest)
  }

  lemma NonePeeled(ts: seq<Term>, param: nat)
    ensures Peeled(ts, param, [], ts) && forall a: Assignment :: SumOf([], a) == 0
  {
  }

  lemma {:induction false} PeelOne(ts: seq<Term>, param: nat, parts: seq<Pb>, mid: seq<Term>, f: Pb)
    requires Peeled(ts, param, parts, mid) && IsPart(f, mid, param)
    ensures Peeled(ts, param, parts + [f], Left(mid, |f.terms|))
    decreases |parts|
  {
    hide IsPart, Left;
    if parts == [] {
      assert (parts + [f])[1..] == [];
    } else {
      PartFits(parts[0], ts, param);
      PeelOne(Left(ts, |parts[0].terms|), param, parts[1..], mid, f);
      assert (parts + [f])[1..] == parts[1..] + [f];
    }
  }

  lemma PartFits(f: Pb, ts: seq<Term>, param: nat)
    requires IsPart(f, ts, param)
    ensures 0 < |f.terms| <= |ts|
  {
  }

  /** A head that leaves something is dense and ends with its group. */
  lemma HeadCloses(ts: seq<Term>, n: nat, param: nat)
    requires 0 < n < |ts| && IsHead(ts[..n], ts[n..], param)
    ensures ts[n - 1].w != ts[n].w && Dense(ts[..n], param)
  {
    hide Dense;
    assert ts[n..][0] == ts[n] && ts[..n][n - 1] == ts[n - 1];
  }

  /** No shorter prefix that ends with a group is dense. */
  lemma ShorterIsOpen(ts: seq<Term>, n: nat, m: nat, param: nat)
    requires 0 < n < m <= |ts| && IsHead(ts[..m], ts[m..], param) && ts[n - 1].w != ts[n].w
    ensures !Dense(ts[..n], param)
  {
    hide Dense;
    assert ts[..m][..n] == ts[..n] && ts[..m][n] == ts[n] && ts[..m][n - 1] == ts[n - 1];
    assert Boundary(ts[..m], n);
  }

  /** The parameter decides where a head stops. */
  lemma SameHead(f: Pb, g: Pb, ts: seq<Term>, param: nat)
    requires IsPart(f, ts, param) && IsPart(g, ts, param)
    ensures |f.terms| == |g.terms|
  {
    hide Leaves, StandsFor, Dense, IsHead;
    var n, m := |f.terms|, |g.terms|;
    if n < m {
      HeadCloses(ts, n, param);
      ShorterIsOpen(ts, n, m, param);
    } else if m < n {
      HeadCloses(ts, m, param);
      ShorterIsOpen(ts, m, n, param);
    }
  }

  /** The heads that exhaust the list are the first ones of any longer row. */
  lemma {:induction false} NoneAfterLast(ts: seq<Term>, param: nat, few: seq<Pb>, many: seq<Pb>, rest: seq<Term>)
    requires Peeled(ts, param, few, []) && Peeled(ts, param, many, rest) && |few| <= |many|
    ensures rest == [] && |few| == |many|
    decreases |few|
  {
    hide IsPart, Left;
    if few == [] {
      if many != [] {
        PartFits(many[0], ts, param);
      }
    } else {
      PartFits(few[0], ts, param);
      SameHead(few[0], many[0], ts, param);
      NoneAfterLast(Left(ts, |few[0].terms|), param, few[1..], many[1..], rest);
    }
  }

  /** Without a demand on groups, the parts are the layers. */
  lemma {:induction false} PeeledLayers(ts: seq<Term>, parts: seq<Pb>, rest: seq<Term>)
    requires Positive(ts) && Descending(ts) && Peeled(ts, 0, parts, rest)
    ensures Layered(ts, parts, rest)
  {
    hide Positive, Descending, FirstGroup, IsUnit, IsHead, StandsFor, Leaves, Left;
    if parts != [] {
      var n := |parts[0].terms|;
      FirstHead(parts[0], ts, Left(ts, n));
      assert ts[..n] + ts[n..] == ts;
      SuffixKeeps(ts[..n], ts[n..]);
      PeeledLayers(ts[n..], parts[1..], rest);
    }
  }

  // ---------------------------------------------------------------- conversion

  function SumOf(fs: seq<Pb>, a: Assignment): int {
    if fs == [] then 0 else Evaluate(fs[0], a) + SumOf(fs[1..], a)
  }

  predicate AllBuilt(fs: seq<Pb>) {
    forall i | 0 <= i < |fs| :: Built(fs[i])
  }

  lemma {:induction false} SumConcat(s: seq<Pb>, t: seq<Pb>, a: Assignment)
    ensures SumOf(s + t, a) == SumOf(s, a) + SumOf(t, a)
  {
    if s == [] {
      assert s + t == t;
    } else {
      SumConcat(s[1..], t, a);
      assert (s + t)[1..] == s[1..] + t;
    }
  }

  lemma SumAppend(fs: seq<Pb>, f: Pb)
    ensures forall a: Assignment :: SumOf(fs + [f], a) == SumOf(fs, a) + Evaluate(f, a)
  {
    forall a: Assignment
      ensures SumOf(fs + [f], a) == SumOf(fs, a) + Evaluate(f, a)
    {
      SumConcat(fs, [f], a);
    }
  }

  const PARAMS := 200
  const PARTS := 30

  /** The innermost loop of `convert`: heads until the list is empty or there are 30 parts. */
  method Heads(exec: Partitioner) returns (parts: seq<Pb>)
    requires exec.Valid()
    modifies exec`lits
    ensures exec.Valid() && AllBuilt(parts)
    ensures forall a: Assignment :: SumOf(parts, a) + Value(exec.lits, a) == Value(old(exec.lits), a)
    ensures Peeled(old(exec.lits), exec.param, parts, exec.lits)
    ensures |parts| <= 30 && (exec.lits == [] || |parts| == 30) && (parts == [] ==> old(exec.lits) == [])
  {
    hide IsHead, StandsFor, Leaves, Peeled, Positive, Descending, Value, Evaluate, IsPart, Left;
    parts := [];
    ghost var mid := exec.lits;
    NonePeeled(mid, exec.param);
    var pb := exec.HeadUnitary();
    while |pb.terms| > 0
      invariant exec.Valid() && AllBuilt(parts) && Built(pb) && |parts| < PARTS
      invariant if pb.terms == [] then exec.lits == mid == []
          else IsPart(pb, mid, exec.param) && exec.lits == Left(mid, |pb.terms|)
      invariant Peeled(old(exec.lits), exec.param, parts, mid) && (parts == [] ==> mid == old(exec.lits))
      invariant forall a: Assignment :: SumOf(parts, a) + Value(mid, a) == Value(old(exec.lits), a)
      invariant forall a: Assignment :: Evaluate(pb, a) + Value(exec.lits, a) == Value(mid, a)
      decreases Total(exec.lits), |pb.terms|
    {
      SumAppend(parts, pb);
      PeelOne(old(exec.lits), exec.param, parts, mid, pb);
      parts := parts + [pb];
      if |parts| == PARTS {
        return;
      }
      mid := exec.lits;
      pb := exec.HeadUnitary();
    }
  }

  /** Some row of at most 30 heads exhausts the list. */
  ghost predicate Suffices(all: seq<Term>, param: nat) {
    exists parts :: |parts| <= 30 && Peeled(all, param, parts, [])
  }

  /** The list of the partitioner: positive, the largest weight first, and per weight the literals of
      the objective. */
  ghost predicate Sorted(f: Pb, all: seq<Term>)
    requires Built(f)
  {
    && Positive(all) && Descending(all)
    && forall w: nat :: multiset(LitsOf(all, w)) == multiset(LitsOf(TrueTerms(f), w))
  }

  /** The parts are the heads for `param`, all of them when at most 30 suffice; else there are 30 and
      one more part holds the list they leave. */
  ghost predicate Chosen(all: seq<Term>, param: nat, parts: seq<Pb>) {
    if |parts| <= 30 then Peeled(all, param, parts, [])
    else param == 199 && |parts| == 31 && exists rest :: IsTail(all, param, parts, rest)
  }

  ghost predicate IsTail(all: seq<Term>, param: nat, parts: seq<Pb>, rest: seq<Term>)
    requires |parts| == 31
  {
    && Peeled(all, param, parts[..30], rest) && rest != []
    && SameScaled(Pb(rest, 0, 1), parts[30]) && parts[30].constant == 0
  }

  /** `param` is the smallest parameter below 200 for which 30 heads suffice, if there is one. */
  ghost predicate Converted(f: Pb, all: seq<Term>, param: nat, parts: seq<Pb>)
    requires Built(f)
  {
    && Sorted(f, all) && Chosen(all, param, parts) && param < 200
    && forall p: nat | p < param :: !Suffices(all, p)
  }

  /** One part per weight, the largest first: its coefficients are 1, its factor is the weight, and its
      literals are those of the weight. */
  ghost predicate Layers(f: Pb, parts: seq<Pb>)
    requires Built(f)
  {
    |parts| == |WeightsOf(TrueTerms(f))| && AreLayers(TrueTerms(f), parts)
  }

  /** Thirty heads and a rest: no row of at most thirty heads suffices. */
  lemma DoesNotSuffice(all: seq<Term>, param: nat, parts: seq<Pb>, rest: seq<Term>)
    requires Peeled(all, param, parts, rest) && |parts| == 30 && rest != []
    ensures !Suffices(all, param)
  {
    hide Peeled;
    if few :| |few| <= 30 && Peeled(all, param, few, []) {
      NoneAfterLast(all, param, few, parts, rest);
    }
  }

  /** The first round yields the layers, as far as thirty parts go. */
  lemma FirstRound(f: Pb, all: seq<Term>, parts: seq<Pb>, rest: seq<Term>)
    requires Built(f) && Sorted(f, all) && Peeled(all, 0, parts, rest)
    ensures rest == [] ==> Layers(f, parts)
    ensures rest != [] ==> |WeightsOf(TrueTerms(f))| > |parts|
  {
    hide Peeled, Layered, LitsOf, AreLayers, TrueTerms;
    PeeledLayers(all, parts, rest);
    LayersAreWeights(all, parts, rest);
    SameLayers(all, TrueTerms(f), parts);
    if rest != [] {
      assert rest[0] in rest && rest[0].w in WeightsOf(rest);
    } else {
      assert WeightsOf(rest) == {};
    }
  }

  lemma NothingIsBuilt()
    ensures Built(Pb([], 0, 1)) && forall a: Assignment :: Value([], a) == 0
  {
  }

  /** One round of the outer loop of `convert`, for one objective. */
  method ConvertOne(f: Pb) returns (parts: seq<Pb>, ghost all: seq<Term>, ghost param: nat)
    requires Built(f)
    ensures AllBuilt(parts) && (f.terms != [] ==> parts != [])
    ensures forall a: Assignment :: SumOf(parts, a) == Evaluate(f, a) - f.constant
    ensures Converted(f, all, param, parts)
    ensures |WeightsOf(TrueTerms(f))| <= 30 ==> Layers(f, parts)
  {
    hide Peeled, Layers, Suffices, LitsOf, SameScaled, TrueTerms, Positive, Descending, Value, Evaluate;
    var tail := Pb([], 0, 1);
    NothingIsBuilt();
    var exec := new Partitioner(f);
    all := exec.lits;
    ghost var rest := all;
    parts := [];
    var par := 0;
    while par < PARAMS
      invariant par <= PARAMS && exec.Valid() && exec.lits == exec.litsCopy == all && AllBuilt(parts) && Built(tail)
      invariant exec.param == par && forall p: nat | p < par :: !Suffices(all, p)
      invariant par > 0 ==> forall a: Assignment :: SumOf(parts, a) + Evaluate(tail, a) == Value(all, a)
      invariant par > 0 ==> tail.terms != [] && |WeightsOf(TrueTerms(f))| > 30
      invariant par > 0 ==> Peeled(all, par - 1, parts, rest) && |parts| == 30 && rest != []
      invariant par > 0 ==> SameScaled(Pb(rest, 0, 1), tail) && tail.constant == 0
    {
      parts := Heads(exec);
      rest := exec.lits;
      tail := exec.Tail();
      if par == 0 {
        FirstRound(f, all, parts, rest);
      }
      if |tail.terms| == 0 {
        break;
      }
      DoesNotSuffice(all, par, parts, rest);
      par := par + 1;
      exec.BumpParam();
      exec.ResetTerms();
    }
    param := if tail.terms == [] then par else par - 1;
    if |tail.terms| > 0 {
      SumAppend(parts, tail);
      parts := parts + [tail];
      assert parts[..30] == parts[..|parts| - 1];
      assert IsTail(all, param, parts, rest);
    }
  }

  /** The parts of each objective, those of later objectives first. */
  ghost predicate Grouped(objs: seq<Pb>, groups: seq<seq<Pb>>)
    requires AllBuilt(objs)
  {
    |groups| == |objs| && forall i | 0 <= i < |objs| :: IsGroup(objs[i], groups[i])
  }

  ghost predicate IsGroup(f: Pb, parts: seq<Pb>)
    requires Built(f)
  {
    && (|WeightsOf(TrueTerms(f))| <= 30 ==> Layers(f, parts))
    && exists all, param :: Converted(f, all, param, parts)
  }

  /** The last group first. */
  function Backwards(groups: seq<seq<Pb>>): seq<Pb> {
    if groups == [] then [] else groups[|groups| - 1] + Backwards(groups[..|groups| - 1])
  }

  lemma GroupIsSmall(f: Pb, all: seq<Term>, param: nat, parts: seq<Pb>)
    requires Built(f) && Converted(f, all, param, parts)
    ensures |parts| <= 31
  {
  }

  /** `MOCOtoBrokenMOCO::convert`: the parts of later objectives come first. */
  method Convert(objs: seq<Pb>) returns (parts: seq<Pb>, ghost groups: seq<seq<Pb>>)
    requires AllBuilt(objs)
    ensures AllBuilt(parts)
    ensures forall a: Assignment :: SumOf(parts, a) == SumOf(objs, a) - Constants(objs)
    ensures Grouped(objs, groups) && parts == Backwards(groups)
    ensures |parts| <= 31 * |objs|
    ensures (exists f :: f in objs && f.terms != []) ==> parts != []
  {
    hide Converted, IsGroup, Layers, Value, Evaluate, TrueTerms, WeightsOf;
    parts, groups := [], [];
    for i := 0 to |objs|
      invariant AllBuilt(parts) && |groups| == i && parts == Backwards(groups) && |parts| <= 31 * i
      invariant forall j | 0 <= j < i :: IsGroup(objs[j], groups[j])
      invariant forall a: Assignment :: SumOf(parts, a) == SumOf(objs[..i], a) - Constants(objs[..i])
      invariant (exists j :: 0 <= j < i && objs[j].terms != []) ==> parts != []
    {
      var more, all, param := ConvertOne(objs[i]);
      GroupIsSmall(objs[i], all, param, more);
      assert IsGroup(objs[i], more) by {
        GroupFound(objs[i], all, param, more);
      }
      assert objs[..i + 1] == objs[..i] + [objs[i]];
      SumAppend(objs[..i], objs[i]);
      ConstantsAppend(objs[..i], objs[i]);
      forall a: Assignment {
        SumConcat(more, parts, a);
      }
      parts := more + parts;
      assert (groups + [more])[..i] == groups;
      groups := groups + [more];
    }
    assert objs[..|objs|] == objs;
  }

  lemma GroupFound(f: Pb, all: seq<Term>, param: nat, parts: seq<Pb>)
    requires Built(f) && Converted(f, all, param, parts)
    requires |WeightsOf(TrueTerms(f))| <= 30 ==> Layers(f, parts)
    ensures IsGroup(f, parts)
  {
  }

  function Constants(fs: seq<Pb>): int {
    if fs == [] then 0 else fs[0].constant + Constants(fs[1..])
  }

  lemma {:induction false} ConstantsAppend(fs: seq<Pb>, f: Pb)
    ensures Constants(fs + [f]) == Constants(fs) + f.constant
  {
    if fs != [] {
      ConstantsAppend(fs[1..], f);
      assert (fs + [f])[1..] == fs[1..] + [f];
    }
  }

  /** `test_stratification_addsup`: the parts of any objective add up to a function that
      `operator==` accepts as the original. */
  method TestAddsUp(original: Pb) returns (same: bool)
    requires Built(original) && original.terms != []
    ensures same
  {
    hide Grouped, Backwards;
    var parts, groups := Convert([original]);
    assert original in [original];
    var sum := parts[0];
    SumAppend([], parts[0]);
    assert parts[..1] == [] + [parts[0]];
    for i := 1 to |parts|
      invariant Built(sum) && forall a: Assignment :: Evaluate(sum, a) == SumOf(parts[..i], a)
    {
      assert parts[..i + 1] == parts[..i] + [parts[i]];
      SumAppend(parts[..i], parts[i]);
      sum := Add(sum, parts[i]);
    }
    assert parts[..|parts|] == parts;
    same := Equal(sum, original);
    assert SumOf([original], {}) == Evaluate(original, {});
    forall a: Assignment
      ensures Evaluate(sum, a) - Evaluate(original, a) == Evaluate(sum, {}) - Evaluate(original, {})
    {
      assert [original][1..] == [];
    }
    MatchesIffSame(sum, original);
  }
}
