/** Core-guided growth of a fence: which objectives a core names, and how far each is raised. */
module Fences {
  import opened Cnf
  import opened Pareto
  import opened Encoding
  import opened ParallelMO

  /** The literal is on a root variable of objective `i`. */
  predicate RootOf(p: Problem, i: nat, l: Lit)
    requires i < |p.roots|
  {
    exists j | 1 <= j < |p.roots[i]| :: p.roots[i][j].lit.v == l.v
  }

  /** No variable is a root variable of two objectives. */
  ghost predicate OwnRoots(p: Problem) {
    forall i, k, l | 0 <= i < |p.roots| && 0 <= k < |p.roots| && RootOf(p, i, l) && RootOf(p, k, l) :: i == k
  }

  /** `getIObjFromLit`: the objective whose root variable was registered first, or -1. */
  function IObjFromLit(p: Problem, l: Lit, i: nat): (r: int)
    requires i <= |p.roots|
    ensures -1 <= r < |p.roots|
    ensures r >= 0 ==> i <= r && RootOf(p, r, l)
    ensures r == -1 ==> forall k | i <= k < |p.roots| :: !RootOf(p, k, l)
    decreases |p.roots| - i
  {
    if i == |p.roots| then -1 else if RootOf(p, i, l) then i else IObjFromLit(p, l, i + 1)
  }

  predicate NamedBy(p: Problem, conflict: Clause, i: nat)
    requires i < |p.roots|
  {
    exists l | l in conflict :: RootOf(p, i, l)
  }

  /** The core names the objective and the fence is not at its last key. */
  predicate Extendable(p: Problem, conflict: Clause, u: Point, i: nat)
    requires i < |p.roots| && i < |u|
  {
    NamedBy(p, conflict, i) && KeyIndex(p.roots[i], u[i] + 1) + 1 < |p.roots[i]|
  }

  /** Which objectives a core names depends on the root literals only. */
  lemma SameNames(r: Problem, q: Problem, conflict: Clause, k: nat)
    requires r.roots == q.roots && k < |q.roots|
    ensures NamedBy(q, conflict, k) <==> NamedBy(r, conflict, k)
  {
    if NamedBy(q, conflict, k) {
      var l :| l in conflict && RootOf(q, k, l);
      assert RootOf(r, k, l);
    }
    if NamedBy(r, conflict, k) {
      var l :| l in conflict && RootOf(r, k, l);
      assert RootOf(q, k, l);
    }
  }

  function Ceil(x: real): int {
    -((-x).Floor)
  }

  function Min(a: int, b: int): int { if a < b then a else b }
  function Max(a: int, b: int): int { if a < b then b else a }

  /** The raised coordinate: one below the next key, or further with a stride, within the maximum. */
  function Raised(p: Problem, stride: real, u: Point, i: nat): nat
    requires stride >= 0.0 && i < |p.roots| && i < |u| && i < |p.max|
    requires KeyIndex(p.roots[i], u[i] + 1) + 1 < |p.roots[i]|
  {
    var key := p.roots[i][KeyIndex(p.roots[i], u[i] + 1) + 1].key;
    var scaled := Ceil(u[i] as real * stride);
    Max(0, Min(p.max[i], Max(key - 1, scaled)))
  }

  /** The expansion points for the objectives from `i` on. */
  function ExpansionsFrom(p: Problem, stride: real, u: Point, conflict: Clause, i: nat): seq<Point>
    requires stride >= 0.0 && |u| == |p.roots| == |p.max| && i <= |u|
    decreases |u| - i
  {
    if i == |u| then []
    else
      (if Extendable(p, conflict, u, i) then [u[i := Raised(p, stride, u, i)]] else [])
      + ExpansionsFrom(p, stride, u, conflict, i + 1)
  }

  function Expansions(p: Problem, stride: real, u: Point, conflict: Clause): seq<Point>
    requires stride >= 0.0 && |u| == |p.roots| == |p.max|
  {
    ExpansionsFrom(p, stride, u, conflict, 0)
  }

  // ---------------------------------------------------------------- how far a fence rises

  predicate KeyAbove(rl: Roots, k: nat) {
    exists j | 1 <= j < |rl| :: rl[j].key > k
  }

  /** The coordinate is past another key, and at the maximum or a stride away. */
  predicate FarEnough(p: Problem, stride: real, u: Point, i: nat, x: nat)
    requires i < |p.roots| && i < |u| && i < |p.max|
  {
    && x <= p.max[i] && (x == p.max[i] || x as real >= u[i] as real * stride)
    && exists j | 1 <= j < |p.roots[i]| :: u[i] + 1 < p.roots[i][j].key <= x + 1
  }

  /** The fence rises in one objective, as little as is far enough. */
  ghost predicate RisesLeast(p: Problem, stride: real, u: Point, i: nat, e: Point)
    requires |u| == |p.roots| == |p.max|
  {
    && i < |u| && |e| == |u| && e == u[i := e[i]] && FarEnough(p, stride, u, i, e[i])
    && forall x: nat | FarEnough(p, stride, u, i, x) :: e[i] <= x
  }

  /** One fence for each objective that the core names and that has a larger key, in their order. */
  ghost predicate AreExpansions(p: Problem, stride: real, u: Point, conflict: Clause, es: seq<Point>)
    requires |u| == |p.roots| == |p.max|
  {
    exists objectives: seq<nat> :: ExpandedIn(p, stride, u, conflict, 0, es, objectives)
  }

  ghost predicate ExpandedIn(p: Problem, stride: real, u: Point, conflict: Clause, from: nat, es: seq<Point>,
      objectives: seq<nat>)
    requires |u| == |p.roots| == |p.max|
  {
    && |objectives| == |es| && (forall m, n | 0 <= m < n < |objectives| :: objectives[m] < objectives[n])
    && (forall k | 0 <= k < |es| :: RisesLeast(p, stride, u, objectives[k], es[k]))
    && forall i: nat :: i in objectives <==>
         from <= i < |u| && NamedBy(p, conflict, i) && KeyAbove(p.roots[i], u[i] + 1)
  }

  lemma CeilIsLeast(x: real, y: int)
    ensures y as real >= x <==> y >= Ceil(x)
  {
  }

  /** The raised coordinate is the least that is far enough. */
  lemma RaisedIsLeast(p: Problem, stride: real, u: Point, i: nat)
    requires stride >= 0.0 && i < |p.roots| && i < |u| && |u| == |p.roots| == |p.max|
    requires i < |p.objs| && EncodesObjective(p, i) && KeyIndex(p.roots[i], u[i] + 1) + 1 < |p.roots[i]|
    ensures RisesLeast(p, stride, u, i, u[i := Raised(p, stride, u, i)])
  {
    var rl, j := p.roots[i], KeyIndex(p.roots[i], u[i] + 1) + 1;
    var x, z := Raised(p, stride, u, i), u[i] as real * stride;
    NextKeyIsLarger(p, u, i);
    assert 1 <= j < |rl| && rl[j].key > u[i] + 1 && 1 <= rl[j].key <= p.max[i] + 1;
    CeilIsLeast(z, x);
    assert FarEnough(p, stride, u, i, x);
    forall y: nat | FarEnough(p, stride, u, i, y)
      ensures x <= y
    {
      var m :| 1 <= m < |rl| && u[i] + 1 < rl[m].key <= y + 1;
      assert m >= j;
      assert j < m ==> rl[j].key < rl[m].key;
      CeilIsLeast(z, y);
    }
  }

  lemma ExtendableIffKeyAbove(p: Problem, conflict: Clause, u: Point, i: nat)
    requires i < |p.roots| && i < |u| && SortedKeys(p.roots[i])
    ensures Extendable(p, conflict, u, i) <==> NamedBy(p, conflict, i) && KeyAbove(p.roots[i], u[i] + 1)
  {
    NextKeyIsLarger(p, u, i);
  }

  lemma {:induction false} ExpansionsRiseLeast(p: Problem, stride: real, u: Point, conflict: Clause, from: nat)
    returns (objectives: seq<nat>)
    requires Valid(p) && stride >= 0.0 && |u| == |p.roots| && from <= |u|
    ensures ExpandedIn(p, stride, u, conflict, from, ExpansionsFrom(p, stride, u, conflict, from), objectives)
    decreases |u| - from
  {
    if from == |u| {
      objectives := [];
      hide Valid, RisesLeast, NamedBy, KeyAbove;
    } else {
      assert EncodesObjective(p, from);
      ExtendableIffKeyAbove(p, conflict, u, from);
      if Extendable(p, conflict, u, from) {
        RaisedIsLeast(p, stride, u, from);
      }
      hide Valid, RisesLeast, NamedBy, KeyAbove, Raised, ExpandedIn, Extendable;
      var rest := ExpansionsRiseLeast(p, stride, u, conflict, from + 1);
      var es := ExpansionsFrom(p, stride, u, conflict, from + 1);
      if Extendable(p, conflict, u, from) {
        OneMoreExpanded(p, stride, u, conflict, from, es, rest, u[from := Raised(p, stride, u, from)]);
        objectives := [from] + rest;
      } else {
        NotExpanded(p, stride, u, conflict, from, es, rest);
        objectives := rest;
      }
    }
  }

  lemma OneMoreExpanded(p: Problem, stride: real, u: Point, conflict: Clause, from: nat, es: seq<Point>,
      objectives: seq<nat>, e: Point)
    requires |u| == |p.roots| == |p.max| && from < |u| && RisesLeast(p, stride, u, from, e)
    requires ExpandedIn(p, stride, u, conflict, from + 1, es, objectives)
    requires NamedBy(p, conflict, from) && KeyAbove(p.roots[from], u[from] + 1)
    ensures ExpandedIn(p, stride, u, conflict, from, [e] + es, [from] + objectives)
  {
    hide RisesLeast, NamedBy, KeyAbove;
    var more := [from] + objectives;
    forall i: nat
      ensures i in more <==> from <= i < |u| && NamedBy(p, conflict, i) && KeyAbove(p.roots[i], u[i] + 1)
    {
      assert i in more <==> i == from || i in objectives;
    }
    forall m, n | 0 <= m < n < |more|
      ensures more[m] < more[n]
    {
      assert objectives[n - 1] in objectives;
    }
  }

  lemma NotExpanded(p: Problem, stride: real, u: Point, conflict: Clause, from: nat, es: seq<Point>,
      objectives: seq<nat>)
    requires |u| == |p.roots| == |p.max| && from < |u|
    requires ExpandedIn(p, stride, u, conflict, from + 1, es, objectives)
    requires !(NamedBy(p, conflict, from) && KeyAbove(p.roots[from], u[from] + 1))
    ensures ExpandedIn(p, stride, u, conflict, from, es, objectives)
  {
    hide RisesLeast, NamedBy, KeyAbove;
  }

  /** Every new fence is the least one beyond the next key and the stride, within the maximum, for an
      objective that the core names, and each such objective has one. */
  lemma ExpansionsAreLeast(p: Problem, stride: real, u: Point, conflict: Clause)
    requires Valid(p) && stride >= 0.0 && |u| == |p.roots|
    ensures AreExpansions(p, stride, u, conflict, Expansions(p, stride, u, conflict))
  {
    var objectives := ExpansionsRiseLeast(p, stride, u, conflict, 0);
    hide Valid;
  }

  /** A core is a list of distinct literals. */
  ghost predicate Distinct(ls: seq<Lit>) {
    forall i, j | 0 <= i < j < |ls| :: ls[i] != ls[j]
  }

  ghost predicate NamedOnce(p: Problem, ls: seq<Lit>) {
    forall i, m, n | 0 <= i < |p.roots| && 0 <= m < n < |ls| :: !(RootOf(p, i, ls[m]) && RootOf(p, i, ls[n]))
  }

  function LitSet(ls: seq<Lit>): Clause {
    set l | l in ls
  }

  /** Every conflict can be listed. */
  lemma {:induction false} Listed(c: Clause) returns (ls: seq<Lit>)
    ensures Distinct(ls) && LitSet(ls) == c
    decreases |c|
  {
    if c == {} {
      ls := [];
    } else {
      var l :| l in c;
      var rest := Listed(c - {l});
      ls := [l] + rest;
      assert forall k | 0 <= k < |rest| :: rest[k] in LitSet(rest);
      assert LitSet(ls) == {l} + LitSet(rest);
    }
  }

  /** The literals of a core of a fence name each objective at most once. */
  lemma CoreNamesOnce(p: Problem, u: Point, ls: seq<Lit>)
    requires OwnRoots(p) && Distinct(ls) && Negates(LitSet(ls), BelowLits(p.roots, u))
    ensures NamedOnce(p, ls)
  {
    forall i, m, n | 0 <= i < |p.roots| && 0 <= m < n < |ls|
      ensures !(RootOf(p, i, ls[m]) && RootOf(p, i, ls[n]))
    {
      var a := BelowLitIsRoot(p, u, ls, m);
      var b := BelowLitIsRoot(p, u, ls, n);
    }
  }

  lemma BelowLitIsRoot(p: Problem, u: Point, ls: seq<Lit>, m: nat) returns (i: nat)
    requires m < |ls| && Negates(LitSet(ls), BelowLits(p.roots, u))
    ensures i < |u| && i < |p.roots| && RootOf(p, i, ls[m])
    ensures ls[m] == p.roots[i][KeyIndex(p.roots[i], u[i] + 1)].lit.Not()
  {
    assert ls[m] in LitSet(ls);
    i :| 0 <= i < |u| && i < |p.roots| && KeyIndex(p.roots[i], u[i] + 1) > 0
      && ls[m].Not() == p.roots[i][KeyIndex(p.roots[i], u[i] + 1)].lit;
    assert p.roots[i][KeyIndex(p.roots[i], u[i] + 1)].lit.v == ls[m].v;
  }

  predicate NamedFrom(p: Problem, core: seq<Lit>, n: nat, i: nat)
    requires i < |p.roots|
  {
    exists m | n <= m < |core| :: RootOf(p, i, core[m])
  }

  lemma NamedFromStart(p: Problem, core: seq<Lit>, i: nat)
    requires i < |p.roots|
    ensures NamedFrom(p, core, 0, i) <==> NamedBy(p, LitSet(core), i)
  {
    if NamedBy(p, LitSet(core), i) {
      var l :| l in LitSet(core) && RootOf(p, i, l);
      var m :| 0 <= m < |core| && core[m] == l;
    }
    if m :| 0 <= m < |core| && RootOf(p, i, core[m]) {
      assert core[m] in LitSet(core);
    }
  }

  /** Popping one more literal names one more objective, which no earlier literal named. */
  lemma PoppedLiteral(p: Problem, core: seq<Lit>, n: nat, i: nat)
    requires OwnRoots(p) && NamedOnce(p, core) && n < |core| && i < |p.roots|
    ensures NamedFrom(p, core, n, i) <==> NamedFrom(p, core, n + 1, i) || i == IObjFromLit(p, core[n], 0)
    ensures !(NamedFrom(p, core, n + 1, i) && i == IObjFromLit(p, core[n], 0))
  {
    assert RootOf(p, i, core[n]) <==> i == IObjFromLit(p, core[n], 0);
  }

  /** `extendUL` on arrays of values and indices: it pops the core literal by literal. */
  method ExtendUL(p: Problem, core: seq<Lit>, objv: seq<nat>, objix: seq<nat>)
    returns (extend: bool, upperObjv: seq<nat>)
    requires OwnRoots(p) && NamedOnce(p, core) && |p.roots| == |objv| == |objix|
    ensures |upperObjv| == |objv|
    ensures forall k | 0 <= k < |objv| :: upperObjv[k] == RaisedValue(p, LitSet(core), objv, objix, k)
    ensures extend <==> exists k | 0 <= k < |objv| :: NamedBy(p, LitSet(core), k) && objix[k] + 1 < |p.roots[k]|
  {
    extend, upperObjv := false, objv;
    var upperObjix := objix;
    var n: nat := |core|;
    while n > 0
      invariant n <= |core| && |upperObjv| == |upperObjix| == |objv|
      invariant forall k | 0 <= k < |objv| ::
        if NamedFrom(p, core, n, k) && objix[k] + 1 < |p.roots[k]| then
          upperObjix[k] == objix[k] + 1 && upperObjv[k] == p.roots[k][objix[k] + 1].key && extend
        else
          upperObjix[k] == objix[k] && upperObjv[k] == objv[k]
      invariant extend ==> exists k | 0 <= k < |objv| :: NamedFrom(p, core, n, k) && objix[k] + 1 < |p.roots[k]|
    {
      n := n - 1;
      var iObj := IObjFromLit(p, core[n], 0);
      forall k | 0 <= k < |objv|
        ensures NamedFrom(p, core, n, k) <==> NamedFrom(p, core, n + 1, k) || k == iObj
        ensures !(NamedFrom(p, core, n + 1, k) && k == iObj)
      {
        PoppedLiteral(p, core, n, k);
      }
      if iObj > -1 {
        if upperObjix[iObj] + 1 < |p.roots[iObj]| {
          extend := true;
          upperObjix := upperObjix[iObj := upperObjix[iObj] + 1];
          upperObjv := upperObjv[iObj := p.roots[iObj][upperObjix[iObj]].key];
        }
      }
    }
    forall k | 0 <= k < |objv|
      ensures NamedFrom(p, core, 0, k) <==> NamedBy(p, LitSet(core), k)
    {
      NamedFromStart(p, core, k);
    }
  }

  /** The next key for the objectives that the core names and that have one. */
  function RaisedValue(p: Problem, conflict: Clause, objv: seq<nat>, objix: seq<nat>, k: nat): nat
    requires k < |p.roots| == |objv| == |objix|
  {
    if NamedBy(p, conflict, k) && objix[k] + 1 < |p.roots[k]| then p.roots[k][objix[k] + 1].key else objv[k]
  }

  /** The smallest key above `x`. */
  predicate IsNextKey(rl: Roots, x: nat, key: nat) {
    && key > x && (exists j | 1 <= j < |rl| :: rl[j].key == key)
    && forall j | 1 <= j < |rl| :: rl[j].key <= x || rl[j].key >= key
  }

  /** Exactly the objectives that the core names and that have a larger key rise, each to one below its
      next key. */
  predicate RisesToKeys(p: Problem, conflict: Clause, u: Point, next: Point) {
    && |u| == |next| == |p.roots|
    && forall k | 0 <= k < |u| ::
        if NamedBy(p, conflict, k) && KeyAbove(p.roots[k], u[k] + 1) then IsNextKey(p.roots[k], u[k] + 1, next[k] + 1)
        else next[k] == u[k]
  }

  lemma ExtendedRises(p: Problem, conflict: Clause, u: Point, objv: seq<nat>, objix: seq<nat>, next: Point)
    requires Valid(p) && |u| == |p.roots| == |objv| == |objix| == |next|
    requires forall k | 0 <= k < |u| :: objv[k] == u[k] + 1 && objix[k] == KeyIndex(p.roots[k], u[k] + 1)
    requires forall k | 0 <= k < |u| :: next[k] + 1 == RaisedValue(p, conflict, objv, objix, k)
    ensures RisesToKeys(p, conflict, u, next)
  {
    forall k | 0 <= k < |u|
      ensures if NamedBy(p, conflict, k) && KeyAbove(p.roots[k], u[k] + 1)
              then IsNextKey(p.roots[k], u[k] + 1, next[k] + 1) else next[k] == u[k]
    {
      assert EncodesObjective(p, k);
      ExtendableIffKeyAbove(p, conflict, u, k);
      NextKeyIsLarger(p, u, k);
    }
  }

  /** `generateExpansionPoints`. */
  method GenerateExpansionPoints(p: Problem, stride: real, u: Point, core: seq<Lit>) returns (newULs: seq<Point>)
    requires OwnRoots(p) && NamedOnce(p, core) && stride >= 0.0 && |u| == |p.roots| == |p.max|
    ensures newULs == Expansions(p, stride, u, LitSet(core))
    ensures Valid(p) ==> AreExpansions(p, stride, u, LitSet(core), newULs)
  {
    hide Valid, AreExpansions, OwnRoots, NamedOnce, NamedBy, Ceil, EncodesObjective;
    if Valid(p) {
      ExpansionsAreLeast(p, stride, u, LitSet(core));
    }
    var upperObjv := seq(|u|, i requires 0 <= i < |u| => u[i] + 1);
    var upperObjix := EvalToIndex(p.roots, u);
    var objv := upperObjv;
    var extend;
    extend, upperObjv := ExtendUL(p, core, upperObjv, upperObjix);
    newULs := [];
    if extend {
      for i := 0 to |u|
        invariant newULs + ExpansionsFrom(p, stride, u, LitSet(core), i) == Expansions(p, stride, u, LitSet(core))
      {
        NextKeyIsLarger(p, u, i);
        assert upperObjv[i] == RaisedValue(p, LitSet(core), objv, upperObjix, i);
        if upperObjv[i] - 1 != u[i] {
          var expanded := Ceil(u[i] as real * stride);
          var e := u[i := Max(0, Min(p.max[i], Max(upperObjv[i] - 1, expanded)))];
          assert ExpansionsFrom(p, stride, u, LitSet(core), i) == [e] +
              ExpansionsFrom(p, stride, u, LitSet(core), i + 1);
          newULs := newULs + [e];
        } else {
          assert ExpansionsFrom(p, stride, u, LitSet(core), i) == ExpansionsFrom(p, stride, u, LitSet(core), i + 1);
        }
      }
    } else {
      NoExpansions(p, stride, u, LitSet(core), 0);
    }
  }

  lemma NextKeyIsLarger(p: Problem, u: Point, i: nat)
    requires i < |u| && i < |p.roots|
    ensures var j := KeyIndex(p.roots[i], u[i] + 1); j + 1 < |p.roots[i]| ==> p.roots[i][j + 1].key > u[i] + 1
  {
  }

  lemma NoExpansions(p: Problem, stride: real, u: Point, conflict: Clause, i: nat)
    requires stride >= 0.0 && |u| == |p.roots| == |p.max| && i <= |u|
    requires forall k | i <= k < |u| :: !Extendable(p, conflict, u, k)
    ensures ExpansionsFrom(p, stride, u, conflict, i) == []
    decreases |u| - i
  {
  }

  /** `e` is `u` with one coordinate strictly raised, within the maximum. */
  predicate Raises(p: Problem, u: Point, e: Point) {
    |e| == |u| == |p.max| && exists i | 0 <= i < |u| :: e[i] > u[i] && e == u[i := e[i]] && e[i] <= p.max[i]
  }

  lemma RaisedIsLarger(p: Problem, stride: real, u: Point, i: nat)
    requires Valid(p) && stride >= 0.0 && |u| == |p.roots| && i < |u|
    requires KeyIndex(p.roots[i], u[i] + 1) + 1 < |p.roots[i]|
    ensures u[i] < Raised(p, stride, u, i) <= p.max[i]
  {
    assert EncodesObjective(p, i);
    assert p.roots[i][KeyIndex(p.roots[i], u[i] + 1) + 1].key > u[i] + 1;
  }

  lemma {:induction false} ExpansionsRaise(p: Problem, stride: real, u: Point, conflict: Clause, i: nat)
    requires Valid(p) && stride >= 0.0 && |u| == |p.roots| && i <= |u|
    ensures var es := ExpansionsFrom(p, stride, u, conflict, i);
            |es| <= |u| - i && forall e | e in es :: Raises(p, u, e)
    decreases |u| - i
  {
    if i < |u| {
      ExpansionsRaise(p, stride, u, conflict, i + 1);
      if Extendable(p, conflict, u, i) {
        RaisedIsLarger(p, stride, u, i);
        var e := u[i := Raised(p, stride, u, i)];
        assert e[i] > u[i] && e == u[i := e[i]];
      }
    }
  }

  lemma {:induction false} ExpansionExists(p: Problem, stride: real, u: Point, conflict: Clause, i: nat, k: nat)
    requires stride >= 0.0 && |u| == |p.roots| == |p.max| && i <= k < |u| && Extendable(p, conflict, u, k)
    ensures ExpansionsFrom(p, stride, u, conflict, i) != []
    decreases |u| - i
  {
    if i < k {
      ExpansionExists(p, stride, u, conflict, i + 1, k);
    }
  }

  /** A core that refutes the region below a fence names an objective in which every uncovered
      point exceeds the fence, and that objective can be raised. */
  lemma UncoveredPointExtends(p: Problem, found: set<Point>, db: Db, conflict: Clause, u: Point, q: Point)
      returns (i: nat)
    requires Valid(p) && OwnRoots(p) && Sound(p, found, db) && |u| == |p.roots|
    requires Entails(db, conflict) && Negates(conflict, BelowLits(p.roots, u))
    requires q in FeasiblePoints(p) && !Covered(found, q)
    ensures i < |u| && q[i] > u[i] && Extendable(p, conflict, u, i)
  {
    var a := FeasiblePoint(p, q);
    assert SatClause(conflict, a);
    var l :| l in conflict && Holds(l, a);
    assert l.Not() in BelowLits(p.roots, u) && !Holds(l.Not(), a);
    i :| 0 <= i < |u| && KeyIndex(p.roots[i], u[i] + 1) > 0 &&
        l.Not() == p.roots[i][KeyIndex(p.roots[i], u[i] + 1)].lit;
    BlockIndexMeaning(p, i, u[i] + 1, a);
    assert RootOf(p, i, l) by {
      assert p.roots[i][KeyIndex(p.roots[i], u[i] + 1)].lit.v == l.v;
    }
    assert EncodesObjective(p, i);
    var m :| 1 <= m < |p.roots[i]| && p.roots[i][m].key == Value(p.objs[i], a) + 1;
    assert m > KeyIndex(p.roots[i], u[i] + 1);
  }
}
