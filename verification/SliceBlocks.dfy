/** Block clauses made from the keys of a slice: they always block enough, and they block exactly the
    dominated region when all weights of an objective are equal. */
module SliceBlocks {
  import opened Cnf
  import opened Pareto
  import opened Encoding
  import opened Fences
  import opened Freezing
  import opened Slices
  import opened Relaxations

  // ---------------------------------------------------------------- the literal of a slice

  /** The largest key of the list up to `k`, or 0. */
  function LastKey(rl: Roots, k: nat): (low: nat)
    ensures low <= k
  {
    var j := KeyIndex(rl, k);
    if j > 0 then rl[j].key else 0
  }

  /** The index is that of the largest real key up to `k`. */
  lemma LastKeyIsLargest(rl: Roots, k: nat, r: Root)
    requires SortedKeys(rl) && HasRoot(rl, r) && 0 < r.key <= k
    ensures KeyIndex(rl, k) > 0 && r.key <= LastKey(rl, k) <= k
  {
    var m :| 0 <= m < |rl| - 1 && rl[1..][m] == r;
    var j := KeyIndex(rl, k);
    assert rl[m + 1] == r;
  }

  lemma IndexedRoot(rl: Roots, k: nat)
    requires KeyIndex(rl, k) > 0
    ensures HasRoot(rl, rl[KeyIndex(rl, k)]) && rl[KeyIndex(rl, k)].key <= k
  {
    var j := KeyIndex(rl, k);
    assert rl[1..][j - 1] == rl[j];
  }

  lemma SameKeySameRoot(rl: Roots, r: Root, t: Root)
    requires SortedKeys(rl) && HasRoot(rl, r) && HasRoot(rl, t) && r.key == t.key
    ensures r == t
  {
    var m :| 0 <= m < |rl| - 1 && rl[1..][m] == r;
    var n :| 0 <= n < |rl| - 1 && rl[1..][n] == t;
    assert rl[m + 1] == r && rl[n + 1] == t;
    assert m < n ==> rl[m + 1].key < rl[n + 1].key;
    assert n < m ==> rl[n + 1].key < rl[m + 1].key;
  }

  /** No complete key lies above the last key of the slice and at most at `y`. */
  predicate TightAt(rl: Roots, sums: set<nat>, y: nat) {
    forall r | r in rl[1..] && r.key <= y :: r.key <= LastKey(SliceRoots(rl, sums), y)
  }

  /** A tight slice picks the literal that the complete list would pick. */
  lemma TightPicksSame(rl: Roots, sums: set<nat>, y: nat)
    requires SortedKeys(rl) && TightAt(rl, sums, y) && forall r | HasRoot(rl, r) :: r.key > 0
    ensures var me := SliceRoots(rl, sums);
      && (KeyIndex(me, y) > 0 <==> KeyIndex(rl, y) > 0)
      && (KeyIndex(rl, y) > 0 ==> me[KeyIndex(me, y)] == rl[KeyIndex(rl, y)])
  {
    var me := SliceRoots(rl, sums);
    var j, m := KeyIndex(rl, y), KeyIndex(me, y);
    SliceMembers(rl, sums);
    hide SliceRoots, SortedKeys;
    if m > 0 {
      IndexedRoot(me, y);
      LastKeyIsLargest(rl, y, me[m]);
    }
    if j > 0 {
      IndexedRoot(rl, y);
      assert rl[j] in rl[1..] && rl[j].key <= LastKey(me, y);
      SameKeySameRoot(rl, rl[j], me[m]);
    }
  }

  // ---------------------------------------------------------------- equal weights

  /** All positive weights of the objective are equal. */
  predicate Uniform(ts: seq<Term>) {
    forall i, j | 0 <= i < |ts| && 0 <= j < |ts| && ts[i].w > 0 && ts[j].w > 0 :: ts[i].w == ts[j].w
  }

  predicate AllUniform(objs: Objectives) {
    forall i | 0 <= i < |objs| :: Uniform(objs[i])
  }

  predicate WeighsOnly(ts: seq<Term>, w: nat) {
    forall t | t in ts :: t.w == 0 || t.w == w
  }

  lemma {:induction false} SumIsMultiple(ts: seq<Term>, w: nat, s: nat) returns (k: nat)
    requires w > 0 && WeighsOnly(ts, w) && s in Sums(ts)
    ensures s == k * w
  {
    if ts == [] {
      k := 0;
    } else {
      assert ts[0] in ts && forall t | t in ts[1..] :: t in ts;
      if s in Sums(ts[1..]) {
        k := SumIsMultiple(ts[1..], w, s);
      } else {
        var j := SumIsMultiple(ts[1..], w, s - ts[0].w);
        Split(j, 1, w);
        k := j + 1;
      }
    }
  }

  /** A positive sum stays a sum when one weight is taken off. */
  lemma {:induction false} StepDown(ts: seq<Term>, w: nat, s: nat)
    requires w > 0 && WeighsOnly(ts, w) && s in Sums(ts) && s > 0
    ensures s >= w && s - w in Sums(ts)
  {
    if ts != [] {
      assert ts[0] in ts && forall t | t in ts[1..] :: t in ts;
      if s in Sums(ts[1..]) {
        StepDown(ts[1..], w, s);
      }
    }
  }

  lemma {:induction false} PositiveSumHasTerm(ts: seq<Term>, s: nat) returns (t: Term)
    requires s in Sums(ts) && s > 0
    ensures t in ts && t.w > 0
  {
    if ts[0].w > 0 {
      t := ts[0];
    } else {
      t := PositiveSumHasTerm(ts[1..], s);
    }
  }

  lemma UniformWeighsOnly(ts: seq<Term>, t: Term)
    requires Uniform(ts) && t in ts && t.w > 0
    ensures WeighsOnly(ts, t.w)
  {
    var i :| 0 <= i < |ts| && ts[i] == t;
    forall u | u in ts
      ensures u.w == 0 || u.w == t.w
    {
      var j :| 0 <= j < |ts| && ts[j] == u;
    }
  }

  lemma MultipleBelow(j: nat, k: nat, w: nat)
    requires j * w < k * w
    ensures j * w + w <= k * w
  {
    var d := k - j;
    Split(j, d, w);
    if d <= 0 {
      NotPositive(d, w);
    } else {
      Split(1, d - 1, w);
    }
  }

  lemma Split(j: int, d: int, w: int)
    ensures (j + d) * w == j * w + d * w
    ensures d >= 0 && w >= 0 ==> d * w >= 0
  {
  }

  lemma NotPositive(d: int, w: nat)
    requires d <= 0
    ensures d * w <= 0
  {
  }

  /** With equal weights, the sum of the slice before `y` is the complete sum before `y`. */
  lemma PrecedingSum(ts: seq<Term>, part: seq<Term>, s: nat, y: nat) returns (w: nat)
    requires Uniform(ts) && (forall t | t in part :: t in ts) && s in Sums(ts) && y in Sums(part) && y in Sums(ts) &&
        s < y
    ensures w <= y && y - w in Sums(part) && s <= y - w && w > 0
  {
    var t := PositiveSumHasTerm(part, y);
    w := t.w;
    UniformWeighsOnly(ts, t);
    hide Sums, Uniform;
    StepDown(part, w, y);
    var j := SumIsMultiple(ts, w, s);
    var k := SumIsMultiple(ts, w, y);
    MultipleBelow(j, k, w);
  }

  /** With equal weights every slice is tight at all its sums. */
  lemma UniformIsTight(rl: Roots, ts: seq<Term>, slice: set<Lit>, y: nat)
    requires SortedKeys(rl) && KeyedSums(rl, Sums(ts)) && forall r | HasRoot(rl, r) ::
        r.key > 0 && r.key - 1 in Sums(ts)
    requires Uniform(ts) && y in Sums(Sliced(ts, slice))
    ensures TightAt(rl, Sums(Sliced(ts, slice)), y)
  {
    hide Sums, Sliced, SliceRoots, SortedKeys, KeyedSums, Uniform, LastKey;
    forall r | r in rl[1..] && r.key <= y
      ensures r.key <= LastKey(SliceRoots(rl, Sums(Sliced(ts, slice))), y)
    {
      assert HasRoot(rl, r);
      SumIsReached(rl, ts, slice, y, r.key - 1);
    }
  }

  lemma SumIsReached(rl: Roots, ts: seq<Term>, slice: set<Lit>, y: nat, s: nat)
    requires SortedKeys(rl) && KeyedSums(rl, Sums(ts)) && Uniform(ts) && y in Sums(Sliced(ts, slice)) &&
        s in Sums(ts) && s < y
    ensures s + 1 <= LastKey(SliceRoots(rl, Sums(Sliced(ts, slice))), y)
  {
    SliceTerms(ts, slice);
    SlicedSums(ts, slice);
    hide Sums, Sliced, SliceRoots, SortedKeys, KeyedSums, Uniform, LastKey;
    var w := PrecedingSum(ts, Sliced(ts, slice), s, y);
    EntryReaches(rl, ts, slice, y, y - w);
  }

  lemma EntryReaches(rl: Roots, ts: seq<Term>, slice: set<Lit>, y: nat, s: nat)
    requires SortedKeys(rl) && KeyedSums(rl, Sums(ts)) && s in Sums(Sliced(ts, slice)) && s < y
    ensures s + 1 <= LastKey(SliceRoots(rl, Sums(Sliced(ts, slice))), y)
  {
    var me := SliceRoots(rl, Sums(Sliced(ts, slice)));
    SliceMembers(rl, Sums(Sliced(ts, slice)));
    hide Sums, Sliced, SliceRoots, SortedKeys, KeyedSums, LastKey;
    var e := SumEntry(rl, ts, slice, s);
    assert me[1..][e - 1] == me[e];
    LastKeyIsLargest(me, y, me[e]);
  }

  // ---------------------------------------------------------------- the clauses of a slice

  /** A point of the sliced objectives. */
  predicate SlicePoint(p: Problem, slice: set<Lit>, y: Point) {
    |y| == |p.objs| && forall i | 0 <= i < |y| :: y[i] in Sums(Sliced(p.objs[i], slice))
  }

  /** The block clause that `blockStep` makes from the keys of the slice. */
  function SliceClause(p: Problem, slice: set<Lit>, y: Point): Clause {
    BlockClause(SlicedRoots(p.objs, p.roots, slice), y)
  }

  /** Every point of a relaxation is a point of its slice. */
  lemma RelaxedPoint(R: Relaxation, a: Assignment)
    ensures SlicePoint(R.I.p, R.slice, Eval(Relaxed(R), a))
  {
    var y := Eval(Relaxed(R), a);
    forall i | 0 <= i < |y|
      ensures y[i] in Sums(Sliced(R.I.p.objs[i], R.slice))
    {
      ValueIsSum(Sliced(R.I.p.objs[i], R.slice), a);
    }
  }

  lemma PositiveKeys(p: Problem, i: nat)
    requires i < |p.objs| && i < |p.roots| && SumKeys(p, i)
    ensures forall r | HasRoot(p.roots[i], r) :: r.key > 0 && r.key - 1 in Sums(p.objs[i])
  {
    forall r | HasRoot(p.roots[i], r)
      ensures r.key > 0 && r.key - 1 in Sums(p.objs[i])
    {
      var m :| 0 <= m < |p.roots[i]| - 1 && p.roots[i][1..][m] == r;
      assert p.roots[i][m + 1] == r;
    }
  }

  /** With equal weights the clause of any slice is the clause of the complete objectives. */
  lemma UniformClause(I: Instance, slice: set<Lit>, y: Point)
    requires ValidInstance(I) && AllUniform(I.p.objs) && SlicePoint(I.p, slice, y)
    ensures SliceClause(I.p, slice, y) == BlockClause(I.p.roots, y)
  {
    var rs := SlicedRoots(I.p.objs, I.p.roots, slice);
    forall i | 0 <= i < |y|
      ensures KeyIndex(rs[i], y[i]) > 0 <==> KeyIndex(I.p.roots[i], y[i]) > 0
      ensures KeyIndex(rs[i], y[i]) > 0 ==> rs[i][KeyIndex(rs[i], y[i])] == I.p.roots[i][KeyIndex(I.p.roots[i], y[i])]
    {
      assert EncodesObjective(I.p, i) && SumKeys(I.p, i) && Uniform(I.p.objs[i]);
      PositiveKeys(I.p, i);
      hide ValidInstance, EncodesObjective, SumKeys, Uniform, TightAt;
      assert KeyedSums(I.p.roots[i], Sums(I.p.objs[i])) by { KeyedOf(I.p, i); }
      UniformIsTight(I.p.roots[i], I.p.objs[i], slice, y[i]);
      TightPicksSame(I.p.roots[i], Sums(Sliced(I.p.objs[i], slice)), y[i]);
    }
  }

  lemma KeyedOf(p: Problem, i: nat)
    requires i < |p.objs| && i < |p.roots| && SumKeys(p, i)
    ensures KeyedSums(p.roots[i], Sums(p.objs[i]))
  {
  }

  /** The clause of any slice blocks at least the region that the point dominates. */
  lemma SliceClauseBites(I: Instance, slice: set<Lit>, y: Point, m: Assignment)
    requires ValidInstance(I) && |y| == |I.p.objs|
    requires SatDb(I.p.hard, m) && SatClause(SliceClause(I.p, slice, y), m)
    ensures !Dominates(y, Eval(I.p, m))
  {
    var rs := SlicedRoots(I.p.objs, I.p.roots, slice);
    var l :| l in BlockClause(rs, y) && Holds(l, m);
    var i :| 0 <= i < |y| && KeyIndex(rs[i], y[i]) > 0 && l == rs[i][KeyIndex(rs[i], y[i])].lit;
    var j := KeyIndex(rs[i], y[i]);
    IndexedRoot(rs[i], y[i]);
    assert EncodesObjective(I.p, i);
    var k := SliceEntry(I.p.roots[i], Sums(Sliced(I.p.objs[i], slice)), j);
    assert Value(I.p.objs[i], m) < I.p.roots[i][k].key <= y[i];
    assert Eval(I.p, m)[i] < y[i];
  }

  /** The clause says exactly "the point does not dominate me". */
  ghost predicate ExactBlock(p: Problem, slice: set<Lit>, y: Point) {
    forall a: Assignment | SatDb(p.hard, a) :: SatClause(SliceClause(p, slice, y), a) <==> !Dominates(y, Eval(p, a))
  }

  ghost predicate ExactBlocks(p: Problem) {
    forall slice, y | SlicePoint(p, slice, y) :: ExactBlock(p, slice, y)
  }

  lemma {:induction false} TermIsSum(ts: seq<Term>, t: Term)
    requires t in ts
    ensures t.w in Sums(ts)
  {
    if t == ts[0] {
      assert ts[0].w >= t.w && t.w - ts[0].w == 0;
    } else {
      TermIsSum(ts[1..], t);
    }
  }

  lemma {:induction false} NoTermOf(ts: seq<Term>, l: Lit)
    requires forall i | 0 <= i < |ts| :: ts[i].l != l
    ensures Sliced(ts, {l}) == []
  {
    if ts != [] {
      NoTermOf(ts[1..], l);
    }
  }

  /** The slice of one literal has its term only. */
  lemma {:induction false} SlicedSingle(ts: seq<Term>, n: nat)
    requires DistinctVars(ts) && n < |ts|
    ensures Sliced(ts, {ts[n].l}) == [ts[n]]
  {
    var l := ts[n].l;
    SlicedHead(ts, {l});
    if n == 0 {
      NoTermOf(ts[1..], l);
    } else {
      assert ts[1..][n - 1] == ts[n] && ts[0].l.v != ts[n].l.v;
      SlicedSingle(ts[1..], n - 1);
    }
  }

  lemma SumsOfOne(t: Term)
    ensures Sums([t]) == {0, t.w}
  {
    assert [t][1..] == [];
    forall s: nat
      ensures s in Sums([t]) <==> s == 0 || s == t.w
    {
      assert s in WithTerm({0}, t.w) <==> s == 0 || (s >= t.w && s - t.w == 0);
    }
  }

  /** Every sum is the value of the objective in some model of the encoding. */
  lemma SumIsAttained(I: Instance, i: nat, s: nat) returns (a: Assignment)
    requires ValidInstance(I) && i < |I.p.objs| && s in Sums(I.p.objs[i])
    ensures SatDb(I.p.hard, a) && Value(I.p.objs[i], a) == s
  {
    hide Valid, SumKeys, OwnRoots, SatDb, Sums;
    var ts := I.p.objs[i];
    assert TermsBelow(ts, I.n) && DistinctVars(ts);
    var b := SumIsValue(ts, s);
    assert Extends(I, b);
    a :| Agree(b, a, I.n) && SatDb(I.p.hard, a);
    ValueAgree(ts, b, a, I.n);
  }

  function OnlyAt(n: nat, i: nat, w: nat): Point {
    seq(n, k => if k == i then w else 0)
  }

  lemma SingleIsPoint(p: Problem, i: nat, n: nat)
    requires i < |p.objs| && n < |p.objs[i]|
    ensures SlicePoint(p, {p.objs[i][n].l}, OnlyAt(|p.objs|, i, p.objs[i][n].w))
  {
    SliceTerms(p.objs[i], {p.objs[i][n].l});
    TermIsSum(Sliced(p.objs[i], {p.objs[i][n].l}), p.objs[i][n]);
  }

  /** Of two terms with different positive weights, the slice of the heavier one rejects models of the
      lighter one, which the point of the heavier one does not dominate. */
  lemma UnequalRejects(I: Instance, i: nat, m: nat, n: nat) returns (slice: set<Lit>, y: Point, a: Assignment)
    requires ValidInstance(I) && i < |I.p.objs| && m < |I.p.objs[i]| && n < |I.p.objs[i]|
    requires 0 < I.p.objs[i][m].w < I.p.objs[i][n].w
    ensures SlicePoint(I.p, slice, y) && SatDb(I.p.hard, a)
    ensures !SatClause(SliceClause(I.p, slice, y), a) && !Dominates(y, Eval(I.p, a))
  {
    var ts := I.p.objs[i];
    slice, y := {ts[n].l}, OnlyAt(|I.p.objs|, i, ts[n].w);
    SingleIsPoint(I.p, i, n);
    TermIsSum(ts, ts[m]);
    a := SumIsAttained(I, i, ts[m].w);
    assert DistinctVars(ts);
    SlicedSingle(ts, n);
    HeavierClauseFails(I, i, slice, ts[n], a);
    assert |I.p.objs| == |I.p.roots|;
    hide ValidInstance, Sliced, Sums, SatDb, SatClause, SliceClause, SlicePoint, Value;
    assert Eval(I.p, a)[i] == ts[m].w < y[i];
  }

  /** The literal of the last key up to `y`, if there is one, does not hold. */
  predicate LiteralDenied(me: Roots, y: nat, a: Assignment) {
    KeyIndex(me, y) > 0 ==> !Holds(me[KeyIndex(me, y)].lit, a)
  }

  lemma DeniedClause(rs: seq<Roots>, y: Point, a: Assignment)
    requires |rs| == |y| && forall k | 0 <= k < |y| :: LiteralDenied(rs[k], y[k], a)
    ensures !SatClause(BlockClause(rs, y), a)
  {
    forall l | l in BlockClause(rs, y)
      ensures !Holds(l, a)
    {
      var k :| 0 <= k < |y| && KeyIndex(rs[k], y[k]) > 0 && l == rs[k][KeyIndex(rs[k], y[k])].lit;
      assert LiteralDenied(rs[k], y[k], a);
    }
  }

  /** With one term of an objective in the slice, the block clause of that term's weight demands that
      the objective is zero. */
  lemma HeavierClauseFails(I: Instance, i: nat, slice: set<Lit>, t: Term, a: Assignment)
    requires ValidInstance(I) && i < |I.p.objs| && Sliced(I.p.objs[i], slice) == [t]
    requires SatDb(I.p.hard, a) && Value(I.p.objs[i], a) > 0
    ensures !SatClause(SliceClause(I.p, slice, OnlyAt(|I.p.objs|, i, t.w)), a)
  {
    assert |I.p.objs| == |I.p.roots|;
    var y := OnlyAt(|I.p.objs|, i, t.w);
    var rs := SlicedRoots(I.p.objs, I.p.roots, slice);
    forall k | 0 <= k < |y|
      ensures LiteralDenied(rs[k], y[k], a)
    {
      DeniedAt(I, i, slice, t, k, a);
    }
    hide ValidInstance, Sums, Sliced, SliceRoots, SatDb, SlicedRoots, LiteralDenied;
    DeniedClause(rs, y, a);
  }

  lemma DeniedAt(I: Instance, i: nat, slice: set<Lit>, t: Term, k: nat, a: Assignment)
    requires ValidInstance(I) && i < |I.p.objs| && Sliced(I.p.objs[i], slice) == [t]
    requires SatDb(I.p.hard, a) && Value(I.p.objs[i], a) > 0 && k < |I.p.objs|
    ensures |I.p.objs| == |I.p.roots|
    ensures LiteralDenied(SliceRoots(I.p.roots[k], Sums(Sliced(I.p.objs[k], slice))), if k == i then t.w else 0, a)
  {
    assert EncodesObjective(I.p, k);
    hide ValidInstance, Sums, Sliced, SliceRoots, EncodesObjective, SatDb;
    if k == i {
      LiteralFails(I.p, i, t, a);
    } else {
      assert SortedKeys(I.p.roots[k]) by { KeysSorted(I.p, k); }
      NothingUpToZero(I.p.roots[k], Sums(Sliced(I.p.objs[k], slice)));
    }
  }

  lemma KeysSorted(p: Problem, k: nat)
    requires k < |p.objs| == |p.roots| == |p.max| && EncodesObjective(p, k)
    ensures SortedKeys(p.roots[k])
  {
  }

  lemma NothingUpToZero(rl: Roots, sums: set<nat>)
    requires SortedKeys(rl)
    ensures KeyIndex(SliceRoots(rl, sums), 0) == 0
  {
    if KeyIndex(SliceRoots(rl, sums), 0) > 0 {
      SmallKey(rl, sums, 0);
    }
  }

  /** The slice of one term offers only the literal "below 1" at its weight. */
  lemma LiteralFails(p: Problem, i: nat, t: Term, a: Assignment)
    requires i < |p.objs| == |p.roots| == |p.max| && EncodesObjective(p, i) && SatDb(p.hard, a) &&
        Value(p.objs[i], a) > 0
    ensures LiteralDenied(SliceRoots(p.roots[i], Sums([t])), t.w, a)
  {
    var sums := Sums([t]);
    var me := SliceRoots(p.roots[i], sums);
    var j := KeyIndex(me, t.w);
    KeysSorted(p, i);
    SumsOfOne(t);
    hide SliceRoots, Sums, SatDb, Value, EncodesObjective, SortedKeys, KeyIndex, Holds;
    if j > 0 {
      SmallKey(p.roots[i], sums, t.w);
      var e := SliceEntry(p.roots[i], sums, j);
      assert me[j].key == 1;
      RootMeaning(p, i, e, a);
    }
  }

  lemma RootMeaning(p: Problem, i: nat, e: nat, a: Assignment)
    requires i < |p.objs| == |p.roots| == |p.max| && EncodesObjective(p, i) && 1 <= e < |p.roots[i]| && SatDb(p.hard, a)
    ensures Holds(p.roots[i][e].lit, a) <==> Value(p.objs[i], a) < p.roots[i][e].key
  {
  }

  lemma SmallKey(rl: Roots, sums: set<nat>, y: nat)
    requires SortedKeys(rl) && KeyIndex(SliceRoots(rl, sums), y) > 0
    ensures var me := SliceRoots(rl, sums); var r := me[KeyIndex(me, y)]; 0 < r.key <= y && r.key - 1 in sums
  {
    SliceMembers(rl, sums);
    IndexedRoot(SliceRoots(rl, sums), y);
  }

  /** All slices block exactly the dominated regions of all their points if and only if in every
      objective all positive weights are equal. */
  lemma ExactIffUniform(I: Instance)
    requires ValidInstance(I)
    ensures ExactBlocks(I.p) <==> AllUniform(I.p.objs)
  {
    assert |I.p.objs| == |I.p.roots|;
    hide ValidInstance, SatDb, SatClause, SliceClause, Eval, Dominates, SlicePoint;
    if AllUniform(I.p.objs) {
      forall slice, y | SlicePoint(I.p, slice, y)
        ensures ExactBlock(I.p, slice, y)
      {
        UniformIsExact(I, slice, y);
      }
    } else {
      var i :| 0 <= i < |I.p.objs| && !Uniform(I.p.objs[i]);
      var ts := I.p.objs[i];
      var m, n :| 0 <= m < |ts| && 0 <= n < |ts| && ts[m].w > 0 && ts[n].w > 0 && ts[m].w != ts[n].w;
      var low, high := if ts[m].w < ts[n].w then m else n, if ts[m].w < ts[n].w then n else m;
      var slice, y, a := UnequalRejects(I, i, low, high);
      assert !ExactBlock(I.p, slice, y);
    }
  }

  lemma UniformIsExact(I: Instance, slice: set<Lit>, y: Point)
    requires ValidInstance(I) && AllUniform(I.p.objs) && SlicePoint(I.p, slice, y)
    ensures ExactBlock(I.p, slice, y)
  {
    UniformClause(I, slice, y);
    forall a: Assignment | SatDb(I.p.hard, a)
      ensures SatClause(SliceClause(I.p, slice, y), a) <==> !Dominates(y, Eval(I.p, a))
    {
      BlockMeaning(I.p, y, a);
    }
  }

  // ---------------------------------------------------------------- guarded blocks

  /** The clause was made from some slice for a point of that slice, under the guard `v`. */
  ghost predicate FromSlice(p: Problem, v: nat, y: Point, clause: Clause) {
    exists slice :: MadeFrom(p, slice, v, y, clause)
  }

  predicate MadeFrom(p: Problem, slice: set<Lit>, v: nat, y: Point, clause: Clause) {
    SlicePoint(p, slice, y) && clause == SliceClause(p, slice, y) + {Lit(v, true)}
  }

  lemma FromThis(p: Problem, slice: set<Lit>, v: nat, y: Point, clause: Clause)
    requires MadeFrom(p, slice, v, y, clause)
    ensures FromSlice(p, v, y, clause)
  {
  }

  /** The clause is the one that the complete objectives would give. */
  predicate Tight(p: Problem, v: nat, y: Point, clause: Clause) {
    clause == BlockClause(p.roots, y) + {Lit(v, true)}
  }

  /** With equal weights every guarded block is tight. */
  lemma UniformIsNeverLoose(I: Instance, v: nat, y: Point, clause: Clause)
    requires ValidInstance(I) && AllUniform(I.p.objs) && FromSlice(I.p, v, y, clause)
    ensures Tight(I.p, v, y, clause)
  {
    var slice :| MadeFrom(I.p, slice, v, y, clause);
    UniformClause(I, slice, y);
  }

  /** While the guard is true, every block rejects what its point dominates. */
  lemma GuardBites(I: Instance, v: nat, y: Point, clause: Clause, m: Assignment)
    requires ValidInstance(I) && FromSlice(I.p, v, y, clause) && SatDb(I.p.hard, m) && SatClause(clause, m) && v in m
    ensures !Dominates(y, Eval(I.p, m))
  {
    hide ValidInstance, SliceClause, SatDb, Eval, Dominates;
    var slice :| MadeFrom(I.p, slice, v, y, clause);
    var l :| l in clause && Holds(l, m);
    assert l in SliceClause(I.p, slice, y);
    SliceClauseBites(I, slice, y, m);
  }

  /** A tight block holds where its point does not dominate, or the guard is false. */
  lemma TightHolds(I: Instance, v: nat, y: Point, clause: Clause, e: Assignment)
    requires Valid(I.p) && |y| == |I.p.objs| && Tight(I.p, v, y, clause) && SatDb(I.p.hard, e)
    requires v in e ==> !Dominates(y, Eval(I.p, e))
    ensures SatClause(clause, e)
  {
    hide Valid, BlockClause, Eval;
    BlockMeaning(I.p, y, e);
    if v in e {
      var l :| l in BlockClause(I.p.roots, y) && Holds(l, e);
      assert l in clause;
    } else {
      assert Lit(v, true) in clause && Holds(Lit(v, true), e);
    }
  }
}
