/** Which objective literals the hitting-set optimizer keeps false, and which terms it leaves out. */
module Freezing {
  import opened Cnf

  type Objectives = seq<seq<Term>>

  /** One of the first `n` terms is on the literal. */
  predicate OccursIn(ts: seq<Term>, n: nat, l: Lit)
    requires n <= |ts|
  {
    exists j :: 0 <= j < n && ts[j].l == l
  }

  /** The literal occurs in one of the first `n` objectives. */
  predicate OccursBefore(objs: Objectives, n: nat, l: Lit)
    requires n <= |objs|
  {
    exists i :: 0 <= i < n && OccursIn(objs[i], |objs[i]|, l)
  }

  predicate Occurs(objs: Objectives, l: Lit) {
    OccursBefore(objs, |objs|, l)
  }

  /** No variable occurs in both polarities. */
  ghost predicate NoDoubles(objs: Objectives) {
    forall l: Lit :: !(Occurs(objs, l) && Occurs(objs, l.Not()))
  }

  /** Blocked is exactly what occurs in some objective and whose negation occurs in none. */
  ghost predicate FreezesSingles(objs: Objectives, blocked: set<Lit>) {
    forall l: Lit :: l in blocked <==> Occurs(objs, l) && !Occurs(objs, l.Not())
  }

  // ---------------------------------------------------------------- build

  /** Part of the objectives already read: the first `i`, and `j` terms of the next one. */
  predicate Seen(objs: Objectives, i: nat, j: nat, l: Lit)
    requires i < |objs| && j <= |objs[i]|
  {
    OccursBefore(objs, i, l) || OccursIn(objs[i], j, l)
  }

  /** Outside the doubles, exactly the literals seen so far are blocked. */
  ghost predicate Reading(seen: iset<Lit>, blocked: set<Lit>, doubles: set<nat>) {
    && (forall l: Lit | l in blocked :: l in seen)
    && (forall v: nat | v in doubles :: Lit(v, false) in seen && Lit(v, true) in seen)
    && forall l: Lit | l.v !in doubles && l in seen :: l in blocked && l.Not() !in seen
  }

  ghost function SeenSet(objs: Objectives, i: nat, j: nat): iset<Lit>
    requires i < |objs| && j <= |objs[i]|
  {
    iset l: Lit | Seen(objs, i, j, l)
  }

  ghost function OccurSet(objs: Objectives, i: nat): iset<Lit>
    requires i <= |objs|
  {
    iset l: Lit | OccursBefore(objs, i, l)
  }

  lemma SeenNext(objs: Objectives, i: nat, j: nat)
    requires i < |objs| && j < |objs[i]|
    ensures SeenSet(objs, i, j + 1) == SeenSet(objs, i, j) + iset{objs[i][j].l}
  {
    forall l: Lit
      ensures OccursIn(objs[i], j + 1, l) <==> OccursIn(objs[i], j, l) || l == objs[i][j].l
    {
      if l == objs[i][j].l {
        assert objs[i][j].l == l;
      }
    }
  }

  lemma SeenBounds(objs: Objectives, i: nat)
    requires i < |objs|
    ensures SeenSet(objs, i, 0) == OccurSet(objs, i)
    ensures SeenSet(objs, i, |objs[i]|) == OccurSet(objs, i + 1)
  {
    forall l: Lit
      ensures OccursBefore(objs, i + 1, l) <==> OccursBefore(objs, i, l) || OccursIn(objs[i], |objs[i]|, l)
    {
      if OccursIn(objs[i], |objs[i]|, l) {
        assert OccursIn(objs[i], |objs[i]|, l);
      }
    }
  }

  /** The inner loop for one more literal. */
  method Read(l: Lit, blocked: set<Lit>, doubles: set<nat>, ghost seen: iset<Lit>)
      returns (blocked': set<Lit>, doubles': set<nat>)
    requires Reading(seen, blocked, doubles)
    ensures Reading(seen + iset{l}, blocked', doubles')
  {
    assert l == Lit(l.v, l.neg) && l.Not() == Lit(l.v, !l.neg);
    assert forall k: Lit | k.v == l.v :: k == l || k == l.Not();
    assert forall k: Lit :: k.Not().Not() == k;
    if l.Not() in blocked {
      blocked' := blocked - {l.Not()};
      doubles' := doubles + {l.v};
    } else {
      blocked', doubles' := blocked + {l}, doubles;
    }
  }

  /** The closing loop of an objective: the doubles go, in both polarities. */
  method EraseDoubles(blocked: set<Lit>, doubles: set<nat>) returns (kept: set<Lit>)
    ensures kept == set l | l in blocked && l.v !in doubles
  {
    kept := blocked;
    var todo := doubles;
    assert forall l: Lit :: l == Lit(l.v, false) || l == Lit(l.v, true);
    while todo != {}
      invariant todo <= doubles && kept == set l | l in blocked && l.v !in doubles - todo
      decreases todo
    {
      var v :| v in todo;
      kept := kept - {Lit(v, false), Lit(v, true)};
      todo := todo - {v};
    }
  }

  /** `build`: exactly the literals of the objectives whose negation is in no objective are blocked. */
  method Build(objs: Objectives) returns (blocked: set<Lit>)
    ensures FreezesSingles(objs, blocked)
  {
    blocked := {};
    var doubles: set<nat> := {};
    for i := 0 to |objs|
      invariant Reading(OccurSet(objs, i), blocked, doubles)
      invariant forall l: Lit | l in blocked :: l.v !in doubles
    {
      SeenBounds(objs, i);
      for j := 0 to |objs[i]|
        invariant Reading(SeenSet(objs, i, j), blocked, doubles)
      {
        SeenNext(objs, i, j);
        blocked, doubles := Read(objs[i][j].l, blocked, doubles, SeenSet(objs, i, j));
      }
      blocked := EraseDoubles(blocked, doubles);
    }
    BothPolarities(objs, blocked, doubles);
  }

  lemma BothPolarities(objs: Objectives, blocked: set<Lit>, doubles: set<nat>)
    requires Reading(OccurSet(objs, |objs|), blocked, doubles)
    requires forall l: Lit | l in blocked :: l.v !in doubles
    ensures FreezesSingles(objs, blocked)
  {
    var seen := OccurSet(objs, |objs|);
    hide OccursBefore;
    forall l: Lit
      ensures l in blocked <==> Occurs(objs, l) && !Occurs(objs, l.Not())
    {
      assert l == Lit(l.v, l.neg) && l.Not() == Lit(l.v, !l.neg);
      assert l in seen <==> Occurs(objs, l);
      assert l.Not() in seen <==> Occurs(objs, l.Not());
    }
  }

  // ---------------------------------------------------------------- thaw

  /** The literals whose terms a thaw takes into the slice. */
  function Thawed(frozen: set<Lit>, s: set<Lit>): set<Lit> {
    s + set l | l in s && l !in frozen :: l.Not()
  }

  /** `thaw`: core literals are unblocked; a core literal that was not blocked brings its negation along. */
  method Thaw(frozen: set<Lit>, s: set<Lit>) returns (frozen': set<Lit>, taken: set<Lit>)
    ensures frozen' == frozen - s && taken == Thawed(frozen, s)
  {
    frozen', taken := frozen, {};
    var rest := s;
    while rest != {}
      invariant rest <= s && frozen' == frozen - (s - rest)
      invariant taken == (s - rest) + set l | l in s - rest && l !in frozen :: l.Not()
      decreases rest
    {
      var x :| x in rest;
      taken := taken + {x};
      if x in frozen' {
        frozen' := frozen' - {x};
      } else {
        taken := taken + {x.Not()};
      }
      rest := rest - {x};
    }
  }

  /** The terms of an objective whose literals are in the slice. */
  function Sliced(ts: seq<Term>, slice: set<Lit>): seq<Term> {
    if ts == [] then []
    else (if ts[0].l in slice then [ts[0]] else []) + Sliced(ts[1..], slice)
  }

  // ---------------------------------------------------------------- what every thaw keeps

  /** Frozen literals are in the objectives, their negations are not, and no core asks for them;
      every other objective literal without a double is in the slice. */
  ghost predicate Frozen(objs: Objectives, cores: Db, frozen: set<Lit>, slice: set<Lit>) {
    && (forall l | l in frozen :: Occurs(objs, l) && !Occurs(objs, l.Not()))
    && (forall c, l | c in cores && l in c :: l !in frozen)
    && forall l: Lit | Occurs(objs, l) && !Occurs(objs, l.Not()) :: l in frozen || l in slice
  }

  lemma BuildFreezes(objs: Objectives, blocked: set<Lit>)
    requires FreezesSingles(objs, blocked)
    ensures Frozen(objs, {}, blocked, {})
  {
  }

  /** Adding cores and thawing their literals keeps the invariant. */
  lemma ThawKeepsFrozen(objs: Objectives, cores: Db, frozen: set<Lit>, slice: set<Lit>, more: Db, s: set<Lit>)
    requires Frozen(objs, cores, frozen, slice) && forall c, l | c in more && l in c :: l in s
    ensures Frozen(objs, cores + more, frozen - s, slice + Thawed(frozen, s))
  {
  }

  /** The assignment with all frozen literals false. */
  function Lowered(a: Assignment, frozen: set<Lit>): Assignment {
    (set v | v in a && Lit(v, false) !in frozen) + set l | l in frozen && l.neg :: l.v
  }

  lemma LoweredHolds(objs: Objectives, cores: Db, frozen: set<Lit>, slice: set<Lit>, a: Assignment, l: Lit)
    requires Frozen(objs, cores, frozen, slice)
    ensures l in frozen ==> !Holds(l, Lowered(a, frozen))
    ensures l.Not() in frozen ==> Holds(l, Lowered(a, frozen))
    ensures l !in frozen && l.Not() !in frozen ==> (Holds(l, Lowered(a, frozen)) <==> Holds(l, a))
  {
    var b := Lowered(a, frozen);
    assert l.Not().Not() == l;
    assert l in frozen ==> !Occurs(objs, l.Not());
    assert l.Not() in frozen ==> Occurs(objs, l.Not());
    assert l == Lit(l.v, l.neg) && l.Not() == Lit(l.v, !l.neg);
    assert l.v in b <==> (l.v in a && Lit(l.v, false) !in frozen) || Lit(l.v, true) in frozen;
  }

  lemma {:induction false} LoweredValue(objs: Objectives, cores: Db, frozen: set<Lit>, slice: set<Lit>, a: Assignment,
      ts: seq<Term>)
    requires Frozen(objs, cores, frozen, slice) && forall j | 0 <= j < |ts| :: Occurs(objs, ts[j].l)
    ensures Value(ts, Lowered(a, frozen)) <= Value(ts, a)
  {
    if ts != [] {
      LoweredValue(objs, cores, frozen, slice, a, ts[1..]);
      var l := ts[0].l;
      LoweredHolds(objs, cores, frozen, slice, a, l);
      assert l.Not().Not() == l;
      assert l.Not() in frozen ==> !Occurs(objs, l.Not().Not());
    }
  }

  /** Freezing loses nothing: every assignment of the cores has one that satisfies them with all
      frozen literals false and is no worse in any objective. */
  lemma FreezingLosesNothing(objs: Objectives, cores: Db, frozen: set<Lit>, slice: set<Lit>, a: Assignment)
    requires Frozen(objs, cores, frozen, slice) && SatDb(cores, a)
    ensures var b := Lowered(a, frozen);
      && SatDb(cores, b) && (forall l | l in frozen :: !Holds(l, b))
      && forall i | 0 <= i < |objs| :: Value(objs[i], b) <= Value(objs[i], a)
  {
    var b := Lowered(a, frozen);
    forall c | c in cores
      ensures SatClause(c, b)
    {
      assert SatClause(c, a);
      var l :| l in c && Holds(l, a);
      LoweredHolds(objs, cores, frozen, slice, a, l);
    }
    forall l | l in frozen
      ensures !Holds(l, b)
    {
      LoweredHolds(objs, cores, frozen, slice, a, l);
    }
    forall i | 0 <= i < |objs|
      ensures Value(objs[i], b) <= Value(objs[i], a)
    {
      forall j | 0 <= j < |objs[i]|
        ensures Occurs(objs, objs[i][j].l)
      {
        assert OccursIn(objs[i], |objs[i]|, objs[i][j].l);
      }
      LoweredValue(objs, cores, frozen, slice, a, objs[i]);
    }
  }

  // ---------------------------------------------------------------- the sliced objectives

  lemma {:induction false} SlicedTerms(ts: seq<Term>, slice: set<Lit>, a: Assignment)
    requires forall j | 0 <= j < |ts| :: ts[j].l in slice || !Holds(ts[j].l, a)
    ensures Value(Sliced(ts, slice), a) == Value(ts, a)
  {
    if ts != [] {
      SlicedTerms(ts[1..], slice, a);
      if ts[0].l in slice {
        assert Sliced(ts, slice)[1..] == Sliced(ts[1..], slice);
      } else {
        assert Sliced(ts, slice) == Sliced(ts[1..], slice);
      }
    }
  }

  /** Without doubles, the sliced objectives are the objectives wherever the frozen literals are false. */
  lemma SliceIsExact(objs: Objectives, cores: Db, frozen: set<Lit>, slice: set<Lit>, a: Assignment, i: nat)
    requires Frozen(objs, cores, frozen, slice) && NoDoubles(objs) && i < |objs|
    requires forall l | l in frozen :: !Holds(l, a)
    ensures Value(Sliced(objs[i], slice), a) == Value(objs[i], a)
  {
    forall j | 0 <= j < |objs[i]|
      ensures objs[i][j].l in slice || !Holds(objs[i][j].l, a)
    {
      var l := objs[i][j].l;
      assert OccursIn(objs[i], |objs[i]|, l) && Occurs(objs, l);
    }
    SlicedTerms(objs[i], slice, a);
  }

  lemma {:induction false} ZeroValue(ts: seq<Term>, a: Assignment)
    requires forall j | 0 <= j < |ts| :: !Holds(ts[j].l, a)
    ensures Value(ts, a) == 0
  {
    if ts != [] {
      ZeroValue(ts[1..], a);
    }
  }

  lemma {:induction false} PositiveValue(ts: seq<Term>, a: Assignment, j: nat)
    requires j < |ts| && ts[j].w > 0 && Holds(ts[j].l, a)
    ensures Value(ts, a) > 0
  {
    if j > 0 {
      PositiveValue(ts[1..], a, j - 1);
    }
  }

  /** Right after `build` nothing is in the slice: the empty slice stands for the objectives exactly
      when no variable occurs in both polarities. */
  lemma EmptySliceIffNoDoubles(objs: Objectives, blocked: set<Lit>)
    requires FreezesSingles(objs, blocked)
    requires forall i, j | 0 <= i < |objs| && 0 <= j < |objs[i]| :: objs[i][j].w > 0
    ensures (forall a: Assignment, i | 0 <= i < |objs| && (forall l | l in blocked :: !Holds(l, a)) ::
        Value(objs[i], a) == 0)
       <==> NoDoubles(objs)
  {
    if NoDoubles(objs) {
      forall a: Assignment, i | 0 <= i < |objs| && (forall l | l in blocked :: !Holds(l, a))
        ensures Value(objs[i], a) == 0
      {
        forall j | 0 <= j < |objs[i]|
          ensures !Holds(objs[i][j].l, a)
        {
          assert OccursIn(objs[i], |objs[i]|, objs[i][j].l) && Occurs(objs, objs[i][j].l);
        }
        ZeroValue(objs[i], a);
      }
    } else {
      var l: Lit :| Occurs(objs, l) && Occurs(objs, l.Not());
      var a := Lowered(if l.neg then {} else {l.v}, blocked);
      BuildFreezes(objs, blocked);
      assert l.Not().Not() == l;
      LoweredHolds(objs, {}, blocked, {}, if l.neg then {} else {l.v}, l);
      assert Holds(l, a);
      forall k | k in blocked
        ensures !Holds(k, a)
      {
        LoweredHolds(objs, {}, blocked, {}, if l.neg then {} else {l.v}, k);
      }
      var i :| 0 <= i < |objs| && OccursIn(objs[i], |objs[i]|, l);
      var j :| 0 <= j < |objs[i]| && objs[i][j].l == l;
      PositiveValue(objs[i], a, j);
    }
  }
}
