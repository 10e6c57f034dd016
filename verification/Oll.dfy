/** OLL for weighted MaxSAT: cores become cardinality terms, and no cost is gained or lost. */
module Oll {
  import opened Cnf

  /** A relaxation literal: of a soft clause, or an output "more than `k` inputs hold" of a
      totalizer. Its truth under an assignment of the formula is its least extension. */
  datatype RLit =
    | Relax(id: nat, clause: Clause)
    | Output(enc: nat, inputs: seq<RLit>, k: nat)

  datatype WeightedClause = WeightedClause(clause: Clause, weight: nat, active: bool)

  predicate True(t: RLit, a: Assignment)
    decreases t, 0
  {
    match t
    case Relax(_, clause) => !SatClause(clause, a)
    case Output(_, inputs, k) => CountTrue(inputs, a) > k
  }

  function CountTrue(ts: seq<RLit>, a: Assignment): (n: nat)
    ensures n <= |ts|
    decreases ts, 1
  {
    if ts == [] then 0 else (if True(ts[0], a) then 1 else 0) + CountTrue(ts[1..], a)
  }

  /** By how much the count of a totalizer exceeds its bound. */
  function Excess(t: RLit, a: Assignment): nat {
    match t
    case Relax(_, _) => 0
    case Output(_, inputs, k) => if CountTrue(inputs, a) > k then CountTrue(inputs, a) - k else 0
  }

  // ---------------------------------------------------------------- costs

  function Penalty(c: Clause, a: Assignment): nat {
    if SatClause(c, a) then 0 else 1
  }

  /** `computeCostModel`: the weight of the falsified soft clauses. */
  function SoftCost(softs: seq<WeightedClause>, a: Assignment): nat {
    if softs == [] then 0 else softs[0].weight * Penalty(softs[0].clause, a) + SoftCost(softs[1..], a)
  }

  /** The part of the cost that is still carried by soft clauses outside every core. */
  function SoftSum(softs: seq<WeightedClause>, a: Assignment): nat {
    if softs == [] then 0
    else (if softs[0].active then 0 else softs[0].weight * Penalty(softs[0].clause, a)) + SoftSum(softs[1..], a)
  }

  /** The part that is carried by the live cardinality terms. */
  ghost function CardSum(live: set<RLit>, bounds: map<RLit, nat>, a: Assignment): nat
    requires live <= bounds.Keys
  {
    if live == {} then 0
    else var t :| t in live; bounds[t] * Excess(t, a) + CardSum(live - {t}, bounds, a)
  }

  ghost function Residual(softs: seq<WeightedClause>, live: set<RLit>, bounds: map<RLit, nat>, a: Assignment): nat
    requires live <= bounds.Keys
  {
    SoftSum(softs, a) + CardSum(live, bounds, a)
  }

  lemma {:induction false} CostUpdate(softs: seq<WeightedClause>, i: nat, s: WeightedClause, a: Assignment)
    requires i < |softs|
    ensures SoftCost(softs[i := s], a) == SoftCost(softs, a)
              - softs[i].weight * Penalty(softs[i].clause, a) + s.weight * Penalty(s.clause, a)
  {
    if i > 0 {
      assert softs[i := s][1..] == softs[1..][i - 1 := s];
      CostUpdate(softs[1..], i - 1, s, a);
    }
  }

  lemma {:induction false} CostAppend(softs: seq<WeightedClause>, s: WeightedClause, a: Assignment)
    ensures SoftCost(softs + [s], a) == SoftCost(softs, a) + s.weight * Penalty(s.clause, a)
  {
    if softs == [] {
      assert softs + [s] == [s];
    } else {
      assert (softs + [s])[1..] == softs[1..] + [s];
      CostAppend(softs[1..], s, a);
    }
  }

  function Carried(s: WeightedClause, a: Assignment): nat {
    if s.active then 0 else s.weight * Penalty(s.clause, a)
  }

  lemma {:induction false} SoftSumUpdate(softs: seq<WeightedClause>, i: nat, s: WeightedClause, a: Assignment)
    requires i < |softs|
    ensures SoftSum(softs[i := s], a) == SoftSum(softs, a) - Carried(softs[i], a) + Carried(s, a)
  {
    if i > 0 {
      assert softs[i := s][1..] == softs[1..][i - 1 := s];
      SoftSumUpdate(softs[1..], i - 1, s, a);
    }
  }

  lemma {:induction false} SoftSumAppend(softs: seq<WeightedClause>, s: WeightedClause, a: Assignment)
    ensures SoftSum(softs + [s], a) == SoftSum(softs, a) + Carried(s, a)
  {
    if softs == [] {
      assert softs + [s] == [s];
    } else {
      assert (softs + [s])[1..] == softs[1..] + [s];
      SoftSumAppend(softs[1..], s, a);
    }
  }

  lemma {:induction false} CardSumRemove(live: set<RLit>, bounds: map<RLit, nat>, t: RLit, a: Assignment)
    requires live <= bounds.Keys && t in live
    ensures CardSum(live, bounds, a) == bounds[t] * Excess(t, a) + CardSum(live - {t}, bounds, a)
    decreases |live|
  {
    var u :| u in live && CardSum(live, bounds, a) == bounds[u] * Excess(u, a) + CardSum(live - {u}, bounds, a);
    if u != t {
      CardSumRemove(live - {u}, bounds, t, a);
      CardSumRemove(live - {t}, bounds, u, a);
      assert live - {u} - {t} == live - {t} - {u};
    }
  }

  lemma {:induction false} CardSumSame(live: set<RLit>, bounds: map<RLit, nat>, others: map<RLit, nat>, a: Assignment)
    requires live <= bounds.Keys && live <= others.Keys
    requires forall t | t in live :: bounds[t] == others[t]
    ensures CardSum(live, bounds, a) == CardSum(live, others, a)
    decreases |live|
  {
    if live != {} {
      var t :| t in live;
      CardSumRemove(live, bounds, t, a);
      CardSumRemove(live, others, t, a);
      CardSumSame(live - {t}, bounds, others, a);
    }
  }

  /** Setting the weight of one term, new or old, in the live set. */
  lemma CardSumSet(live: set<RLit>, bounds: map<RLit, nat>, t: RLit, w: nat, a: Assignment)
    requires live <= bounds.Keys
    ensures CardSum(live + {t}, bounds[t := w], a) == CardSum(live - {t}, bounds, a) + w * Excess(t, a)
  {
    CardSumRemove(live + {t}, bounds[t := w], t, a);
    assert live + {t} - {t} == live - {t};
    CardSumSame(live - {t}, bounds, bounds[t := w], a);
  }

  // ---------------------------------------------------------------- one core

  function Bit(b: bool): nat { if b then 1 else 0 }

  /** A literal that a core may hold: an untouched soft clause or a live output, of weight at least `m`. */
  predicate Relaxable(softs: seq<WeightedClause>, live: set<RLit>, bounds: map<RLit, nat>, p: RLit, m: nat) {
    match p
    case Relax(id, clause) => id < |softs| && softs[id].clause == clause && !softs[id].active && softs[id].weight >= m
    case Output(_, _, _) => p in live && p in bounds && bounds[p] >= m
  }

  /** Each totalizer has at most one live output; all weights are positive. */
  ghost predicate WellFormed(softs: seq<WeightedClause>, live: set<RLit>, bounds: map<RLit, nat>, nEnc: nat) {
    && live <= bounds.Keys
    && (forall t | t in live :: t.Output? && t.enc < nEnc && t.k < |t.inputs| && bounds[t] >= 1)
    && (forall t, u | t in live && u in live && t.enc == u.enc :: t == u)
    && (forall s | s in softs :: s.weight >= 1)
  }

  function Next(p: RLit): RLit
    requires p.Output?
  {
    Output(p.enc, p.inputs, p.k + 1)
  }

  /** One unit of excess is the output itself, the rest is the excess over the next bound. */
  lemma ExcessStep(p: RLit, m: nat, a: Assignment)
    requires p.Output?
    ensures m * Excess(p, a) == m * Bit(True(p, a)) + m * Excess(Next(p), a)
    ensures p.k + 1 >= |p.inputs| ==> m * Excess(Next(p), a) == 0
  {
    if True(p, a) {
      assert Excess(p, a) == 1 + Excess(Next(p), a);
    }
  }

  /** Splitting the core's weight off a soft clause. */
  function Split(softs: seq<WeightedClause>, i: nat, m: nat): seq<WeightedClause>
    requires i < |softs| && softs[i].weight >= m
  {
    softs[i := softs[i].(weight := softs[i].weight - m)] + [WeightedClause(softs[i].clause, m, true)]
  }

  lemma SplitSums(softs: seq<WeightedClause>, i: nat, m: nat, a: Assignment)
    requires i < |softs| && softs[i].weight >= m && !softs[i].active
    ensures SoftSum(Split(softs, i, m), a) + m * Penalty(softs[i].clause, a) == SoftSum(softs, a)
    ensures SoftCost(Split(softs, i, m), a) == SoftCost(softs, a)
  {
    var s := softs[i];
    var rest, part := s.(weight := s.weight - m), WeightedClause(s.clause, m, true);
    SoftSumUpdate(softs, i, rest, a);
    SoftSumAppend(softs[i := rest], part, a);
    CostUpdate(softs, i, rest, a);
    CostAppend(softs[i := rest], part, a);
    assert (s.weight - m) * Penalty(s.clause, a) + m * Penalty(s.clause, a) == s.weight * Penalty(s.clause, a);
  }

  lemma ActivateSums(softs: seq<WeightedClause>, i: nat, a: Assignment)
    requires i < |softs| && !softs[i].active
    ensures var softs' := softs[i := softs[i].(active := true)];
            && SoftSum(softs', a) + softs[i].weight * Penalty(softs[i].clause, a) == SoftSum(softs, a)
            && SoftCost(softs', a) == SoftCost(softs, a)
  {
    SoftSumUpdate(softs, i, softs[i].(active := true), a);
    CostUpdate(softs, i, softs[i].(active := true), a);
  }

  /** Moving the weight `m` of a live output elsewhere. */
  lemma LightenSums(live: set<RLit>, bounds: map<RLit, nat>, p: RLit, m: nat, a: Assignment)
    requires live <= bounds.Keys && p in live && bounds[p] >= m
    ensures CardSum(live, bounds[p := bounds[p] - m], a) + m * Excess(p, a) == CardSum(live, bounds, a)
    ensures CardSum(live - {p}, bounds, a) + bounds[p] * Excess(p, a) == CardSum(live, bounds, a)
  {
    CardSumRemove(live, bounds, p, a);
    CardSumSet(live, bounds, p, bounds[p] - m, a);
    assert live + {p} == live;
    Distribute(bounds[p], m, Excess(p, a));
  }

  lemma Distribute(w: nat, m: nat, x: nat)
    requires m <= w
    ensures w * x == (w - m) * x + m * x
  {
  }

  ghost predicate Model(hard: Db, n: nat, a: Assignment) {
    a <= VarsBelow(n) && SatDb(hard, a)
  }

  /** A core: assumed literals of which every model of the hard clauses makes at least one true. */
  ghost predicate CoreOf(hard: Db, n: nat, assumed: set<RLit>, core: seq<RLit>) {
    && (forall p | p in core :: p in assumed)
    && (forall i, j | 0 <= i < j < |core| :: core[i] != core[j])
    && (forall a: Assignment | Model(hard, n, a) :: CountTrue(core, a) >= 1)
  }

  predicate Avoids(a: Assignment, ps: set<RLit>) {
    forall p | p in ps :: !True(p, a)
  }

  lemma SomeMember(core: seq<RLit>)
    ensures core == [] || exists p :: p in core
  {
    if core != [] {
      assert core[0] in core;
    }
  }

  lemma NothingAssumed(hard: Db, n: nat, core: seq<RLit>)
    requires CoreOf(hard, n, {}, core)
    ensures forall a: Assignment :: !Model(hard, n, a)
  {
    SomeMember(core);
  }

  lemma CountTrueMember(ts: seq<RLit>, t: RLit, a: Assignment)
    requires t in ts && True(t, a)
    ensures CountTrue(ts, a) >= 1
  {
  }

  lemma CountTrueNone(ts: seq<RLit>, a: Assignment)
    requires forall t | t in ts :: !True(t, a)
    ensures CountTrue(ts, a) == 0
  {
  }

  lemma {:induction false} CountTrueConcat(ts: seq<RLit>, us: seq<RLit>, a: Assignment)
    ensures CountTrue(ts + us, a) == CountTrue(ts, a) + CountTrue(us, a)
  {
    if ts == [] {
      assert ts + us == us;
    } else {
      assert (ts + us)[1..] == ts[1..] + us;
      CountTrueConcat(ts[1..], us, a);
    }
  }

  lemma CountTrueAppend(ts: seq<RLit>, t: RLit, a: Assignment)
    ensures CountTrue(ts + [t], a) == CountTrue(ts, a) + Bit(True(t, a))
  {
    CountTrueConcat(ts, [t], a);
    assert [t][1..] == [];
  }

  method SetToSeq(s: set<RLit>) returns (r: seq<RLit>)
    ensures forall t :: t in r <==> t in s
    ensures forall i, j | 0 <= i < j < |r| :: r[i] != r[j]
  {
    r := [];
    var rest := s;
    while rest != {}
      invariant rest <= s && (forall t :: t in r <==> t in s && t !in rest)
      invariant forall i, j | 0 <= i < j < |r| :: r[i] != r[j]
      decreases |rest|
    {
      var t :| t in rest;
      r := r + [t];
      rest := rest - {t};
    }
  }

  /** The SAT solver on the hard clauses, the soft clauses and the totalizers: it answers with a
      model whose assumed relaxation literals are false, or with a core. */
  method SearchSat(hard: Db, n: nat, assumed: set<RLit>) returns (sat: bool, model: Assignment, core: seq<RLit>)
    ensures sat ==> Model(hard, n, model) && Avoids(model, assumed)
    ensures !sat ==> CoreOf(hard, n, assumed, core)
  {
    var vars := VarsBelow(n);
    model, core := {}, [];
    if a :| a <= vars && SatDb(hard, a) && Avoids(a, assumed) {
      return true, a, [];
    }
    var c: set<RLit> :| c <= assumed && forall a | a <= vars :: !(SatDb(hard, a) && Avoids(a, c));
    core := SetToSeq(c);
    forall a: Assignment | Model(hard, n, a)
      ensures CountTrue(core, a) >= 1
    {
      assert !Avoids(a, c);
      var p :| p in c && True(p, a);
      CountTrueMember(core, p, a);
    }
    sat := false;
  }

  lemma FreshSums(softs: seq<WeightedClause>, a: Assignment)
    requires forall s | s in softs :: !s.active
    ensures SoftSum(softs, a) == SoftCost(softs, a)
  {
  }

  /** One more literal of the core is relaxed. */
  lemma CountStep(core: seq<RLit>, i: nat, relaxed: seq<RLit>, r: RLit, m: nat)
    requires i < |core|
    ensures forall a: Assignment :: CountTrue(relaxed + [r], a) == CountTrue(relaxed, a) + Bit(True(r, a))
    ensures forall a: Assignment :: CountTrue(core[..i + 1], a) == CountTrue(core[..i], a) + Bit(True(core[i], a))
    ensures forall a: Assignment ::
        m * CountTrue(core[..i + 1], a) == m * CountTrue(core[..i], a) + m * Bit(True(core[i], a))
  {
    hide CountTrue, True, Bit;
    assert core[..i + 1] == core[..i] + [core[i]];
    forall a: Assignment
      ensures CountTrue(relaxed + [r], a) == CountTrue(relaxed, a) + Bit(True(r, a))
      ensures CountTrue(core[..i + 1], a) == CountTrue(core[..i], a) + Bit(True(core[i], a))
      ensures m * CountTrue(core[..i + 1], a) == m * CountTrue(core[..i], a) + m * Bit(True(core[i], a))
    {
      CountTrueAppend(relaxed, r, a);
      CountTrueAppend(core[..i], core[i], a);
      TimesBit(m, CountTrue(core[..i], a), True(core[i], a));
    }
  }

  class Search {
    const hard: Db
    const n: nat
    ghost const original: seq<WeightedClause>
    var softs: seq<WeightedClause>
    var live: set<RLit>
    var bounds: map<RLit, nat>
    var nEnc: nat
    var lbCost: nat
    var ubCost: nat
    var model: Assignment
    var nbSatisfiable: nat
    var minWeight: nat

    constructor (hard: Db, n: nat, softs: seq<WeightedClause>)
      requires forall s | s in softs :: s.weight >= 1 && !s.active
      ensures this.softs == original == softs && this.hard == hard && this.n == n && nbSatisfiable == 0 && Inv()
    {
      this.hard, this.n, this.original := hard, n, softs;
      this.softs, live, bounds, nEnc := softs, {}, map[], 0;
      lbCost, ubCost, model, nbSatisfiable, minWeight := 0, 0, {}, 0, 1;
      new;
      forall a: Assignment
        ensures SoftSum(softs, a) == SoftCost(softs, a)
      {
        FreshSums(softs, a);
      }
    }

    /** Nothing is gained or lost: lower bound plus residual is the original cost of every model. */
    ghost predicate Conserved()
      reads this
      requires WF()
    {
      forall a: Assignment | Model(hard, n, a) ::
        lbCost + Rest(a) == SoftCost(original, a) && SoftCost(softs, a) == SoftCost(original, a)
    }

    ghost predicate Inv()
      reads this
    {
      && WF() && Conserved() && minWeight >= 1
      && (nbSatisfiable > 0 ==> Model(hard, n, model) && ubCost == SoftCost(original, model))
    }

    ghost predicate WF()
      reads this
    {
      WellFormed(softs, live, bounds, nEnc)
    }

    ghost function Rest(a: Assignment): nat
      reads this
      requires WF()
    {
      Residual(softs, live, bounds, a)
    }

    predicate CanRelax(p: RLit, m: nat)
      reads this
    {
      Relaxable(softs, live, bounds, p, m)
    }

    /** A soft clause in the core: it is relaxed, after splitting off the core's weight if it is heavier. */
    method RelaxSoft(p: RLit, m: nat) returns (r: RLit)
      requires WF() && p.Relax? && CanRelax(p, m) && m >= 1
      modifies this`softs
      ensures WF()
      ensures forall a: Assignment :: Rest(a) + m * Bit(True(r, a)) == old(Rest(a)) && True(r, a) == True(p, a)
      ensures forall a: Assignment :: SoftCost(softs, a) == SoftCost(old(softs), a)
      ensures forall q, n | q != p && old(CanRelax(q, n)) :: CanRelax(q, n)
    {
      var i := p.id;
      var s := softs[i];
      if s.weight > m {
        forall a: Assignment
          ensures SoftSum(Split(softs, i, m), a) + m * Penalty(s.clause, a) == SoftSum(softs, a)
          ensures SoftCost(Split(softs, i, m), a) == SoftCost(softs, a)
        {
          SplitSums(softs, i, m, a);
        }
        r := Relax(|softs|, s.clause);
        softs := softs[i := s.(weight := s.weight - m)] + [WeightedClause(s.clause, m, true)];
      } else {
        forall a: Assignment
          ensures SoftSum(softs[i := s.(active := true)], a) + m * Penalty(s.clause, a) == SoftSum(softs, a)
          ensures SoftCost(softs[i := s.(active := true)], a) == SoftCost(softs, a)
        {
          ActivateSums(softs, i, a);
        }
        r := p;
        softs := softs[i := s.(active := true)];
      }
    }

    /** Raise the bound of a totalizer: the next output takes over the weight `m`, if there is one. */
    method Raise(p: RLit, m: nat)
      requires WF() && p.Output? && p.enc < nEnc && m >= 1
      requires forall t | t in live :: t.enc != p.enc
      modifies this`live, this`bounds
      ensures WF()
      ensures forall a: Assignment :: Rest(a) + m * Bit(True(p, a)) == old(Rest(a)) + m * Excess(p, a)
      ensures old(live) <= live && forall t | t in old(live) :: bounds[t] == old(bounds)[t]
    {
      forall a: Assignment
        ensures m * Excess(p, a) == m * Bit(True(p, a)) + m * Excess(Next(p), a)
        ensures p.k + 1 >= |p.inputs| ==> m * Excess(Next(p), a) == 0
      {
        ExcessStep(p, m, a);
      }
      if p.k + 1 < |p.inputs| {
        var out := Next(p);
        assert live - {out} == live;
        forall a: Assignment
          ensures CardSum(live + {out}, bounds[out := m], a) == CardSum(live, bounds, a) + m * Excess(out, a)
        {
          CardSumSet(live, bounds, out, m, a);
        }
        bounds := bounds[out := m];
        live := live + {out};
      }
    }

    /** An output in the core: its bound is raised, in a duplicate totalizer if it is heavier than the core. */
    method RelaxOutput(p: RLit, m: nat) returns (r: RLit)
      requires WF() && p.Output? && CanRelax(p, m) && m >= 1
      modifies this`live, this`bounds, this`nEnc
      ensures WF()
      ensures forall a: Assignment :: Rest(a) + m * Bit(True(r, a)) == old(Rest(a)) && True(r, a) == True(p, a)
      ensures forall q, n | q != p && old(CanRelax(q, n)) :: CanRelax(q, n)
    {
      var w := bounds[p];
      forall a: Assignment
        ensures CardSum(live, bounds[p := w - m], a) + m * Excess(p, a) == CardSum(live, bounds, a)
        ensures CardSum(live - {p}, bounds, a) + w * Excess(p, a) == CardSum(live, bounds, a)
      {
        LightenSums(live, bounds, p, m, a);
      }
      if w == m {
        live := live - {p};
        r := p;
      } else {
        r := Output(nEnc, p.inputs, p.k);
        nEnc := nEnc + 1;
        bounds := bounds[p := w - m];
      }
      Raise(r, m);
    }

    /** `computeCostModel`. */
    method ComputeCost(a: Assignment) returns (cost: nat)
      ensures cost == SoftCost(softs, a)
    {
      cost := 0;
      for i := 0 to |softs|
        invariant cost + SoftCost(softs[i..], a) == SoftCost(softs, a)
      {
        if !SatClause(softs[i].clause, a) {
          cost := cost + softs[i].weight;
        }
        assert softs[i..][1..] == softs[i + 1..];
      }
    }

    /** Every literal of the core carries the weight, and one of them carries no more. */
    ghost predicate IsMinCore(core: seq<RLit>, m: nat)
      reads this
    {
      (forall p | p in core :: CanRelax(p, m)) && exists p :: p in core && !CanRelax(p, m + 1)
    }

    /** The least weight in a core. */
    method MinCore(core: seq<RLit>) returns (m: nat)
      requires WF() && core != [] && forall p | p in core :: CanRelax(p, 1)
      ensures m >= 1 && IsMinCore(core, m)
    {
      assert core[0] in core;
      m := if core[0].Relax? then softs[core[0].id].weight else bounds[core[0]];
      for i := 1 to |core|
        invariant m >= 1 && forall j | 0 <= j < i :: CanRelax(core[j], m)
        invariant exists p :: p in core && !CanRelax(p, m + 1)
      {
        assert core[i] in core;
        var w := if core[i].Relax? then softs[core[i].id].weight else bounds[core[i]];
        if w < m {
          m := w;
        }
      }
    }

    method RelaxLiteral(p: RLit, m: nat) returns (r: RLit)
      requires WF() && CanRelax(p, m) && m >= 1
      modifies this`softs, this`live, this`bounds, this`nEnc
      ensures WF()
      ensures forall a: Assignment :: Rest(a) + m * Bit(True(r, a)) == old(Rest(a)) && True(r, a) == True(p, a)
      ensures forall a: Assignment :: SoftCost(softs, a) == SoftCost(old(softs), a)
      ensures forall q, k | q != p && old(CanRelax(q, k)) :: CanRelax(q, k)
    {
      if p.Relax? {
        r := RelaxSoft(p, m);
      } else {
        r := RelaxOutput(p, m);
      }
    }

    /** Relax the literals of a core one by one: together they carry the weight `m` off the rest. */
    method RelaxCore(core: seq<RLit>, m: nat) returns (relaxed: seq<RLit>)
      requires WF() && m >= 1 && forall p | p in core :: CanRelax(p, m)
      requires forall i, j | 0 <= i < j < |core| :: core[i] != core[j]
      modifies this`softs, this`live, this`bounds, this`nEnc
      ensures WF() && |relaxed| == |core|
      ensures forall a: Assignment :: Rest(a) + m * CountTrue(core, a) == old(Rest(a))
      ensures forall a: Assignment :: CountTrue(relaxed, a) == CountTrue(core, a)
      ensures forall a: Assignment :: SoftCost(softs, a) == SoftCost(old(softs), a)
    {
      relaxed := [];
      for i := 0 to |core|
        invariant WF() && |relaxed| == i
        invariant forall j | i <= j < |core| :: CanRelax(core[j], m)
        invariant forall a: Assignment :: Rest(a) + m * CountTrue(core[..i], a) == old(Rest(a))
        invariant forall a: Assignment :: CountTrue(relaxed, a) == CountTrue(core[..i], a)
        invariant forall a: Assignment :: SoftCost(softs, a) == SoftCost(old(softs), a)
      {
        var r := RelaxLiteral(core[i], m);
        CountStep(core, i, relaxed, r, m);
        relaxed := relaxed + [r];
      }
      assert core[..|core|] == core;
    }

    /** A new totalizer over the relaxed literals, of which one may hold for free. */
    method BuildTotalizer(inputs: seq<RLit>, m: nat)
      requires WF() && |inputs| > 1 && m >= 1
      modifies this`live, this`bounds, this`nEnc
      ensures WF()
      ensures forall a: Assignment | CountTrue(inputs, a) >= 1 :: Rest(a) + m == old(Rest(a)) + m * CountTrue(inputs, a)
    {
      var out := Output(nEnc, inputs, 1);
      assert live - {out} == live;
      forall a: Assignment
        ensures CardSum(live + {out}, bounds[out := m], a) == CardSum(live, bounds, a) + m * Excess(out, a)
        ensures CountTrue(inputs, a) >= 1 ==> m * Excess(out, a) + m == m * CountTrue(inputs, a)
      {
        CardSumSet(live, bounds, out, m, a);
        if CountTrue(inputs, a) >= 1 {
          FreeOne(out, m, a);
        }
      }
      nEnc := nEnc + 1;
      bounds := bounds[out := m];
      live := live + {out};
    }

    /** Reduce a core to the unweighted case and turn it into a totalizer with bound one. */
    method ProcessCore(core: seq<RLit>, m: nat)
      requires WF() && core != [] && m >= 1 && forall p | p in core :: CanRelax(p, m)
      requires forall i, j | 0 <= i < j < |core| :: core[i] != core[j]
      modifies this`softs, this`live, this`bounds, this`nEnc
      ensures WF()
      ensures forall a: Assignment | CountTrue(core, a) >= 1 :: Rest(a) + m == old(Rest(a))
      ensures forall a: Assignment :: SoftCost(softs, a) == SoftCost(old(softs), a)
    {
      var relaxed := RelaxCore(core, m);
      if |relaxed| > 1 {
        BuildTotalizer(relaxed, m);
      } else {
        assert forall a: Assignment | CountTrue(core, a) >= 1 :: m * CountTrue(core, a) == m;
      }
    }

    // ---- the loop of `weighted`

    /** All weights that are still in play. */
    function Weights(): set<nat>
      reads this`softs, this`live, this`bounds
      requires live <= bounds.Keys
    {
      (set s | s in softs :: s.weight) + set t | t in live :: bounds[t]
    }

    method SoftAssumptions() returns (assumed: set<RLit>)
      ensures assumed == SoftLits(softs, minWeight)
    {
      assumed := {};
      for i := 0 to |softs|
        invariant assumed == set j | 0 <= j < i && !softs[j].active && softs[j].weight >= minWeight ::
            Relax(j, softs[j].clause)
      {
        if !softs[i].active && softs[i].weight >= minWeight {
          assumed := assumed + {Relax(i, softs[i].clause)};
        }
      }
    }

    method LiveAssumptions() returns (assumed: set<RLit>)
      requires live <= bounds.Keys
      ensures assumed == LiveLits(live, bounds, minWeight)
    {
      assumed := {};
      var rest := live;
      while rest != {}
        invariant rest <= live && assumed == LiveLits(live - rest, bounds, minWeight)
        decreases |rest|
      {
        var t :| t in rest;
        if bounds[t] >= minWeight {
          assumed := assumed + {t};
        }
        rest := rest - {t};
      }
      assert live - rest == live;
    }

    method ResetAssumptions() returns (assumed: set<RLit>)
      requires WF()
      ensures assumed == Assumed()
    {
      var softLits := SoftAssumptions();
      var liveLits := LiveAssumptions();
      assumed := softLits + liveLits;
    }

    function Assumed(): set<RLit>
      reads this
      requires live <= bounds.Keys
    {
      SoftLits(softs, minWeight) + LiveLits(live, bounds, minWeight)
    }

    predicate AllReach(weight: nat)
      reads this`softs, this`live, this`bounds
      requires live <= bounds.Keys
    {
      (forall s | s in softs :: s.weight >= weight) && (forall t | t in live :: bounds[t] >= weight)
    }

    /** The largest weight below `weight`, or 1. */
    method FindNextWeight(weight: nat) returns (next: nat)
      requires WF()
      ensures next == 1 || (next in Weights() && 1 < next < weight)
      ensures forall w | w in Weights() && w < weight :: w <= next
    {
      next := 1;
      for i := 0 to |softs|
        invariant next == 1 || (next in Weights() && 1 < next < weight)
        invariant forall j | 0 <= j < i && softs[j].weight < weight :: softs[j].weight <= next
      {
        assert softs[i] in softs && softs[i].weight in Weights();
        if softs[i].weight > next && softs[i].weight < weight {
          next := softs[i].weight;
        }
      }
      var rest := live;
      while rest != {}
        invariant rest <= live && (next == 1 || (next in Weights() && 1 < next < weight))
        invariant forall j | 0 <= j < |softs| && softs[j].weight < weight :: softs[j].weight <= next
        invariant forall t | t in live - rest && bounds[t] < weight :: bounds[t] <= next
        decreases |rest|
      {
        var t :| t in rest;
        assert bounds[t] in Weights();
        if bounds[t] > next && bounds[t] < weight {
          next := bounds[t];
        }
        rest := rest - {t};
      }
    }

    method CountSofts(weight: nat) returns (nbClauses: nat, nbWeights: set<nat>)
      requires live <= bounds.Keys
      ensures nbClauses == |SoftsReaching(softs, weight, |softs|)| && nbWeights == SoftWeights(softs, weight, |softs|)
    {
      hide SoftsReaching, SoftWeights;
      nbClauses, nbWeights := 0, {};
      NothingReaches(softs, live, bounds, weight);
      for i := 0 to |softs|
        invariant nbClauses == |SoftsReaching(softs, weight, i)| && nbWeights == SoftWeights(softs, weight, i)
      {
        OneMoreReaches(softs, weight, i);
        if softs[i].weight >= weight {
          nbClauses := nbClauses + 1;
          nbWeights := nbWeights + {softs[i].weight};
        }
      }
    }

    method CountLive(weight: nat) returns (nbClauses: nat, nbWeights: set<nat>)
      requires live <= bounds.Keys
      ensures nbClauses == |LiveLits(live, bounds, weight)| && nbWeights == LiveWeights(live, bounds, weight)
    {
      hide LiveLits, LiveWeights;
      nbClauses, nbWeights := 0, {};
      var rest := live;
      ghost var done := {};
      NothingReaches(softs, {}, bounds, weight);
      while rest != {}
        invariant live == done + rest && done !! rest
        invariant nbClauses == |LiveLits(done, bounds, weight)| && nbWeights == LiveWeights(done, bounds, weight)
        decreases rest
      {
        var t :| t in rest;
        OneMoreLiveReaches(done, bounds, weight, t);
        if bounds[t] >= weight {
          nbClauses := nbClauses + 1;
          nbWeights := nbWeights + {bounds[t]};
        }
        rest, done := rest - {t}, done + {t};
      }
    }

    /** How many soft clauses and live outputs reach the weight, and with how many different weights. */
    method CountReaching(weight: nat) returns (nbClauses: nat, nbWeights: set<nat>)
      requires WF()
      ensures nbClauses == Reaching(weight) && nbWeights == WeightsFrom(weight)
      ensures nbClauses == |softs| + |live| <==> AllReach(weight)
    {
      var softClauses, softWeights := CountSofts(weight);
      var outputs, liveWeights := CountLive(weight);
      nbClauses, nbWeights := softClauses + outputs, softWeights + liveWeights;
      AllOrFewer(softs, live, bounds, weight);
    }

    function WeightsFrom(weight: nat): set<nat>
      reads this`softs, this`live, this`bounds
      requires live <= bounds.Keys
    {
      SoftWeights(softs, weight, |softs|) + LiveWeights(live, bounds, weight)
    }

    /** How many soft clauses and live outputs reach the weight. */
    function Reaching(weight: nat): nat
      reads this`softs, this`live, this`bounds
      requires live <= bounds.Keys
    {
      |SoftsReaching(softs, weight, |softs|)| + |LiveLits(live, bounds, weight)|
    }

    /** More than five clauses for every four weights, or all clauses. */
    predicate Diverse(weight: nat)
      reads this`softs, this`live, this`bounds
      requires live <= bounds.Keys
    {
      4 * Reaching(weight) > 5 * |WeightsFrom(weight)| || AllReach(weight)
    }

    /** No weight in play between the two is diverse. */
    ghost predicate Skipped(weight: nat, next: nat)
      reads this`softs, this`live, this`bounds
      requires live <= bounds.Keys
    {
      && (next == weight || next == 1 || next in Weights())
      && forall w | w in Weights() && next < w < weight :: !Diverse(w)
    }

    lemma OneIsReached()
      requires WF()
      ensures AllReach(1)
    {
    }

    lemma DiverseIs(weight: nat)
      requires live <= bounds.Keys
      ensures Diverse(weight) <==> 4 * Reaching(weight) > 5 * |WeightsFrom(weight)| || AllReach(weight)
    {
    }

    /** The diversity heuristic: the largest weight, of those in play below the given one, whose clauses share
        their weights enough. After the first model the given weight itself comes first. */
    method FindNextWeightDiversity(weight: nat) returns (next: nat)
      requires WF() && nbSatisfiable > 0 && weight >= 1
      ensures 1 <= next <= weight
      ensures nbSatisfiable > 1 && weight >= 2 ==> next < weight
      ensures Diverse(next) && Skipped(weight, next) && (nbSatisfiable == 1 && next < weight ==> !Diverse(weight))
    {
      hide Diverse, Weights, Reaching, WeightsFrom;
      next := weight;
      var findNext := false;
      while true
        invariant 1 <= next <= weight && Skipped(weight, next)
        invariant findNext ==> nbSatisfiable == 1 && !Diverse(weight)
        invariant next < weight ==> !Diverse(next) && (nbSatisfiable == 1 ==> findNext)
        decreases next, if findNext || nbSatisfiable > 1 then 0 else 1
      {
        if nbSatisfiable > 1 || findNext {
          next := FindNextWeight(next);
        }
        var nbClauses, nbWeights := CountReaching(next);
        OneIsReached();
        DiverseIs(next);
        if 4 * nbClauses > 5 * |nbWeights| || nbClauses == |softs| + |live| {
          break;
        }
        if nbSatisfiable == 1 && !findNext {
          findNext := true;
        }
      }
    }

    /** Lower bound plus the weight of a core never exceeds the cost of a model. */
    lemma LowerBound(core: seq<RLit>, m: nat, a: Assignment)
      requires Inv() && Model(hard, n, a) && CountTrue(core, a) >= 1 && forall p | p in core :: CanRelax(p, m)
      ensures lbCost + m <= SoftCost(original, a)
    {
      CoreWeighs(softs, live, bounds, core, m, a);
    }

    ghost predicate Optimal()
      reads this
    {
      && Model(hard, n, model) && ubCost == SoftCost(original, model)
      && forall a: Assignment | Model(hard, n, a) :: SoftCost(original, a) >= ubCost
    }

    /** A satisfiable call: keep the model if it is the best so far. */
    method KeepModel(a: Assignment) returns (newCost: nat)
      requires Inv() && Model(hard, n, a)
      modifies this`model, this`ubCost, this`nbSatisfiable
      ensures Inv() && nbSatisfiable == old(nbSatisfiable) + 1
      ensures newCost == SoftCost(original, a) && ubCost <= newCost
    {
      nbSatisfiable := nbSatisfiable + 1;
      newCost := ComputeCost(a);
      if newCost < ubCost || nbSatisfiable == 1 {
        model, ubCost := a, newCost;
      }
    }

    /** An unsatisfiable call: the core's weight moves into the lower bound. */
    method AbsorbCore(core: seq<RLit>) returns (closed: bool, m: nat)
      requires Inv() && nbSatisfiable > 0 && CoreOf(hard, n, Assumed(), core)
      modifies this`softs, this`live, this`bounds, this`nEnc, this`lbCost
      ensures lbCost == old(lbCost) + m && m >= 1 && old(IsMinCore(core, m))
      ensures closed <==> lbCost == ubCost
      ensures closed ==> Optimal()
      ensures !closed ==> Inv()
    {
      assert CountTrue(core, model) >= 1;
      m := MinCore(core);
      forall b: Assignment | Model(hard, n, b)
        ensures lbCost + m <= SoftCost(original, b)
      {
        LowerBound(core, m, b);
      }
      lbCost := lbCost + m;
      if lbCost == ubCost {
        return true, m;
      }
      ProcessCore(core, m);
      closed := false;
    }

    /** With every weight assumed, a model costs no more than the lower bound. */
    lemma AllAssumedIsOptimal(a: Assignment)
      requires Inv() && nbSatisfiable > 0 && AllReach(minWeight)
      requires Model(hard, n, a) && Avoids(a, Assumed()) && ubCost <= SoftCost(original, a)
      ensures Optimal()
    {
      NothingRests(softs, live, bounds, nEnc, minWeight, a);
    }

    /** A satisfiable call: unless everything was assumed, go on with a smaller weight. */
    method TakeModel(a: Assignment) returns (done: bool)
      requires Inv() && Model(hard, n, a) && (nbSatisfiable > 0 ==> Avoids(a, Assumed()))
      modifies this`model, this`ubCost, this`nbSatisfiable, this`minWeight
      ensures done ==> Optimal()
      ensures !done ==> Inv() && nbSatisfiable == old(nbSatisfiable) + 1 && lbCost <= SoftCost(original, a)
      ensures !done ==> minWeight <= old(minWeight) && Diverse(minWeight) && Skipped(old(minWeight), minWeight)
      ensures !done && old(nbSatisfiable) > 0 ==> minWeight < old(minWeight)
    {
      hide Reaching, WeightsFrom, Weights, Diverse, Skipped, IsMinCore;
      var _ := KeepModel(a);
      if nbSatisfiable > 1 {
        var reaching, _ := CountReaching(minWeight);
        if reaching == |softs| + |live| {
          AllAssumedIsOptimal(a);
          return true;
        }
      }
      minWeight := FindNextWeightDiversity(minWeight);
      done := false;
    }

    method MaximumWeight()
      requires Inv()
      modifies this`minWeight
      ensures Inv() && forall i | 0 <= i < |softs| :: softs[i].weight <= minWeight
      ensures minWeight == 1 || exists i :: 0 <= i < |softs| && softs[i].weight == minWeight
    {
      var w := 1;
      for i := 0 to |softs|
        invariant w >= 1 && forall j | 0 <= j < i :: softs[j].weight <= w
        invariant w == 1 || exists j :: 0 <= j < |softs| && softs[j].weight == w
      {
        if softs[i].weight > w {
          w := softs[i].weight;
        }
      }
      minWeight := w;
    }

    /** `weighted`: it returns a model of least cost, or reports that there is none. */
    method Weighted() returns (satisfiable: bool)
      requires Inv() && nbSatisfiable == 0
      modifies this
      ensures satisfiable ==> Optimal()
      ensures !satisfiable ==> forall a: Assignment :: !Model(hard, n, a)
    {
      hide IsMinCore, AllReach, Diverse, Skipped;
      MaximumWeight();
      var assumed: set<RLit> := {};
      ghost var first := lbCost;
      while true
        invariant Inv() && lbCost <= first
        invariant nbSatisfiable == 0 ==> assumed == {}
        invariant nbSatisfiable > 0 ==> assumed == Assumed() && exists a ::
            Model(hard, n, a) && SoftCost(original, a) == first
        decreases if nbSatisfiable == 0 then 1 else 0, first - lbCost, minWeight
      {
        var sat, a, core := SearchSat(hard, n, assumed);
        if sat {
          if nbSatisfiable == 0 {
            first := SoftCost(original, a);
          }
          var done := TakeModel(a);
          if done {
            return true;
          }
        } else {
          if nbSatisfiable == 0 {
            NothingAssumed(hard, n, core);
            return false;
          }
          var closed, _ := AbsorbCore(core);
          if closed {
            return true;
          }
        }
        assumed := ResetAssumptions();
      }
    }
  }

  // ---- lemmas for the main loop

  function SoftLits(softs: seq<WeightedClause>, w: nat): set<RLit> {
    set i | 0 <= i < |softs| && !softs[i].active && softs[i].weight >= w :: Relax(i, softs[i].clause)
  }

  function LiveLits(live: set<RLit>, bounds: map<RLit, nat>, w: nat): set<RLit>
    requires live <= bounds.Keys
  {
    set t | t in live && bounds[t] >= w
  }

  lemma SoftSumAtLeast(softs: seq<WeightedClause>, i: nat, a: Assignment)
    requires i < |softs|
    ensures SoftSum(softs, a) >= Carried(softs[i], a)
  {
    if i > 0 {
      SoftSumAtLeast(softs[1..], i - 1, a);
    }
  }

  /** A core's weight can be taken off the residual of every model. */
  lemma CoreWeighs(softs: seq<WeightedClause>, live: set<RLit>, bounds: map<RLit, nat>, core: seq<RLit>, m: nat,
      a: Assignment)
    requires live <= bounds.Keys && (forall p | p in core :: Relaxable(softs, live, bounds, p, m))
    requires CountTrue(core, a) >= 1
    ensures Residual(softs, live, bounds, a) >= m
  {
    if forall p | p in core :: !True(p, a) {
      CountTrueNone(core, a);
    }
    var p :| p in core && True(p, a);
    if p.Relax? {
      SoftSumAtLeast(softs, p.id, a);
    } else {
      CardSumRemove(live, bounds, p, a);
      TimesAtLeast(bounds[p], Excess(p, a), m);
    }
  }

  function SoftsReaching(softs: seq<WeightedClause>, weight: nat, n: nat): set<nat>
    requires n <= |softs|
  {
    set j: nat | j < n && softs[j].weight >= weight
  }

  function SoftWeights(softs: seq<WeightedClause>, weight: nat, n: nat): set<nat>
    requires n <= |softs|
  {
    set j | 0 <= j < n && softs[j].weight >= weight :: softs[j].weight
  }

  function LiveWeights(live: set<RLit>, bounds: map<RLit, nat>, weight: nat): set<nat>
    requires live <= bounds.Keys
  {
    set t | t in live && bounds[t] >= weight :: bounds[t]
  }

  lemma NothingReaches(softs: seq<WeightedClause>, live: set<RLit>, bounds: map<RLit, nat>, weight: nat)
    requires live <= bounds.Keys
    ensures SoftsReaching(softs, weight, 0) == {} && SoftWeights(softs, weight, 0) == {}
    ensures LiveLits({}, bounds, weight) == {} && LiveWeights({}, bounds, weight) == {}
  {
  }

  /** All are counted exactly when all reach the weight. */
  lemma AllOrFewer(softs: seq<WeightedClause>, live: set<RLit>, bounds: map<RLit, nat>, weight: nat)
    requires live <= bounds.Keys
    ensures |SoftsReaching(softs, weight, |softs|)| + |LiveLits(live, bounds, weight)| == |softs| + |live| <==>
        (forall s | s in softs :: s.weight >= weight) && (forall t | t in live :: bounds[t] >= weight)
  {
    var all := VarsBelow(|softs|);
    SizeOfAll(|softs|);
    SmallerSet(SoftsReaching(softs, weight, |softs|), all);
    SmallerSet(LiveLits(live, bounds, weight), live);
    if forall s | s in softs :: s.weight >= weight {
      assert SoftsReaching(softs, weight, |softs|) == all;
    }
    if forall t | t in live :: bounds[t] >= weight {
      assert LiveLits(live, bounds, weight) == live;
    }
    if SoftsReaching(softs, weight, |softs|) == all {
      forall s | s in softs
        ensures s.weight >= weight
      {
        var j :| 0 <= j < |softs| && softs[j] == s;
        assert j in all;
      }
    }
  }

  lemma OneMoreReaches(softs: seq<WeightedClause>, weight: nat, i: nat)
    requires i < |softs|
    ensures |SoftsReaching(softs, weight, i + 1)| ==
        |SoftsReaching(softs, weight, i)| + if softs[i].weight >= weight then 1 else 0
    ensures SoftWeights(softs, weight, i + 1) ==
        SoftWeights(softs, weight, i) + if softs[i].weight >= weight then {softs[i].weight} else {}
  {
    assert SoftsReaching(softs, weight, i + 1) ==
      SoftsReaching(softs, weight, i) + if softs[i].weight >= weight then {i} else {};
  }

  lemma OneMoreLiveReaches(ts: set<RLit>, bounds: map<RLit, nat>, weight: nat, t: RLit)
    requires t !in ts && ts + {t} <= bounds.Keys
    ensures |LiveLits(ts + {t}, bounds, weight)| ==
        |LiveLits(ts, bounds, weight)| + if bounds[t] >= weight then 1 else 0
    ensures LiveWeights(ts + {t}, bounds, weight) ==
        LiveWeights(ts, bounds, weight) + if bounds[t] >= weight then {bounds[t]} else {}
  {
    assert LiveLits(ts + {t}, bounds, weight) ==
      LiveLits(ts, bounds, weight) + if bounds[t] >= weight then {t} else {};
  }

  lemma TimesAtLeast(w: nat, x: nat, m: nat)
    requires w >= m && x >= 1
    ensures w * x >= m
  {
  }

  lemma {:induction false} SoftSumZero(softs: seq<WeightedClause>, a: Assignment)
    requires forall i | 0 <= i < |softs| && !softs[i].active :: SatClause(softs[i].clause, a)
    ensures SoftSum(softs, a) == 0
  {
    if softs != [] {
      forall i | 0 <= i < |softs[1..]| && !softs[1..][i].active
        ensures SatClause(softs[1..][i].clause, a)
      {
        assert softs[1..][i] == softs[i + 1];
      }
      SoftSumZero(softs[1..], a);
    }
  }

  lemma {:induction false} CardSumZero(live: set<RLit>, bounds: map<RLit, nat>, a: Assignment)
    requires live <= bounds.Keys && forall t | t in live :: !True(t, a) && t.Output?
    ensures CardSum(live, bounds, a) == 0
    decreases |live|
  {
    if live != {} {
      var t :| t in live;
      CardSumRemove(live, bounds, t, a);
      CardSumZero(live - {t}, bounds, a);
    }
  }

  /** A model that avoids everything still relaxable has no residual. */
  lemma NothingRests(softs: seq<WeightedClause>, live: set<RLit>, bounds: map<RLit, nat>, nEnc: nat, w: nat,
      a: Assignment)
    requires WellFormed(softs, live, bounds, nEnc)
    requires (forall s | s in softs :: s.weight >= w) && (forall t | t in live :: bounds[t] >= w)
    requires Avoids(a, SoftLits(softs, w) + LiveLits(live, bounds, w))
    ensures Residual(softs, live, bounds, a) == 0
  {
    forall i | 0 <= i < |softs| && !softs[i].active
      ensures SatClause(softs[i].clause, a)
    {
      assert Relax(i, softs[i].clause) in SoftLits(softs, w);
    }
    SoftSumZero(softs, a);
    CardSumZero(live, bounds, a);
  }

  lemma TimesBit(m: nat, x: nat, b: bool)
    ensures m * (x + Bit(b)) == m * x + m * Bit(b)
  {
  }

  lemma FreeOne(out: RLit, m: nat, a: Assignment)
    requires out.Output? && out.k == 1 && CountTrue(out.inputs, a) >= 1
    ensures m * Excess(out, a) + m == m * CountTrue(out.inputs, a)
  {
    assert Excess(out, a) + 1 == CountTrue(out.inputs, a);
  }
}
