/** The work list that parallel fence searches share: a stack of fences, a counter of active workers,
    and what each worker is doing with it. */
module FenceQueue {
  import opened Cnf
  import opened Pareto
  import opened Encoding
  import opened ParallelMO
  import opened WaitingList
  import opened Fences

  datatype Slot = Resting | Exploring(fence: Point) | Leaving | Gone

  /** Where a worker of a fence search is. Only workers that replay a log are ever synchronized. */
  datatype Pc = Idle | Harvesting | Synced | HasModel | Refuted | Expanded | Exited

  function SlotOf(pc: Pc, fence: Point): Slot {
    match pc
    case Idle => Resting
    case Expanded => Leaving
    case Exited => Gone
    case _ => Exploring(fence)
  }

  datatype Queue = Queue(stack: seq<Point>, seen: set<Point>, active: int, slots: seq<Slot>)

  /** The critical sections of the loop, and everything that does not touch the work list. */
  datatype Move = Pop | Exit | Expand(order: seq<Point>) | Leave | Stay

  /** The pending fences and everything ever inserted, after inserting a list of fences. */
  function InsertAll(stack: seq<Point>, seen: set<Point>, ys: seq<Point>): (seq<Point>, set<Point>)
    decreases |ys|
  {
    if ys == [] then (stack, seen)
    else InsertAll(Pruned(stack, seen, ys[0]), seen + {ys[0]}, ys[1..])
  }

  predicate Quiet(q: Queue) {
    q.stack == [] && q.active == 0
  }

  ghost predicate Moves(p: Problem, q: Queue, i: nat, m: Move, q': Queue)
    requires i < |q.slots|
  {
    match m
    case Pop =>
      var n := |q.stack| - 1;
      && q.slots[i] == Resting && q.stack != []
      && q' == Queue(q.stack[..n], q.seen, q.active + 1, q.slots[i := Exploring(q.stack[n])])
    case Exit =>
      q.slots[i] == Resting && Quiet(q) && q' == q.(slots := q.slots[i := Gone])
    case Expand(order) =>
      && q.slots[i].Exploring? && |order| <= |p.max| && (forall e | e in order :: Raises(p, q.slots[i].fence, e))
      && var (stack, seen) := InsertAll(q.stack, q.seen, order);
         q' == Queue(stack, seen, q.active, q.slots[i := Leaving])
    case Leave =>
      q.slots[i] == Leaving && q' == q.(active := q.active - 1, slots := q.slots[i := Resting])
    case Stay =>
      q' == q
  }

  function Explored(q: Queue): set<Point> {
    set s | s in q.slots && s.Exploring? :: s.fence
  }

  /** Whatever was ever inserted still has a fence above it, pending or being explored. */
  ghost predicate Pending(q: Queue) {
    forall d | d in q.seen :: Above(q.stack, Explored(q), d)
  }

  predicate Busy(s: Slot) {
    s.Exploring? || s.Leaving?
  }

  predicate AllRest(slots: seq<Slot>) {
    forall i | 0 <= i < |slots| :: slots[i] == Resting
  }

  /** Unless the search is done, nothing that was ever inserted is lost. */
  ghost predicate QueueInv(p: Problem, done: bool, q: Queue) {
    && q.active == CountIf(Busy, q.slots)
    && (forall d | d in q.stack || d in Explored(q) :: Dominates(d, p.max))
    && (Pending(q) || done)
  }

  lemma WholeExpansions(p: Problem, stride: real, u: Point, conflict: Clause)
    requires Valid(p) && stride >= 0.0 && |u| == |p.roots|
    ensures var es := Expansions(p, stride, u, conflict); |es| <= |u| && forall e | e in es :: Raises(p, u, e)
  {
    ExpansionsRaise(p, stride, u, conflict, 0);
  }

  // ---------------------------------------------------------------- inserting

  lemma {:induction false} InsertAllSeen(stack: seq<Point>, seen: set<Point>, ys: seq<Point>)
    ensures InsertAll(stack, seen, ys).1 == seen + set y | y in ys
    decreases |ys|
  {
    if ys != [] {
      InsertAllSeen(Pruned(stack, seen, ys[0]), seen + {ys[0]}, ys[1..]);
    }
  }

  lemma {:induction false} InsertAllKeepsAbove(stack: seq<Point>, seen: set<Point>, others: set<Point>, ys: seq<Point>,
      d: Point)
    requires Above(stack, others, d)
    ensures Above(InsertAll(stack, seen, ys).0, others, d)
    decreases |ys|
  {
    if ys != [] {
      PrunedKeepsAbove(stack, seen, others, ys[0], d);
      InsertAllKeepsAbove(Pruned(stack, seen, ys[0]), seen + {ys[0]}, others, ys[1..], d);
    }
  }

  /** A fence strictly above the explored fence `u` that was seen before has somebody other than `u` above it. */
  lemma {:induction false} InsertAllHas(stack: seq<Point>, seen: set<Point>, others: set<Point>, u: Point,
      ys: seq<Point>, e: Point)
    requires forall d | d in seen :: Above(stack, others + {u}, d)
    requires e in ys && !Dominates(e, u)
    ensures Above(InsertAll(stack, seen, ys).0, others, e)
    decreases |ys|
  {
    var stack', seen' := Pruned(stack, seen, ys[0]), seen + {ys[0]};
    if e == ys[0] {
      if e in seen {
        assert Above(stack, others + {u}, e);
        PrunedKeepsAbove(stack, seen, others, e, e);
      } else {
        PrunedHasNew(stack, seen, others, e);
      }
      InsertAllKeepsAbove(stack', seen', others, ys[1..], e);
    } else {
      forall d | d in seen'
        ensures Above(stack', others + {u}, d)
      {
        if d in seen {
          PrunedKeepsAbove(stack, seen, others + {u}, ys[0], d);
        } else {
          PrunedHasNew(stack, seen, others + {u}, d);
        }
      }
      InsertAllHas(stack', seen', others, u, ys[1..], e);
    }
  }

  lemma RaisesAbove(p: Problem, u: Point, e: Point)
    requires Raises(p, u, e)
    ensures Dominates(u, e) && !Dominates(e, u)
    ensures Dominates(u, p.max) ==> Dominates(e, p.max)
  {
  }

  lemma AboveTransitive(stack: seq<Point>, others: set<Point>, d: Point, e: Point)
    requires Dominates(d, e) && Above(stack, others, e)
    ensures Above(stack, others, d)
  {
    var w :| (w in stack || w in others) && Dominates(e, w);
    DominatesTransitive(d, e, w);
  }

  /** Replacing an explored fence by at least one expansion keeps everything pending. */
  lemma ExpandKeepsAbove(p: Problem, stack: seq<Point>, seen: set<Point>, others: set<Point>, u: Point, ys: seq<Point>,
      d: Point)
    requires forall c | c in seen :: Above(stack, others + {u}, c)
    requires ys != [] && forall e | e in ys :: Raises(p, u, e)
    requires d in seen || d in ys
    ensures Above(InsertAll(stack, seen, ys).0, others, d)
  {
    if d in ys {
      RaisesAbove(p, u, d);
      InsertAllHas(stack, seen, others, u, ys, d);
    } else if Above(stack, others, d) {
      InsertAllKeepsAbove(stack, seen, others, ys, d);
    } else {
      assert Above(stack, others + {u}, d);
      var w :| (w in stack || w in others + {u}) && Dominates(d, w);
      RaisesAbove(p, u, ys[0]);
      DominatesTransitive(d, u, ys[0]);
      InsertAllHas(stack, seen, others, u, ys, ys[0]);
      AboveTransitive(InsertAll(stack, seen, ys).0, others, d, ys[0]);
    }
  }

  lemma {:induction false} InsertAllWithin(p: Problem, stack: seq<Point>, seen: set<Point>, ys: seq<Point>)
    requires forall d | d in stack || d in ys :: Dominates(d, p.max)
    ensures forall d | d in InsertAll(stack, seen, ys).0 :: Dominates(d, p.max)
    decreases |ys|
  {
    if ys != [] {
      InsertAllWithin(p, Pruned(stack, seen, ys[0]), seen + {ys[0]}, ys[1..]);
    }
  }

  /** The expansions of a core, in whatever order they are inserted. */
  lemma SameElements(a: seq<Point>, b: seq<Point>)
    requires multiset(a) == multiset(b)
    ensures |a| == |b| && forall e :: e in a <==> e in b
  {
    assert |multiset(a)| == |a| && |multiset(b)| == |b|;
    forall e
      ensures e in a <==> e in b
    {
      assert e in a <==> e in multiset(a);
      assert e in b <==> e in multiset(b);
    }
  }

  // ---------------------------------------------------------------- every move

  lemma NoneBusy(slots: seq<Slot>)
    requires forall j | 0 <= j < |slots| :: !Busy(slots[j])
    ensures CountIf(Busy, slots) == 0
  {
    if slots != [] {
      NoneBusy(slots[1..]);
    }
  }

  /** The fences of all other workers stay explored. */
  lemma OthersExplore(q: Queue, i: nat, s: Slot)
    requires i < |q.slots|
    ensures var others := Explored(q.(slots := q.slots[i := s]));
      && (forall d | d in Explored(q) :: d in others || q.slots[i] == Exploring(d))
      && (s.Exploring? ==> s.fence in others)
      && forall d | d in others :: d in Explored(q) || s == Exploring(d)
  {
    var slots := q.slots[i := s];
    forall d | d in Explored(q)
      ensures d in Explored(q.(slots := slots)) || q.slots[i] == Exploring(d)
    {
      var j :| 0 <= j < |q.slots| && q.slots[j] == Exploring(d);
      assert slots[j] in slots;
    }
    assert slots[i] in slots;
  }

  lemma ExpandKeepsPending(p: Problem, q: Queue, i: nat, m: Move, q': Queue)
    requires i < |q.slots| && Moves(p, q, i, m, q') && m.Expand? && m.order != [] && Pending(q)
    ensures Pending(q')
  {
    var u := q.slots[i].fence;
    OthersExplore(q, i, Leaving);
    assert Explored(q') == Explored(q.(slots := q.slots[i := Leaving]));
    forall c | c in q.seen
      ensures Above(q.stack, Explored(q') + {u}, c)
    {
      assert Above(q.stack, Explored(q), c);
    }
    InsertAllSeen(q.stack, q.seen, m.order);
    forall d | d in q'.seen
      ensures Above(q'.stack, Explored(q'), d)
    {
      ExpandKeepsAbove(p, q.stack, q.seen, Explored(q'), u, m.order, d);
    }
  }

  lemma OtherKeepsPending(p: Problem, q: Queue, i: nat, m: Move, q': Queue)
    requires i < |q.slots| && Moves(p, q, i, m, q') && !m.Expand? && Pending(q)
    ensures Pending(q')
  {
    OthersExplore(q, i, q'.slots[i]);
    assert q'.slots == q.slots[i := q'.slots[i]];
    assert Explored(q') == Explored(q.(slots := q'.slots));
    forall d | d in q'.seen
      ensures Above(q'.stack, Explored(q'), d)
    {
      assert Above(q.stack, Explored(q), d);
    }
  }

  lemma MoveKeepsWithin(p: Problem, q: Queue, i: nat, m: Move, q': Queue)
    requires i < |q.slots| && Moves(p, q, i, m, q') && forall d | d in q.stack || d in Explored(q) ::
        Dominates(d, p.max)
    ensures forall d | d in q'.stack || d in Explored(q') :: Dominates(d, p.max)
  {
    OthersExplore(q, i, q'.slots[i]);
    assert q'.slots == q.slots[i := q'.slots[i]];
    assert Explored(q') == Explored(q.(slots := q'.slots));
    if m.Expand? {
      assert q.slots[i] in q.slots && q.slots[i].fence in Explored(q);
      forall e | e in m.order
        ensures Dominates(e, p.max)
      {
        RaisesAbove(p, q.slots[i].fence, e);
      }
      InsertAllWithin(p, q.stack, q.seen, m.order);
    }
  }

  /** No move loses a fence: a fence goes only for larger ones, or when the search is done. */
  lemma MoveKeepsQueue(p: Problem, done: bool, done': bool, q: Queue, i: nat, m: Move, q': Queue)
    requires i < |q.slots| && QueueInv(p, done, q) && Moves(p, q, i, m, q')
    requires (done ==> done') && (m.Expand? && m.order == [] ==> done')
    ensures QueueInv(p, done', q') && q.seen <= q'.seen
  {
    CountUpdate(Busy, q.slots, i, q'.slots[i]);
    assert q'.slots == q.slots[i := q'.slots[i]];
    MoveKeepsWithin(p, q, i, m, q');
    if m.Expand? {
      InsertAllSeen(q.stack, q.seen, m.order);
    }
    if !done' {
      if m.Expand? {
        ExpandKeepsPending(p, q, i, m, q');
      } else {
        OtherKeepsPending(p, q, i, m, q');
      }
    }
  }

  lemma StartQueue(p: Problem, root: Point, q: Queue)
    requires Dominates(root, p.max) && q.stack == [root] && q.seen == {root} && q.active == 0
    requires AllRest(q.slots)
    ensures QueueInv(p, false, q)
  {
    NoneBusy(q.slots);
    assert Dominates(root, root);
  }

  /** Termination detection is sound: a quiet work list means that the search is done. */
  lemma QuietIsDone(p: Problem, done: bool, q: Queue)
    requires QueueInv(p, done, q) && q.seen != {} && Quiet(q)
    ensures done && forall s | s in q.slots :: !Busy(s)
  {
    NoneCounted(Busy, q.slots);
    var d :| d in q.seen;
    assert !Above(q.stack, Explored(q), d);
  }

  /** Once somebody has left, the work list is quiet and stays so. */
  lemma MoveKeepsQuiet(p: Problem, q: Queue, i: nat, m: Move, q': Queue)
    requires i < |q.slots| && Moves(p, q, i, m, q') && q.active == CountIf(Busy, q.slots)
    requires Gone in q.slots ==> Quiet(q)
    ensures Gone in q'.slots ==> Quiet(q')
  {
    if Gone in q.slots {
      NoneCounted(Busy, q.slots);
      assert q.slots[i] in q.slots;
    } else {
      assert m.Exit? || Gone !in q'.slots;
    }
  }

  // ---------------------------------------------------------------- termination

  function Gap(u: Point, max: Point): nat
    requires Dominates(u, max)
  {
    if u == [] then 0 else max[0] - u[0] + Gap(u[1..], max[1..])
  }

  function Power(b: nat, n: nat): nat {
    if n == 0 then 1 else b * Power(b, n - 1)
  }

  /** What a fence may still cost: it has at most `|u|` expansions, each with a smaller gap. */
  function Weight(p: Problem, u: Point): nat {
    if Dominates(u, p.max) then Power(|p.max| + 1, Gap(u, p.max)) else 0
  }

  function TotalWeight(p: Problem, us: seq<Point>): nat {
    if us == [] then 0 else Weight(p, us[0]) + TotalWeight(p, us[1..])
  }

  function ActiveWeight(p: Problem, slots: seq<Slot>): nat {
    if slots == [] then 0
    else (if slots[0].Exploring? then Weight(p, slots[0].fence) else 0) + ActiveWeight(p, slots[1..])
  }

  function Potential(p: Problem, q: Queue): nat {
    TotalWeight(p, q.stack) + ActiveWeight(p, q.slots)
  }

  lemma {:induction false} GapRaised(u: Point, max: Point, i: nat, x: nat)
    requires Dominates(u, max) && i < |u| && u[i] < x <= max[i]
    ensures Dominates(u[i := x], max) && Gap(u[i := x], max) < Gap(u, max)
  {
    if i == 0 {
      assert u[0 := x][1..] == u[1..];
    } else {
      assert Dominates(u[1..], max[1..]);
      GapRaised(u[1..], max[1..], i - 1, x);
      assert u[i := x][1..] == u[1..][i - 1 := x];
    }
  }

  lemma TimesMonotone(b: nat, x: int, y: int)
    requires x <= y
    ensures b * x <= b * y
  {
  }

  lemma {:induction false} PowerMonotone(b: nat, m: nat, n: nat)
    requires b >= 1 && m <= n
    ensures 1 <= Power(b, m) <= Power(b, n)
    decreases n, m
  {
    if m < n {
      PowerMonotone(b, m, n - 1);
      TimesMonotone(Power(b, n - 1), 1, b);
    } else if m > 0 {
      PowerMonotone(b, m - 1, n - 1);
      TimesMonotone(b, 1, Power(b, m - 1));
    }
  }

  /** An expansion weighs at most a `|max| + 1`-th of its fence. */
  lemma ExpansionIsLighter(p: Problem, u: Point, e: Point)
    requires Dominates(u, p.max) && Raises(p, u, e)
    ensures (|p.max| + 1) * Weight(p, e) <= Weight(p, u)
  {
    var i :| 0 <= i < |u| && e[i] > u[i] && e == u[i := e[i]] && e[i] <= p.max[i];
    var b, m, n := |p.max| + 1, Gap(u[i := e[i]], p.max), Gap(u, p.max);
    GapRaised(u, p.max, i, e[i]);
    PowerMonotone(b, m, n - 1);
    TimesMonotone(b, Power(b, m), Power(b, n - 1));
  }

  lemma AddShares(b: nat, x: nat, y: nat, k: nat, z: nat)
    requires b * x <= z && k >= 1 && b * y <= (k - 1) * z
    ensures b * (x + y) <= k * z
  {
    assert b * (x + y) == b * x + b * y;
    assert k * z == z + (k - 1) * z;
  }

  lemma {:induction false} ExpansionsWeigh(p: Problem, u: Point, es: seq<Point>)
    requires Dominates(u, p.max) && forall e | e in es :: Raises(p, u, e)
    ensures (|p.max| + 1) * TotalWeight(p, es) <= |es| * Weight(p, u)
  {
    if es != [] {
      ExpansionIsLighter(p, u, es[0]);
      ExpansionsWeigh(p, u, es[1..]);
      AddShares(|p.max| + 1, Weight(p, es[0]), TotalWeight(p, es[1..]), |es|, Weight(p, u));
    }
  }

  lemma WeightIsPositive(p: Problem, u: Point)
    requires Dominates(u, p.max)
    ensures Weight(p, u) >= 1
  {
    PowerMonotone(|p.max| + 1, 0, Gap(u, p.max));
  }

  lemma TotalWeightConcat(p: Problem, us: seq<Point>, vs: seq<Point>)
    ensures TotalWeight(p, us + vs) == TotalWeight(p, us) + TotalWeight(p, vs)
  {
    if us == [] {
      assert us + vs == vs;
    } else {
      TotalWeightConcat(p, us[1..], vs);
      assert (us + vs)[1..] == us[1..] + vs;
    }
  }

  lemma UnprunedWeighs(p: Problem, stack: seq<Point>, y: Point)
    ensures TotalWeight(p, Unpruned(stack, y)) <= TotalWeight(p, stack)
  {
  }

  lemma {:induction false} InsertAllWeighs(p: Problem, stack: seq<Point>, seen: set<Point>, ys: seq<Point>)
    ensures TotalWeight(p, InsertAll(stack, seen, ys).0) <= TotalWeight(p, stack) + TotalWeight(p, ys)
    decreases |ys|
  {
    if ys != [] {
      UnprunedWeighs(p, stack, ys[0]);
      TotalWeightConcat(p, Unpruned(stack, ys[0]), [ys[0]]);
      InsertAllWeighs(p, Pruned(stack, seen, ys[0]), seen + {ys[0]}, ys[1..]);
    }
  }

  lemma LighterThanTheirFence(n: nat, k: nat, t: nat, w: nat)
    requires (n + 1) * t <= k * w && k <= n && w >= 1
    ensures t < w
  {
    if t >= w {
      TimesMonotone(n + 1, w, t);
      TimesMonotone(w, k, n);
    }
  }

  lemma ActiveWeightUpdate(p: Problem, slots: seq<Slot>, i: nat, s: Slot)
    requires i < |slots|
    ensures ActiveWeight(p, slots[i := s]) == ActiveWeight(p, slots)
              + (if s.Exploring? then Weight(p, s.fence) else 0)
              - (if slots[i].Exploring? then Weight(p, slots[i].fence) else 0)
  {
    if i > 0 {
      ActiveWeightUpdate(p, slots[1..], i - 1, s);
      assert slots[i := s][1..] == slots[1..][i - 1 := s];
    }
  }

  /** No move adds work; completing a fence strictly removes some. */
  lemma MoveWeighs(p: Problem, done: bool, q: Queue, i: nat, m: Move, q': Queue)
    requires i < |q.slots| && QueueInv(p, done, q) && Moves(p, q, i, m, q')
    ensures Potential(p, q') + (if Completes(q, q') then 1 else 0) <= Potential(p, q)
  {
    ActiveWeightUpdate(p, q.slots, i, q'.slots[i]);
    assert q'.slots == q.slots[i := q'.slots[i]];
    if m.Pop? {
      var n := |q.stack| - 1;
      assert q.stack == q.stack[..n] + [q.stack[n]];
      TotalWeightConcat(p, q.stack[..n], [q.stack[n]]);
    } else if m.Expand? {
      assert q.slots[i] in q.slots && q.slots[i].fence in Explored(q);
      ExpandWeighs(p, q.stack, q.seen, q.slots[i].fence, m.order);
    }
  }

  lemma ExpandWeighs(p: Problem, stack: seq<Point>, seen: set<Point>, u: Point, order: seq<Point>)
    requires Dominates(u, p.max) && |order| <= |p.max| && forall e | e in order :: Raises(p, u, e)
    ensures TotalWeight(p, InsertAll(stack, seen, order).0) < TotalWeight(p, stack) + Weight(p, u)
  {
    ExpansionsWeigh(p, u, order);
    WeightIsPositive(p, u);
    LighterThanTheirFence(|p.max|, |order|, TotalWeight(p, order), Weight(p, u));
    InsertAllWeighs(p, stack, seen, order);
  }

  /** Somebody has finished with a fence. */
  predicate Completes(q: Queue, q': Queue) {
    |q.slots| == |q'.slots| && exists i | 0 <= i < |q.slots| :: q.slots[i].Exploring? && q'.slots[i] == Leaving
  }

  /** How many fences a run has completed. */
  function Completed(qs: seq<Queue>): nat {
    if |qs| <= 1 then 0
    else Completed(qs[..|qs| - 1]) + if Completes(qs[|qs| - 2], qs[|qs| - 1]) then 1 else 0
  }

  ghost predicate MovesOn(p: Problem, q: Queue, q': Queue) {
    exists i, m, done :: 0 <= i < |q.slots| && QueueInv(p, done, q) && Moves(p, q, i, m, q')
  }

  /** No run completes more fences than the first work list weighs. */
  lemma {:induction false} CompletedIsBounded(p: Problem, qs: seq<Queue>)
    requires |qs| > 0 && forall k | 0 <= k < |qs| - 1 :: MovesOn(p, qs[k], qs[k + 1])
    ensures Completed(qs) + Potential(p, qs[|qs| - 1]) <= Potential(p, qs[0])
    decreases |qs|
  {
    hide Moves, QueueInv, Completes, Potential;
    var n := |qs| - 1;
    if n > 0 {
      var before := qs[..n];
      assert forall k | 0 <= k < |before| - 1 :: MovesOn(p, before[k], before[k + 1]) by {
        forall k | 0 <= k < |before| - 1
          ensures MovesOn(p, before[k], before[k + 1])
        {
          assert MovesOn(p, qs[k], qs[k + 1]);
        }
      }
      CompletedIsBounded(p, before);
      assert MovesOn(p, qs[n - 1], qs[n - 1 + 1]);
      var i, m, done :| 0 <= i < |qs[n - 1].slots| && QueueInv(p, done, qs[n - 1]) && Moves(p, qs[n - 1], i, m, qs[n]);
      MoveWeighs(p, done, qs[n - 1], i, m, qs[n]);
    }
  }

  lemma StartWeighs(p: Problem, root: Point, q: Queue)
    requires Dominates(root, p.max) && q.stack == [root] && AllRest(q.slots)
    ensures Potential(p, q) == Power(|p.max| + 1, Gap(root, p.max))
  {
    RestingWeighsNothing(p, q.slots);
    assert TotalWeight(p, [root]) == Weight(p, root);
  }

  lemma RestingWeighsNothing(p: Problem, slots: seq<Slot>)
    requires AllRest(slots)
    ensures ActiveWeight(p, slots) == 0
  {
    if slots != [] {
      RestingWeighsNothing(p, slots[1..]);
    }
  }
}
