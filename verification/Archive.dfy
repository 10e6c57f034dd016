/** The solutions of a sequential search. */
module Archive {
  import opened Cnf
  import opened Pareto
  import opened Encoding
  import opened ParallelMO

  datatype Entry = Entry(model: Assignment, point: Point)

  function Points(es: seq<Entry>): set<Point> {
    set e | e in es :: e.point
  }

  /** The entries that `y` does not strictly dominate. */
  function Kept(es: seq<Entry>, y: Point): seq<Entry> {
    if es == [] then []
    else if es[0].point != y && Dominates(y, es[0].point) then Kept(es[1..], y)
    else [es[0]] + Kept(es[1..], y)
  }

  lemma {:induction false} KeptMembers(es: seq<Entry>, y: Point)
    ensures forall e :: e in Kept(es, y) <==> e in es && !(e.point != y && Dominates(y, e.point))
  {
    if es != [] {
      KeptMembers(es[1..], y);
      assert es == [es[0]] + es[1..];
    }
  }

  class Solution {
    var entries: seq<Entry>

    constructor ()
      ensures entries == []
    {
      entries := [];
    }

    method Clear()
      modifies this
      ensures entries == []
    {
      entries := [];
    }

    /** `pop`: the solution that was added last. */
    method Pop() returns (e: Entry)
      requires entries != []
      modifies this
      ensures old(entries) == entries + [e]
    {
      e := entries[|entries| - 1];
      entries := entries[..|entries| - 1];
    }

    /** Drop the entries that `y` strictly dominates. */
    method DropDominated(y: Point)
      modifies this
      ensures entries == Kept(old(entries), y)
    {
      var kept: seq<Entry> := [];
      for i := 0 to |entries|
        invariant entries == old(entries) && kept + Kept(entries[i..], y) == Kept(entries, y)
      {
        if !(entries[i].point != y && Dominates(y, entries[i].point)) {
          kept := kept + [entries[i]];
        }
        assert entries[i..][1..] == entries[i + 1..];
      }
      entries := kept;
    }

    /** `pareto::dominates` for a set of solutions and a point. */
    method IsDominated(y: Point) returns (b: bool)
      ensures b <==> exists e | e in entries :: Dominates(e.point, y)
    {
      for i := 0 to |entries|
        invariant forall j | 0 <= j < i :: !Dominates(entries[j].point, y)
      {
        if Dominates(entries[i].point, y) {
          return true;
        }
      }
      b := false;
    }

    /** `pushSafe`: drop what the new point strictly dominates, then add it unless it is dominated. */
    method PushSafe(model: Assignment, y: Point) returns (added: bool)
      modifies this
      ensures added <==> !Covered(Points(old(entries)), y)
      ensures entries == Kept(old(entries), y) + if added then [Entry(model, y)] else []
    {
      DropDominated(y);
      added := IsDominated(y);
      KeptCovers(old(entries), y);
      added := !added;
      if added {
        entries := entries + [Entry(model, y)];
      }
    }
  }

  /** Only an entry that is kept can weakly dominate `y`. */
  lemma KeptCovers(es: seq<Entry>, y: Point)
    ensures Covered(Points(es), y) <==> exists e | e in Kept(es, y) :: Dominates(e.point, y)
  {
    KeptMembers(es, y);
    if e :| e in Kept(es, y) && Dominates(e.point, y) {
      assert e.point in Points(es);
    }
    if e :| e in es && Dominates(e.point, y) && e !in Kept(es, y) {
      DominatesAntisymmetric(e.point, y);
    }
  }

  /** Adding an uncovered point keeps the archive an antichain that covers what it covered. */
  lemma PushedKeepsFront(es: seq<Entry>, model: Assignment, y: Point)
    requires Antichain(Points(es)) && !Covered(Points(es), y)
    ensures var s := Points(Kept(es, y) + [Entry(model, y)]);
            && Antichain(s) && y in s && s <= Points(es) + {y}
            && forall q | Covered(Points(es), q) || q == y :: Covered(s, q)
  {
    KeptMembers(es, y);
    var es' := Kept(es, y) + [Entry(model, y)];
    assert Entry(model, y) in es';
    forall q | Covered(Points(es), q) || q == y
      ensures Covered(Points(es'), q)
    {
      DominatesItself(y);
      if Covered(Points(es), q) {
        var x :| x in Points(es) && Dominates(x, q);
        var e :| e in es && e.point == x;
        if e in Kept(es, y) {
          assert e in es';
        } else {
          DominatesTransitive(y, x, q);
        }
      }
    }
  }

  /** A point that the archive already dominates changes nothing. */
  lemma {:induction false} BarredChangesNothing(es: seq<Entry>, y: Point)
    requires Antichain(Points(es)) && Covered(Points(es), y)
    ensures Kept(es, y) == es
  {
    forall e | e in es
      ensures !(e.point != y && Dominates(y, e.point))
    {
      if Dominates(y, e.point) {
        var x :| x in Points(es) && Dominates(x, y);
        DominatesTransitive(x, y, e.point);
        assert e.point in Points(es);
        DominatesAntisymmetric(y, e.point);
      }
    }
    KeptAll(es, y);
  }

  lemma {:induction false} KeptAll(es: seq<Entry>, y: Point)
    requires forall e | e in es :: !(e.point != y && Dominates(y, e.point))
    ensures Kept(es, y) == es
  {
    if es != [] {
      KeptAll(es[1..], y);
    }
  }

  /** A componentwise minimum that is reached everywhere is the greatest lower bound. */
  lemma LowerBounds(es: seq<Entry>, yp: Point)
    requires forall e | e in es :: Dominates(yp, e.point)
    requires forall i | 0 <= i < |yp| :: exists e :: e in es && i < |e.point| && e.point[i] == yp[i]
    ensures forall q: Point | |q| == |yp| :: Dominates(q, yp) <==> forall e | e in es :: Dominates(q, e.point)
  {
    forall q: Point | |q| == |yp|
      ensures Dominates(q, yp) <==> forall e | e in es :: Dominates(q, e.point)
    {
      if Dominates(q, yp) {
        forall e | e in es
          ensures Dominates(q, e.point)
        {
          DominatesTransitive(q, yp, e.point);
        }
      } else {
        var i :| 0 <= i < |q| && q[i] > yp[i];
        var e :| e in es && i < |e.point| && e.point[i] == yp[i];
        assert !Dominates(q, e.point);
      }
    }
  }

  /** `pareto::dominator`: the componentwise minimum of the archive, or the origin. */
  method Dominator(es: seq<Entry>, n: nat) returns (yp: Point)
    requires forall e | e in es :: |e.point| == n
    ensures |yp| == n
    ensures es == [] ==> forall i | 0 <= i < |yp| :: yp[i] == 0
    ensures es != [] ==>
              forall q: Point | |q| == |yp| :: Dominates(q, yp) <==> forall e | e in es :: Dominates(q, e.point)
  {
    yp := seq(n, i => 0);
    if |es| == 0 {
      return;
    }
    yp := es[0].point;
    for k := 0 to |es|
      invariant |yp| == n
      invariant Dominates(yp, es[0].point) && forall j | 0 <= j < k :: Dominates(yp, es[j].point)
      invariant forall i | 0 <= i < |yp| :: exists e :: e in es && i < |e.point| && e.point[i] == yp[i]
    {
      ghost var before := yp;
      for i := 0 to |yp|
        invariant |yp| == n && (forall m | 0 <= m < i :: yp[m] <= es[k].point[m])
        invariant forall m | 0 <= m < |yp| :: yp[m] <= before[m] && (yp[m] == before[m] || yp[m] == es[k].point[m])
      {
        if yp[i] > es[k].point[i] {
          yp := yp[i := es[k].point[i]];
        }
      }
      forall i | 0 <= i < |yp|
        ensures exists e :: e in es && i < |e.point| && e.point[i] == yp[i]
      {
        if yp[i] == es[k].point[i] {
          assert es[k] in es;
        } else {
          var e :| e in es && i < |e.point| && e.point[i] == before[i];
        }
      }
      forall j | 0 <= j < k
        ensures Dominates(yp, es[j].point)
      {
        DominatesTransitive(yp, before, es[j].point);
      }
      DominatesTransitive(yp, before, es[0].point);
    }
    LowerBounds(es, yp);
  }

  // ---------------------------------------------------------------- what sequential searches keep

  /** The database is the formula with the blocks of the found points. */
  ghost predicate Blocked(p: Problem, db: Db, found: set<Point>) {
    db == p.hard + Blocks(p, found) && found <= FeasiblePoints(p)
  }

  /** The archive is an antichain of found points that covers them all. */
  ghost predicate Fronts(found: set<Point>, points: set<Point>) {
    points <= found && Antichain(points) && CoversAll(points, found)
  }

  lemma NothingPushed()
    ensures Fronts({}, Points([]))
  {
  }

  /** Every entry holds a model of the problem and its point. */
  ghost predicate Candidates(p: Problem, es: seq<Entry>) {
    forall e | e in es :: SatDb(p.hard, e.model) && e.point == Eval(p, e.model)
  }

  lemma CandidatesGrow(p: Problem, es: seq<Entry>, model: Assignment, y: Point)
    requires Candidates(p, es) && SatDb(p.hard, model) && y == Eval(p, model)
    ensures Candidates(p, Kept(es, y)) && Candidates(p, Kept(es, y) + [Entry(model, y)])
  {
    hide Eval, SatDb;
    KeptMembers(es, y);
  }

  lemma BlockedIsSound(p: Problem, db: Db, found: set<Point>)
    requires Valid(p) && Blocked(p, db, found)
    ensures Sound(p, found, db)
  {
    forall y | y in found
      ensures Covered(found, y)
    {
      DominatesItself(y);
    }
    SoundBlocks(p, found, p.hard, found);
  }

  /** A model of the database is feasible, and no blocked point dominates it. */
  lemma ModelIsOpen(p: Problem, db: Db, blocked: set<Point>, a: Assignment)
    requires Valid(p) && Blocked(p, db, blocked) && SatDb(db, a)
    ensures SatDb(p.hard, a) && Eval(p, a) in FeasiblePoints(p) && !Covered(blocked, Eval(p, a))
  {
    var y := Eval(p, a);
    ModelIsFeasible(p, a);
    forall t | t in blocked
      ensures !Dominates(t, y)
    {
      assert BlockClause(p.roots, t) in db;
      var _ := FeasiblePoint(p, t);
      BlockMeaning(p, t, a);
    }
  }

  /** With every found point blocked, a model is a new point that the archive does not dominate. */
  lemma ModelIsNew(p: Problem, db: Db, found: set<Point>, points: set<Point>, a: Assignment)
    requires Valid(p) && Blocked(p, db, found) && Fronts(found, points) && SatDb(db, a)
    ensures var y := Eval(p, a); y in FeasiblePoints(p) && !Covered(found, y) && !Covered(points, y) && y !in found
  {
    ModelIsOpen(p, db, found, a);
    DominatesItself(Eval(p, a));
  }

  lemma BlockedGrows(p: Problem, db: Db, found: set<Point>, y: Point)
    requires Blocked(p, db, found) && y in FeasiblePoints(p)
    ensures Blocked(p, db + {BlockClause(p.roots, y)}, found + {y})
  {
    assert Blocks(p, found + {y}) == Blocks(p, found) + {BlockClause(p.roots, y)};
  }

  lemma FrontsGrow(found: set<Point>, es: seq<Entry>, model: Assignment, y: Point)
    requires Fronts(found, Points(es)) && !Covered(Points(es), y)
    ensures Fronts(found + {y}, Points(Kept(es, y) + [Entry(model, y)]))
  {
    PushedKeepsFront(es, model, y);
  }

  /** `pushSafe` of any found point, taken or not, leaves an antichain that covers everything found. */
  lemma PushedStaysFront(found: set<Point>, es: seq<Entry>, model: Assignment, y: Point)
    requires Fronts(found, Points(es))
    ensures var es' := Kept(es, y) + if Covered(Points(es), y) then [] else [Entry(model, y)];
            Fronts(found + {y}, Points(es')) && Covered(Points(es'), y)
  {
    if Covered(Points(es), y) {
      BarredChangesNothing(es, y);
      assert Kept(es, y) + [] == es;
      assert forall q {:trigger Covered(Points(es), q)} | q in found + {y} :: Covered(Points(es), q);
    } else {
      FrontsGrow(found, es, model, y);
    }
  }

  /** The archive covers what the found points cover, so in the end it is the Pareto front. */
  lemma FinalFront(found: set<Point>, points: set<Point>, feasible: set<Point>)
    requires found <= feasible && Fronts(found, points) && CoversAll(found, feasible)
    ensures CoversAll(points, feasible) && points == ParetoFront(feasible)
  {
    forall q | q in feasible
      ensures Covered(points, q)
    {
      assert Covered(found, q);
      var y :| y in found && Dominates(y, q);
      assert Covered(points, y);
      CoveredBelow(points, y, q);
    }
    AntichainCoverIsTheFront(points, feasible);
  }
}
