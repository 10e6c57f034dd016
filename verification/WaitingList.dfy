/** The stack of fences, with its set of everything ever inserted. */
module WaitingList {
  import opened Pareto

  predicate Engulfed(stack: seq<Point>, y: Point) {
    exists p | p in stack :: Dominates(y, p)
  }

  /** The pending points that `y` does not contain. */
  function Unpruned(stack: seq<Point>, y: Point): (r: seq<Point>)
    ensures forall p :: p in r <==> p in stack && !Dominates(p, y)
    ensures |r| <= |stack|
  {
    if stack == [] then []
    else if Dominates(stack[0], y) then Unpruned(stack[1..], y)
    else [stack[0]] + Unpruned(stack[1..], y)
  }

  /** The stack after `insertAndPrune(y)`. */
  function Pruned(stack: seq<Point>, seen: set<Point>, y: Point): seq<Point> {
    if y in seen || Engulfed(stack, y) then stack else Unpruned(stack, y) + [y]
  }

  /** Some pending point, or one of `others`, contains `d`. */
  ghost predicate Above(stack: seq<Point>, others: set<Point>, d: Point) {
    exists w :: (w in stack || w in others) && Dominates(d, w)
  }

  /** Pruning replaces a pending point only by a larger one. */
  lemma PrunedKeepsAbove(stack: seq<Point>, seen: set<Point>, others: set<Point>, y: Point, d: Point)
    requires Above(stack, others, d)
    ensures Above(Pruned(stack, seen, y), others, d)
  {
    var w :| (w in stack || w in others) && Dominates(d, w);
    var s := Pruned(stack, seen, y);
    if w !in s && w !in others {
      assert y in s;
      DominatesTransitive(d, w, y);
    }
  }

  /** A new point is pending afterwards, or something that contains it is. */
  lemma PrunedHasNew(stack: seq<Point>, seen: set<Point>, others: set<Point>, y: Point)
    requires y !in seen
    ensures Above(Pruned(stack, seen, y), others, y)
  {
    if Engulfed(stack, y) {
      var w :| w in stack && Dominates(y, w);
    } else {
      assert y in Pruned(stack, seen, y) && Dominates(y, y);
    }
  }

  class Stack {
    var stack: seq<Point>
    var seen: set<Point>

    constructor ()
      ensures stack == [] && seen == {}
    {
      stack, seen := [], {};
    }

    method Insert(y: Point, force: bool)
      modifies this
      ensures seen == old(seen) + {y}
      ensures stack == if y !in old(seen) || force then old(stack) + [y] else old(stack)
    {
      var firstSeen := y !in seen;
      seen := seen + {y};
      if firstSeen || force {
        stack := stack + [y];
      }
    }

    method InsertAndPrune(y: Point)
      modifies this
      ensures stack == Pruned(old(stack), old(seen), y) && seen == old(seen) + {y}
    {
      var firstSeen := y !in seen;
      seen := seen + {y};
      if !firstSeen {
        return;
      }
      if exists p | p in stack :: Dominates(y, p) {
        return;
      }
      var kept := [];
      for i := 0 to |stack|
        invariant kept + Unpruned(stack[i..], y) == Unpruned(stack, y)
      {
        if !Dominates(stack[i], y) {
          kept := kept + [stack[i]];
        }
        assert stack[i..][1..] == stack[i + 1..];
      }
      stack := kept + [y];
    }
  }
}
