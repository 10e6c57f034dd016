/** The pools of objective literals that the workers of parallel P-minimal sample from. */
module LiteralPools {
  import opened Cnf

  /** The position map inverts the pool, so the pool has no duplicates. */
  predicate Indexed(pool: seq<Lit>, at: map<Lit, nat>) {
    && (forall k | 0 <= k < |pool| :: pool[k] in at && at[pool[k]] == k)
    && (forall l | l in at :: at[l] < |pool| && pool[at[l]] == l)
  }

  function ObjectivesOf(objectivesOf: map<Lit, set<nat>>, l: Lit): set<nat> {
    if l in objectivesOf then objectivesOf[l] else {}
  }

  /** The index of objectives lists exactly the pools that hold a literal. */
  ghost predicate Listed(position: seq<map<Lit, nat>>, objectivesOf: map<Lit, set<nat>>) {
    forall l, i: nat :: ListsPool(position, objectivesOf, l, i)
  }

  ghost predicate ListsPool(position: seq<map<Lit, nat>>, objectivesOf: map<Lit, set<nat>>, l: Lit, i: nat) {
    i in ObjectivesOf(objectivesOf, l) <==> i < |position| && l in position[i]
  }

  lemma ListedAt(position: seq<map<Lit, nat>>, objectivesOf: map<Lit, set<nat>>, l: Lit)
    requires Listed(position, objectivesOf)
    ensures forall i: nat :: i in ObjectivesOf(objectivesOf, l) <==> i < |position| && l in position[i]
  {
    forall i: nat
      ensures i in ObjectivesOf(objectivesOf, l) <==> i < |position| && l in position[i]
    {
      assert ListsPool(position, objectivesOf, l, i);
    }
  }

  /** The map without one literal. */
  ghost predicate Without(at: map<Lit, nat>, at': map<Lit, nat>, l: Lit) {
    forall m :: m in at' <==> m in at && m != l
  }

  /** One pool during the removal of a literal: still to do, or done. */
  ghost predicate Progress(before: map<Lit, nat>, pool: seq<Lit>, at: map<Lit, nat>, l: Lit, pending: bool) {
    Indexed(pool, at) && if pending then at == before && l in at else Without(before, at, l)
  }

  ghost predicate AllProgress(before: seq<map<Lit, nat>>, pools: seq<seq<Lit>>, position: seq<map<Lit, nat>>, l: Lit,
      todo: set<nat>) {
    && |before| == |pools| == |position|
    && (forall i | i in todo :: i < |pools|)
    && (forall i: nat | i < |pools| :: Progress(before[i], pools[i], position[i], l, i in todo))
  }

  lemma OneRemoved(before: seq<map<Lit, nat>>, pools: seq<seq<Lit>>, position: seq<map<Lit, nat>>, l: Lit,
      todo: set<nat>,
                   i: nat, pool: seq<Lit>, at: map<Lit, nat>)
    requires AllProgress(before, pools, position, l, todo) && i in todo
    requires Indexed(pool, at) && at.Keys == position[i].Keys - {l}
    ensures AllProgress(before, pools[i := pool], position[i := at], l, todo - {i})
  {
    forall k: nat | k < |pools|
      ensures Progress(before[k], pools[i := pool][k], position[i := at][k], l, k in todo - {i})
    {
      assert Progress(before[k], pools[k], position[k], l, k in todo);
    }
  }

  lemma ListedWithout(position: seq<map<Lit, nat>>, position': seq<map<Lit, nat>>, objectivesOf: map<Lit, set<nat>>,
      l: Lit)
    requires Listed(position, objectivesOf) && |position'| == |position|
    requires forall i | 0 <= i < |position| :: Without(position[i], position'[i], l)
    ensures Listed(position', objectivesOf - {l})
  {
    forall m, i: nat
      ensures ListsPool(position', objectivesOf - {l}, m, i)
    {
      assert ListsPool(position, objectivesOf, m, i);
      assert i < |position| ==> Without(position[i], position'[i], l);
    }
  }

  class Pools {
    var pools: seq<seq<Lit>>
    var position: seq<map<Lit, nat>>
    var objectivesOf: map<Lit, set<nat>>

    ghost predicate Valid()
      reads this
    {
      && |position| == |pools|
      && (forall i | 0 <= i < |pools| :: Indexed(pools[i], position[i]))
      && Listed(position, objectivesOf)
    }

    /** Swap the literal with the last one of its pool and drop it. */
    static method SwapRemove(pool: seq<Lit>, at: map<Lit, nat>, l: Lit) returns (pool': seq<Lit>, at': map<Lit, nat>)
      requires Indexed(pool, at) && l in at
      ensures Indexed(pool', at') && at'.Keys == at.Keys - {l}
    {
      var pos, n := at[l], |pool| - 1;
      pool' := pool[pos := pool[n]][n := l];
      at' := at[pool'[pos] := pos];
      pool' := pool'[..n];
      at' := at' - {l};
    }

    /** Shrink the pools by a core: exactly its literals disappear from every pool. */
    method RemoveCore(core: seq<Lit>)
      requires Valid()
      modifies this
      ensures Valid() && |pools| == |old(pools)|
      ensures forall i | 0 <= i < |pools| :: forall l :: l in position[i] <==> l in old(position)[i] && l !in core
    {
      for n := 0 to |core|
        invariant Valid() && |pools| == |old(pools)|
        invariant forall i | 0 <= i < |pools| :: forall l :: l in position[i] <==>
            l in old(position)[i] && l !in core[..n]
      {
        RemoveLiteral(core[n]);
        assert core[..n + 1] == core[..n] + [core[n]];
      }
      assert core[..|core|] == core;
    }

    method RemoveFromAll(objectives: set<nat>, l: Lit)
      requires AllProgress(position, pools, position, l, objectives)
      modifies this`pools, this`position
      ensures AllProgress(old(position), pools, position, l, {})
    {
      var todo := objectives;
      while todo != {}
        invariant AllProgress(old(position), pools, position, l, todo)
        decreases |todo|
      {
        var i: nat :| i in todo;
        assert Progress(old(position)[i], pools[i], position[i], l, true);
        var pool, at := SwapRemove(pools[i], position[i], l);
        OneRemoved(old(position), pools, position, l, todo, i, pool, at);
        pools, position := pools[i := pool], position[i := at];
        todo := todo - {i};
      }
    }

    method RemoveLiteral(l: Lit)
      requires Valid()
      modifies this
      ensures Valid() && |pools| == |old(pools)|
      ensures forall i | 0 <= i < |pools| :: Without(old(position)[i], position[i], l)
    {
      ListedAt(position, objectivesOf, l);
      RemoveFromAll(ObjectivesOf(objectivesOf, l), l);
      assert forall i: nat | i < |pools| :: Progress(old(position)[i], pools[i], position[i], l, false);
      ListedWithout(old(position), position, objectivesOf, l);
      objectivesOf := objectivesOf - {l};
    }
  }
}
