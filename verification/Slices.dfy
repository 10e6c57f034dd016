/** Slices of an objective: the root literals of the sums that some of its terms can reach. */
module Slices {
  import opened Cnf
  import opened Encoding
  import opened Freezing

  // ---------------------------------------------------------------- sums of terms

  /** The sums of all sub-collections of the terms. */
  function Sums(ts: seq<Term>): (s: set<nat>)
    ensures 0 in s
  {
    if ts == [] then {0} else WithTerm(Sums(ts[1..]), ts[0].w)
  }

  /** One more term may be taken or not. */
  function WithTerm(s: set<nat>, w: nat): (r: set<nat>)
    ensures s <= r && forall x :: x in r <==> x in s || (x >= w && x - w in s)
  {
    var more := set x | x in s :: x + w;
    assert forall x | x >= w && x - w in s :: x == (x - w) + w && x in more;
    s + more
  }

  /** `allSums`: the sums of the terms from the back, on top of what is there already. */
  method AllSums(ts: seq<Term>, result0: set<nat>) returns (result: set<nat>)
    requires 0 in result0
    ensures result == SumsOn(result0, ts)
    decreases |ts|
  {
    if ts == [] {
      return result0;
    }
    var first := ts[0].w;
    result := AllSums(ts[1..], result0);
    var before := result;
    OnKeeps(result0, ts[1..]);
    result := result + {first};
    result := result + set el | el in before :: first + el;
    assert result == WithTerm(before, first);
  }

  function SumsOn(s: set<nat>, ts: seq<Term>): set<nat> {
    if ts == [] then s else WithTerm(SumsOn(s, ts[1..]), ts[0].w)
  }

  lemma {:induction false} OnKeeps(s: set<nat>, ts: seq<Term>)
    ensures s <= SumsOn(s, ts)
  {
    if ts != [] {
      OnKeeps(s, ts[1..]);
    }
  }

  lemma TwoTerms(s: set<nat>, v: nat, w: nat, x: nat)
    ensures x in WithTerm(WithTerm(s, v), w) <==>
              x in s || (x >= v && x - v in s) || (x >= w && x - w in s) || (x >= v + w && x - (v + w) in s)
  {
    assert x >= v + w ==> (x - w) - v == x - (v + w);
  }

  lemma WithTwo(s: set<nat>, v: nat, w: nat)
    ensures WithTerm(WithTerm(s, v), w) == WithTerm(WithTerm(s, w), v)
  {
    forall x: nat
      ensures x in WithTerm(WithTerm(s, v), w) <==> x in WithTerm(WithTerm(s, w), v)
    {
      TwoTerms(s, v, w, x);
      TwoTerms(s, w, v, x);
    }
  }

  /** A term below the others may as well come last. */
  lemma {:induction false} TermBelow(s: set<nat>, w: nat, ts: seq<Term>)
    ensures SumsOn(WithTerm(s, w), ts) == WithTerm(SumsOn(s, ts), w)
  {
    if ts != [] {
      TermBelow(s, w, ts[1..]);
      WithTwo(SumsOn(s, ts[1..]), w, ts[0].w);
    }
  }

  /** A grown slice has the sums of the old one with the new terms on top. */
  lemma {:induction false} GrownSums(ts: seq<Term>, slice: set<Lit>, more: set<Lit>)
    ensures Sums(Sliced(ts, slice + more)) == SumsOn(Sums(Sliced(ts, slice)), Sliced(ts, more - slice))
  {
    if ts != [] {
      GrownSums(ts[1..], slice, more);
      var t := ts[0];
      SlicedHead(ts, slice + more);
      SlicedHead(ts, slice);
      SlicedHead(ts, more - slice);
      if t.l in slice {
        TermBelow(Sums(Sliced(ts[1..], slice)), t.w, Sliced(ts[1..], more - slice));
      }
    }
  }

  lemma SlicedHead(ts: seq<Term>, slice: set<Lit>)
    requires ts != []
    ensures ts[0].l in slice ==>
        Sliced(ts, slice) == [ts[0]] + Sliced(ts[1..], slice) && Sliced(ts, slice)[1..] == Sliced(ts[1..], slice)
    ensures ts[0].l !in slice ==> Sliced(ts, slice) == Sliced(ts[1..], slice)
  {
  }

  lemma {:induction false} SlicedSums(ts: seq<Term>, slice: set<Lit>)
    ensures Sums(Sliced(ts, slice)) <= Sums(ts)
  {
    if ts != [] {
      SlicedSums(ts[1..], slice);
      SlicedHead(ts, slice);
    }
  }

  lemma {:induction false} SliceTerms(ts: seq<Term>, slice: set<Lit>)
    ensures forall t :: t in Sliced(ts, slice) <==> t in ts && t.l in slice
  {
    if ts != [] {
      SliceTerms(ts[1..], slice);
      assert ts == [ts[0]] + ts[1..];
    }
  }

  lemma {:induction false} ValueIsSum(ts: seq<Term>, a: Assignment)
    ensures Value(ts, a) in Sums(ts)
  {
    if ts != [] {
      ValueIsSum(ts[1..], a);
    }
  }

  predicate DistinctVars(ts: seq<Term>) {
    forall i, j | 0 <= i < j < |ts| :: ts[i].l.v != ts[j].l.v
  }

  lemma {:induction false} ValueWithout(ts: seq<Term>, a: Assignment, b: Assignment)
    requires forall i | 0 <= i < |ts| :: ts[i].l.v in a <==> ts[i].l.v in b
    ensures Value(ts, a) == Value(ts, b)
  {
    if ts != [] {
      ValueWithout(ts[1..], a, b);
    }
  }

  /** With one term for each variable, every sum is the value of some assignment. */
  lemma {:induction false} SumIsValue(ts: seq<Term>, s: nat) returns (a: Assignment)
    requires DistinctVars(ts) && s in Sums(ts)
    ensures Value(ts, a) == s
  {
    if ts == [] {
      a := {};
    } else {
      var t, rest := ts[0], ts[1..];
      var take := s !in Sums(rest);
      var b := SumIsValue(rest, if take then s - t.w else s);
      a := if take != t.l.neg then b + {t.l.v} else b - {t.l.v};
      ValueWithout(rest, b, a);
    }
  }

  // ---------------------------------------------------------------- the root literals of a slice

  /** The entries whose keys are one above a sum. */
  function Filtered(rs: seq<Root>, sums: set<nat>): (r: seq<Root>)
    ensures |r| <= |rs| && forall x :: x in r <==> x in rs && x.key > 0 && x.key - 1 in sums
  {
    if rs == [] then []
    else
      var rest := Filtered(rs[1..], sums);
      assert rs == [rs[0]] + rs[1..];
      (if rs[0].key > 0 && rs[0].key - 1 in sums then [rs[0]] else []) + rest
  }

  function SliceRoots(muse: Roots, sums: set<nat>): Roots {
    [muse[0]] + Filtered(muse[1..], sums)
  }

  /** The root literals of all objectives for a slice. */
  function SlicedRoots(objs: Objectives, roots: seq<Roots>, slice: set<Lit>): (r: seq<Roots>)
    ensures |objs| == |roots| ==> |r| == |objs| && forall i | 0 <= i < |r| ::
        r[i] == SliceRoots(roots[i], Sums(Sliced(objs[i], slice)))
  {
    seq(|roots|, i requires 0 <= i < |roots| => SliceRoots(roots[i],
        Sums(if i < |objs| then Sliced(objs[i], slice) else [])))
  }

  predicate Increasing(rs: seq<Root>) {
    forall i, j | 0 <= i < j < |rs| :: rs[i].key < rs[j].key
  }

  lemma {:induction false} FilteredIncreases(rs: seq<Root>, sums: set<nat>)
    requires Increasing(rs)
    ensures Increasing(Filtered(rs, sums))
  {
    if rs != [] {
      FilteredIncreases(rs[1..], sums);
      var r := Filtered(rs[1..], sums);
      forall j | 0 <= j < |r|
        ensures rs[0].key < r[j].key
      {
        assert r[j] in rs[1..];
      }
    }
  }

  /** The entry is among the real ones, behind the sentinel. */
  predicate HasRoot(rl: Roots, r: Root) {
    r in rl[1..]
  }

  /** The slice has exactly the entries of its sums, in increasing order. */
  lemma SliceMembers(muse: Roots, sums: set<nat>)
    requires SortedKeys(muse)
    ensures SortedKeys(SliceRoots(muse, sums)) && SliceRoots(muse, sums)[0] == muse[0]
    ensures forall r :: HasRoot(SliceRoots(muse, sums), r) <==> HasRoot(muse, r) && r.key > 0 && r.key - 1 in sums
  {
    var me, f := SliceRoots(muse, sums), Filtered(muse[1..], sums);
    assert Increasing(muse[1..]);
    FilteredIncreases(muse[1..], sums);
    assert me[1..] == f;
    assert forall j | 1 <= j < |me| :: me[j] == f[j - 1];
  }

  lemma HeadIsSmallest(rs: seq<Root>)
    requires Increasing(rs) && rs != []
    ensures Increasing(rs[1..]) && forall r | r in rs[1..] :: r.key > rs[0].key
  {
  }

  /** A sum above all others adds its entry at the end. */
  lemma {:induction false} FilteredAppends(rs: seq<Root>, sums: set<nat>, s: nat, j: nat)
    requires Increasing(rs) && j < |rs| && rs[j].key == s + 1 && forall x | x in sums :: x < s
    ensures Filtered(rs, sums + {s}) == Filtered(rs, sums) + [rs[j]]
  {
    hide Filtered, Increasing;
    HeadIsSmallest(rs);
    FilteredHead(rs, sums);
    FilteredHead(rs, sums + {s});
    if j > 0 {
      assert rs[j] in rs[1..] by {
        assert rs[1..][j - 1] == rs[j];
      }
      FilteredAppends(rs[1..], sums, s, j - 1);
      var f := Filtered(rs[1..], sums);
      assert [rs[0]] + (f + [rs[j]]) == ([rs[0]] + f) + [rs[j]];
    } else {
      NothingAbove(rs[1..], sums);
      NothingAbove(rs[1..], sums + {s});
    }
  }

  lemma FilteredHead(rs: seq<Root>, sums: set<nat>)
    requires rs != []
    ensures Filtered(rs, sums) == (if rs[0].key > 0 && rs[0].key - 1 in sums then [rs[0]] else []) +
        Filtered(rs[1..], sums)
  {
  }

  lemma {:induction false} NothingAbove(rs: seq<Root>, sums: set<nat>)
    requires forall r, x | r in rs && x in sums :: x + 1 < r.key
    ensures Filtered(rs, sums) == []
  {
    if rs != [] {
      assert rs[0] in rs && forall r | r in rs[1..] :: r in rs;
      NothingAbove(rs[1..], sums);
    }
  }

  // ---------------------------------------------------------------- the sliced root literals

  predicate HasKey(muse: Roots, k: nat) {
    exists j | 1 <= j < |muse| :: muse[j].key == k
  }

  /** Every sum has its own key. */
  predicate KeyedSums(muse: Roots, sums: set<nat>) {
    forall s | s in sums :: HasKey(muse, s + 1)
  }

  /** `at_key`: the first entry whose key is not smaller. */
  method AtKey(muse: Roots, val: nat) returns (j: nat)
    ensures j <= |muse| && (forall m | 0 <= m < j :: muse[m].key < val) && (j < |muse| ==> muse[j].key >= val)
  {
    j := 0;
    while j < |muse| && muse[j].key < val
      invariant j <= |muse| && forall m | 0 <= m < j :: muse[m].key < val
    {
      j := j + 1;
    }
  }

  method Least(s: set<nat>) returns (x: nat)
    requires s != {}
    ensures x in s && forall y | y in s :: x <= y
  {
    x :| x in s;
    var rest := s - {x};
    while rest != {}
      invariant rest <= s && x in s && forall y | y in s :: y in rest || x <= y
      decreases rest
    {
      var y :| y in rest;
      if y < x {
        x := y;
      }
      rest := rest - {y};
    }
  }

  /** Complete and sliced root literals of one objective. */
  class RootLitsSliced {
    const muse: Roots
    const pb: seq<Term>
    var me: Roots
    var cur: seq<Term>
    ghost var taken: set<Lit>

    ghost predicate Valid()
      reads this
    {
      && SortedKeys(muse) && muse[0].key == 0 && KeyedSums(muse, Sums(pb))
      && cur == Sliced(pb, taken) && me == SliceRoots(muse, Sums(cur))
    }

    constructor (muse: Roots, pb: seq<Term>)
      requires SortedKeys(muse) && muse[0].key == 0 && KeyedSums(muse, Sums(pb))
      ensures Valid() && this.muse == muse && this.pb == pb && taken == {}
    {
      this.muse, this.pb := muse, pb;
      me, cur, taken := SliceRoots(muse, {0}), [], {};
      new;
      NothingSliced(pb);
    }

    /** `thaw`: the terms whose literals are new to the slice, their sums on top of the old ones, and
        the list of sums built anew, each with the complete literal of its key. */
    method Thaw(vars: set<Lit>)
      requires Valid()
      modifies this`me, this`cur, this`taken
      ensures Valid() && taken == old(taken) + vars
    {
      hide SliceRoots, Sums, KeySums, KeyedSums, SortedKeys, Sliced;
      var delta := Sliced(pb, vars - (set t | t in cur :: t.l));
      SameDelta(pb, taken, vars);
      KeysOfSlice(muse, pb, taken);
      var sums := AllSums(delta, {0} + KeySums(me));
      assert {0} + Sums(cur) == Sums(cur);
      GrownSums(pb, taken, vars);
      SlicedSums(pb, taken + vars);
      FewerKeyed(muse, Sums(pb), sums);
      SameTerms(pb, taken, vars);
      me := Rebuilt(muse, sums);
      cur := Sliced(pb, vars + set t | t in cur :: t.l);
      taken := taken + vars;
    }
  }

  /** The closing loop of `thaw`: the sums in increasing order, each with the literal of its key. */
  method Rebuilt(muse: Roots, sums: set<nat>) returns (me: Roots)
    requires SortedKeys(muse) && muse[0].key == 0 && KeyedSums(muse, sums)
    ensures me == SliceRoots(muse, sums)
  {
    me := [muse[0]];
    var todo := sums;
    NothingFiltered(muse);
    assert sums - todo == {};
    hide SliceRoots, SortedKeys, KeyedSums;
    while todo != {}
      invariant todo <= sums && me == SliceRoots(muse, sums - todo) && forall x, y | x in sums - todo && y in todo ::
          x < y
      decreases todo
    {
      var el := Least(todo);
      var j := AtKey(muse, el + 1);
      SumsDone(sums, todo, el);
      EntryOfSum(muse, sums, sums - todo, el, j);
      me := me + [Root(el + 1, muse[j].lit)];
      todo := todo - {el};
    }
    assert sums - todo == sums;
  }

  lemma SumsDone(sums: set<nat>, todo: set<nat>, el: nat)
    requires todo <= sums && el in todo && forall x | x in todo :: el <= x
    requires forall x, y | x in sums - todo && y in todo :: x < y
    ensures sums - (todo - {el}) == (sums - todo) + {el} && forall x | x in sums - todo :: x < el
    ensures forall x, y | x in sums - (todo - {el}) && y in todo - {el} :: x < y
  {
  }

  lemma NothingSliced(ts: seq<Term>)
    ensures Sliced(ts, {}) == []
  {
  }

  lemma NothingFiltered(muse: Roots)
    ensures SliceRoots(muse, {}) == [muse[0]]
  {
    NothingAbove(muse[1..], {});
  }

  lemma SameDelta(ts: seq<Term>, taken: set<Lit>, vars: set<Lit>)
    ensures Sliced(ts, vars - set t | t in Sliced(ts, taken) :: t.l) == Sliced(ts, vars - taken)
  {
    SliceTerms(ts, taken);
    SlicedSame(ts, vars - (set t | t in Sliced(ts, taken) :: t.l), vars - taken);
  }

  /** Old and new terms together are the terms of the grown slice. */
  lemma SameTerms(ts: seq<Term>, taken: set<Lit>, vars: set<Lit>)
    ensures Sliced(ts, vars + set t | t in Sliced(ts, taken) :: t.l) == Sliced(ts, taken + vars)
  {
    SliceTerms(ts, taken);
    SlicedSame(ts, vars + (set t | t in Sliced(ts, taken) :: t.l), taken + vars);
  }

  lemma {:induction false} SlicedSame(ts: seq<Term>, s: set<Lit>, t: set<Lit>)
    requires forall x | x in ts :: x.l in s <==> x.l in t
    ensures Sliced(ts, s) == Sliced(ts, t)
  {
    if ts != [] {
      assert ts[0] in ts;
      assert forall x | x in ts[1..] :: x in ts;
      SlicedSame(ts[1..], s, t);
    }
  }

  /** What `thaw` reads from the current list: the keys less one. */
  function KeySums(me: Roots): set<nat> {
    set r | r in me[1..] && r.key > 0 :: r.key - 1
  }

  lemma RootOfKey(muse: Roots, k: nat) returns (r: Root)
    requires HasKey(muse, k)
    ensures HasRoot(muse, r) && r.key == k
  {
    var m :| 1 <= m < |muse| && muse[m].key == k;
    r := muse[m];
    assert muse[1..][m - 1] == r;
  }

  /** Every sum of the slice has an entry in the slice. */
  lemma SumEntry(muse: Roots, ts: seq<Term>, slice: set<Lit>, s: nat) returns (j: nat)
    requires SortedKeys(muse) && KeyedSums(muse, Sums(ts)) && s in Sums(Sliced(ts, slice))
    ensures var me := SliceRoots(muse, Sums(Sliced(ts, slice))); 1 <= j < |me| && me[j].key == s + 1
  {
    var sums := Sums(Sliced(ts, slice));
    var me := SliceRoots(muse, sums);
    SliceMembers(muse, sums);
    SlicedSums(ts, slice);
    hide Sums, Sliced, SliceRoots, SortedKeys, HasKey;
    var r := RootOfKey(muse, s + 1);
    assert HasRoot(me, r);
    var m :| 0 <= m < |me| - 1 && me[1..][m] == r;
    j := m + 1;
  }

  /** The keys of a slice are its sums plus one. */
  lemma KeysOfSlice(muse: Roots, ts: seq<Term>, taken: set<Lit>)
    requires SortedKeys(muse) && KeyedSums(muse, Sums(ts))
    ensures KeySums(SliceRoots(muse, Sums(Sliced(ts, taken)))) == Sums(Sliced(ts, taken))
  {
    var sums := Sums(Sliced(ts, taken));
    var me := SliceRoots(muse, sums);
    SliceMembers(muse, sums);
    SlicedSums(ts, taken);
    hide Sums, Sliced, SliceRoots, SortedKeys, HasKey, HasRoot, KeySums;
    forall s | s in sums
      ensures s in KeySums(me)
    {
      var r := RootOfKey(muse, s + 1);
      RootGivesSum(me, r);
    }
    forall s | s in KeySums(me)
      ensures s in sums
    {
      var r := SumHasRoot(me, s);
    }
  }

  lemma RootGivesSum(me: Roots, r: Root)
    requires HasRoot(me, r) && r.key > 0
    ensures r.key - 1 in KeySums(me)
  {
  }

  lemma SumHasRoot(me: Roots, s: nat) returns (r: Root)
    requires s in KeySums(me)
    ensures HasRoot(me, r) && r.key == s + 1
  {
    r :| r in me[1..] && r.key > 0 && s == r.key - 1;
  }

  lemma FewerKeyed(muse: Roots, sums: set<nat>, fewer: set<nat>)
    requires KeyedSums(muse, sums) && fewer <= sums
    ensures KeyedSums(muse, fewer)
  {
  }

  lemma EntryOfSum(muse: Roots, sums: set<nat>, done: set<nat>, el: nat, j: nat)
    requires SortedKeys(muse) && muse[0].key == 0 && KeyedSums(muse, sums) && el in sums && forall x | x in done ::
        x < el
    requires j <= |muse| && (forall m | 0 <= m < j :: muse[m].key < el + 1) && (j < |muse| ==> muse[j].key >= el + 1)
    ensures 1 <= j < |muse| && muse[j].key == el + 1
    ensures SliceRoots(muse, done + {el}) == SliceRoots(muse, done) + [Root(el + 1, muse[j].lit)]
  {
    assert HasKey(muse, el + 1);
    var m :| 1 <= m < |muse| && muse[m].key == el + 1;
    var tail := muse[1..];
    assert Increasing(tail) && tail[j - 1] == muse[j];
    FilteredAppends(tail, done, el, j - 1);
    assert muse[j] == Root(el + 1, muse[j].lit);
  }
}
