/**
 * The plan of a reconciliation: replaying the change on a virtual copy of the previous keys yields four worklists,
 * removals, swaps, insertions and unchanged keys.
 */
module KeyPlan {
  import opened Seqs
  import opened ChildList

  /** A list key, compared and looked up by its name as a property key. */
  datatype Key = Key(name: string)

  /** The anchor name that stands for "insert right after the template element". */
  const TEMPLATE := Key("template")

  // ---------------------------------------------------------------------------------------------
  // What the worklists mean on key sequences
  // ---------------------------------------------------------------------------------------------

  /** Exchange the elements of two keys; `to` is the key that reaches its final place. */
  datatype Move = Move(from: Key, to: Key)

  /** Insert the key at index `index` of the new list behind the element named by `anchor`. */
  datatype Add = Add(anchor: Key, index: nat)

  function ApplyMoves(keys: seq<Key>, moves: seq<Move>): seq<Key>
    decreases |moves|
  {
    if |moves| == 0 then keys else ApplyMoves(Swap(keys, moves[0].from, moves[0].to), moves[1..])
  }

  lemma {:induction false} ApplyMovesOneMore(keys: seq<Key>, moves: seq<Move>, m: Move)
    ensures ApplyMoves(keys, moves + [m]) == Swap(ApplyMoves(keys, moves), m.from, m.to)
    decreases |moves|
  {
    if |moves| == 0 {
      assert moves + [m] == [m];
    } else {
      assert (moves + [m])[1..] == moves[1..] + [m];
      ApplyMovesOneMore(Swap(keys, moves[0].from, moves[0].to), moves[1..], m);
    }
  }

  /** Swaps act on the keys and not on their places: equal keys stay equal. */
  lemma {:induction false} ApplyMovesPointwise(s: seq<Key>, t: seq<Key>, moves: seq<Move>)
    ensures |ApplyMoves(s, moves)| == |s| && |ApplyMoves(t, moves)| == |t|
    ensures forall i, j :: 0 <= i < |s| && 0 <= j < |t| && s[i] == t[j] ==>
              ApplyMoves(s, moves)[i] == ApplyMoves(t, moves)[j]
    decreases |moves|
  {
    if |moves| > 0 {
      var m := moves[0];
      ApplyMovesPointwise(Swap(s, m.from, m.to), Swap(t, m.from, m.to), moves[1..]);
    }
  }

  /** Every swap exchanges two different rendered keys. */
  ghost predicate MovesWithin(moves: seq<Move>, keys: seq<Key>) {
    forall m :: m in moves ==> m.from in keys && m.to in keys && m.from != m.to
  }

  lemma {:induction false} SwapDistinct<T>(s: seq<T>, v: T, w: T)
    requires Distinct(s)
    ensures Distinct(Swap(s, v, w))
  {
  }

  lemma {:induction false} SwapElems<T>(s: seq<T>, v: T, w: T)
    requires v in s && w in s
    ensures forall x :: x in s ==> x in Swap(s, v, w)
    ensures forall x :: x in Swap(s, v, w) ==> x in s
  {
    var r := Swap(s, v, w);
    forall x | x in s
      ensures x in r
    {
      var i :| 0 <= i < |s| && s[i] == Exchange(x, v, w);
      assert r[i] == x;
    }
  }

  /** The anchor the planner writes down for the key at index `i`. */
  function Anchor(keys: seq<Key>, i: nat): Key
    requires i < |keys|
  {
    if i == 0 then TEMPLATE else keys[i - 1]
  }

  /** The insertions owed for the keys from index `from` on, given the keys already rendered. */
  function AddsFrom(keys: seq<Key>, rendered: set<Key>, from: nat): seq<Add>
    requires from <= |keys|
    decreases |keys| - from
  {
    if from == |keys| then []
    else if keys[from] in rendered then AddsFrom(keys, rendered, from + 1)
    else [Add(Anchor(keys, from), from)] + AddsFrom(keys, rendered, from + 1)
  }

  /** Inserting `key` behind its anchor; the anchor name "template" always means the template element. */
  function InsertKey(region: seq<Key>, anchor: Key, key: Key): seq<Key> {
    if anchor == TEMPLATE then [key] + region else InsertAfter(region, anchor, key)
  }

  function ApplyAdds(region: seq<Key>, adds: seq<Add>, keys: seq<Key>): seq<Key>
    requires forall a :: a in adds ==> a.index < |keys|
    decreases |adds|
  {
    if |adds| == 0 then region
    else ApplyAdds(InsertKey(region, adds[0].anchor, keys[adds[0].index]), adds[1..], keys)
  }

  lemma {:induction false} AddsInRange(keys: seq<Key>, rendered: set<Key>, from: nat)
    requires from <= |keys|
    ensures forall a :: a in AddsFrom(keys, rendered, from) ==> from <= a.index < |keys|
    decreases |keys| - from
  {
    if from < |keys| {
      AddsInRange(keys, rendered, from + 1);
    }
  }

  /**
   * The key at index `i` is new and its predecessor is the key spelled like the anchor name: the
   * insertion is then sent behind the template element instead of behind the predecessor.
   */
  predicate Misplaced(keys: seq<Key>, rendered: set<Key>, i: nat) {
    0 < i < |keys| && keys[i - 1] == TEMPLATE && keys[i] !in rendered
  }

  ghost predicate HasMisplaced(keys: seq<Key>, rendered: set<Key>) {
    exists i: nat :: Misplaced(keys, rendered, i)
  }

  lemma {:induction false} InsertBehindPrefix(keys: seq<Key>, from: nat, tail: seq<Key>)
    requires Distinct(keys) && from < |keys| && (from > 0 ==> keys[from - 1] != TEMPLATE)
    ensures InsertKey(keys[..from] + tail, Anchor(keys, from), keys[from]) == keys[..from + 1] + tail
  {
    if from > 0 {
      assert keys[..from] + tail == keys[..from - 1] + [keys[from - 1]] + tail;
      InsertAfterAt(keys[..from - 1], keys[from - 1], tail, keys[from]);
    }
  }

  lemma {:induction false} AddsRestoreOrder(keys: seq<Key>, rendered: set<Key>, from: nat)
    requires Distinct(keys) && from <= |keys|
    requires forall i: nat :: from <= i ==> !Misplaced(keys, rendered, i)
    ensures forall a :: a in AddsFrom(keys, rendered, from) ==> a.index < |keys|
    ensures ApplyAdds(keys[..from] + Keep(keys[from..], rendered), AddsFrom(keys, rendered, from), keys) == keys
    decreases |keys| - from
  {
    AddsInRange(keys, rendered, from);
    if from == |keys| {
      Whole(keys);
      WithNothing(keys, Keep(keys[from..], rendered));
    } else {
      var k, tail := keys[from], Keep(keys[from + 1..], rendered);
      Tail(keys, from);
      AddsRestoreOrder(keys, rendered, from + 1);
      OneMore(keys, from);
      Assoc(keys[..from], [k], tail);
      if k !in rendered {
        assert !Misplaced(keys, rendered, from);
        InsertBehindPrefix(keys, from, tail);
      }
    }
  }

  // A misplaced insertion leaves its key ahead of the predecessor for good.

  ghost predicate Precedes<T>(s: seq<T>, x: T, y: T) {
    exists i, j :: 0 <= i < j < |s| && s[i] == x && s[j] == y
  }

  lemma {:induction false} InsertKeyElems(s: seq<Key>, a: Key, k: Key)
    requires a == TEMPLATE || a in s
    ensures forall x :: x in InsertKey(s, a, k) <==> x == k || x in s
  {
    if a != TEMPLATE {
      var p, q := SplitAt(s, a);
      InsertAfterAt(p, a, q, k);
    }
  }

  lemma {:induction false} InsertKeyPrecedes(s: seq<Key>, a: Key, k: Key, x: Key, y: Key)
    requires Precedes(s, x, y)
    ensures Precedes(InsertKey(s, a, k), x, y)
  {
    var i, j :| 0 <= i < j < |s| && s[i] == x && s[j] == y;
    if a == TEMPLATE {
      var r := [k] + s;
      assert r[i + 1] == x && r[j + 1] == y;
    } else if a in s {
      var p, q := SplitAt(s, a);
      InsertAfterAt(p, a, q, k);
      var r := p + [a, k] + q;
      var i' := if i <= |p| then i else i + 1;
      var j' := if j <= |p| then j else j + 1;
      assert r[i'] == x && r[j'] == y;
    } else {
      InsertAfterAbsent(s, a, k);
    }
  }

  lemma {:induction false} InsertAfterAbsent<T>(s: seq<T>, a: T, k: T)
    requires a !in s
    ensures InsertAfter(s, a, k) == s
  {
    if |s| > 0 {
      InsertAfterAbsent(s[1..], a, k);
    }
  }

  lemma {:induction false} AddsPrecede(region: seq<Key>, adds: seq<Add>, keys: seq<Key>, x: Key, y: Key)
    requires forall a :: a in adds ==> a.index < |keys|
    requires Precedes(region, x, y)
    ensures Precedes(ApplyAdds(region, adds, keys), x, y)
    decreases |adds|
  {
    if |adds| > 0 {
      InsertKeyPrecedes(region, adds[0].anchor, keys[adds[0].index], x, y);
      AddsPrecede(InsertKey(region, adds[0].anchor, keys[adds[0].index]), adds[1..], keys, x, y);
    }
  }

  lemma {:induction false} MisplacedBreaksOrder(region: seq<Key>, keys: seq<Key>, rendered: set<Key>, from: nat, i: nat)
    requires Distinct(keys) && from <= i && Misplaced(keys, rendered, i)
    requires forall x :: x in keys[..from] || (x in keys && x in rendered) ==> x in region
    ensures forall a :: a in AddsFrom(keys, rendered, from) ==> a.index < |keys|
    ensures ApplyAdds(region, AddsFrom(keys, rendered, from), keys) != keys
    decreases |keys| - from
  {
    AddsInRange(keys, rendered, from);
    var k := keys[from];
    assert keys[..from + 1] == keys[..from] + [k];
    if k in rendered {
      MisplacedBreaksOrder(region, keys, rendered, from + 1, i);
    } else {
      var anchor := Anchor(keys, from);
      assert from > 0 ==> anchor in keys[..from];
      InsertKeyElems(region, anchor, k);
      var next := InsertKey(region, anchor, k);
      if from == i {
        var j :| 0 <= j < |region| && region[j] == anchor;
        assert next[0] == k && next[j + 1] == anchor;
        assert Precedes(next, k, anchor);
        AddsInRange(keys, rendered, from + 1);
        AddsPrecede(next, AddsFrom(keys, rendered, from + 1), keys, k, anchor);
      } else {
        MisplacedBreaksOrder(next, keys, rendered, from + 1, i);
      }
    }
  }

  /** The insertions turn the reordered survivors into the new list exactly when none is misplaced. */
  lemma {:induction false} AddsRestoreOrderIff(keys: seq<Key>, rendered: set<Key>)
    requires Distinct(keys)
    ensures forall a :: a in AddsFrom(keys, rendered, 0) ==> a.index < |keys|
    ensures ApplyAdds(Keep(keys, rendered), AddsFrom(keys, rendered, 0), keys) == keys
       <==> !HasMisplaced(keys, rendered)
  {
    AddsInRange(keys, rendered, 0);
    assert keys[..0] + Keep(keys[0..], rendered) == Keep(keys, rendered);
    if HasMisplaced(keys, rendered) {
      var i: nat :| Misplaced(keys, rendered, i);
      MisplacedBreaksOrder(Keep(keys, rendered), keys, rendered, 0, i);
    } else {
      AddsRestoreOrder(keys, rendered, 0);
    }
  }

  lemma {:induction false} InsertKeyKeeps(region: seq<Key>, anchor: Key, k: Key, rendered: set<Key>)
    requires k !in rendered
    ensures Keep(InsertKey(region, anchor, k), rendered) == Keep(region, rendered)
  {
    if anchor == TEMPLATE {
      Behind([k], region);
    } else if anchor in region {
      var a, b := SplitAt(region, anchor);
      InsertAfterAt(a, anchor, b, k);
      KeepConcat(a + [anchor], b, rendered);
      KeepConcat(a + [anchor, k], b, rendered);
      KeepConcat(a, [anchor], rendered);
      KeepConcat(a, [anchor, k], rendered);
      assert [anchor, k][1..] == [k] && [anchor][1..] == [] && [k][1..] == [];
    } else {
      InsertAfterAbsent(region, anchor, k);
    }
  }

  /** Insertions leave the relative order of the keys already rendered as it is. */
  lemma {:induction false} AddsKeepRendered(region: seq<Key>, keys: seq<Key>, rendered: set<Key>, from: nat)
    requires from <= |keys|
    ensures forall a :: a in AddsFrom(keys, rendered, from) ==> a.index < |keys|
    ensures Keep(ApplyAdds(region, AddsFrom(keys, rendered, from), keys), rendered) == Keep(region, rendered)
    decreases |keys| - from
  {
    AddsInRange(keys, rendered, from);
    if from < |keys| {
      if keys[from] in rendered {
        AddsKeepRendered(region, keys, rendered, from + 1);
      } else {
        InsertKeyKeeps(region, Anchor(keys, from), keys[from], rendered);
        AddsKeepRendered(InsertKey(region, Anchor(keys, from), keys[from]), keys, rendered, from + 1);
      }
    }
  }

  // ---------------------------------------------------------------------------------------------
  // The order after a run, from any order on the page
  // ---------------------------------------------------------------------------------------------

  /** `shown` is an order of the previous keys; after a misplaced run it may be another one than theirs. */
  ghost predicate OrderOf(shown: seq<Key>, prev: seq<Key>) {
    Distinct(shown) && forall x :: x in shown <==> x in prev
  }

  /** The key that stands in `to` where `x` stands in `from`. */
  function Counterpart(x: Key, from: seq<Key>, to: seq<Key>): Key {
    var i := IndexOf(from, x);
    if 0 <= i < |to| then to[i] else x
  }

  /**
   * The survivors behind the swaps, which are planned for the order of the previous keys: wherever the page shows the
   * survivor that comes n-th in that order, it then shows the one that comes n-th among the new keys.
   */
  function Rearranged(shown: seq<Key>, prev: seq<Key>, keys: seq<Key>): seq<Key> {
    var kept := Keep(shown, Elems(keys));
    seq(|kept|, i requires 0 <= i < |kept| =>
      Counterpart(kept[i], Keep(prev, Elems(keys)), Keep(keys, Elems(prev))))
  }

  /** The key order on the page after a run that finds the previous keys in the order `shown`. */
  function FinalOrder(shown: seq<Key>, prev: seq<Key>, keys: seq<Key>): seq<Key> {
    AddsInRange(keys, Elems(prev), 0);
    ApplyAdds(Rearranged(shown, prev, keys), AddsFrom(keys, Elems(prev), 0), keys)
  }

  lemma {:induction false} MovesRearrange(shown: seq<Key>, prev: seq<Key>, keys: seq<Key>, moves: seq<Move>)
    requires OrderOf(shown, prev) && ApplyMoves(Keep(prev, Elems(keys)), moves) == Keep(keys, Elems(prev))
    ensures ApplyMoves(Keep(shown, Elems(keys)), moves) == Rearranged(shown, prev, keys)
  {
    ApplyMovesPointwise(Keep(shown, Elems(keys)), Keep(prev, Elems(keys)), moves);
  }

  lemma {:induction false} SameSurvivors(shown: seq<Key>, prev: seq<Key>, keys: seq<Key>)
    requires Distinct(prev) && Distinct(keys) && OrderOf(shown, prev)
    ensures var k, p, n := Keep(shown, Elems(keys)), Keep(prev, Elems(keys)), Keep(keys, Elems(prev));
            |k| == |p| == |n| && Distinct(p) && Distinct(n) && forall x :: x in k <==> x in p
  {
    var k, p, n := Keep(shown, Elems(keys)), Keep(prev, Elems(keys)), Keep(keys, Elems(prev));
    KeepDistinct(shown, Elems(keys));
    KeepDistinct(prev, Elems(keys));
    KeepDistinct(keys, Elems(prev));
    DistinctLength(k);
    DistinctLength(p);
    DistinctLength(n);
    assert Elems(k) == Elems(p) == Elems(n);
  }

  /** The survivors come out in the order of the new keys exactly if they were in the order of the previous ones. */
  lemma {:induction false} RearrangedIff(shown: seq<Key>, prev: seq<Key>, keys: seq<Key>)
    requires Distinct(prev) && Distinct(keys) && OrderOf(shown, prev)
    ensures Keep(Rearranged(shown, prev, keys), Elems(prev)) == Rearranged(shown, prev, keys)
    ensures Rearranged(shown, prev, keys) == Keep(keys, Elems(prev)) <==>
            Keep(shown, Elems(keys)) == Keep(prev, Elems(keys))
  {
    var k, p, n := Keep(shown, Elems(keys)), Keep(prev, Elems(keys)), Keep(keys, Elems(prev));
    var r := Rearranged(shown, prev, keys);
    SameSurvivors(shown, prev, keys);
    forall i | 0 <= i < |k|
      ensures r[i] in n && (r[i] == n[i] <==> k[i] == p[i])
    {
      assert k[i] in k;
      CounterpartIff(k[i], p, n, i);
    }
    KeepEverything(r, Elems(prev));
  }

  lemma {:induction false} CounterpartIff(x: Key, from: seq<Key>, to: seq<Key>, i: nat)
    requires x in from && |from| == |to| && Distinct(from) && Distinct(to) && i < |to|
    ensures Counterpart(x, from, to) in to && (Counterpart(x, from, to) == to[i] <==> x == from[i])
  {
  }

  /**
   * From every order on the page, the order comes out right if and only if the page shows the survivors in the order
   * of the previous keys and no new key directly follows the key spelled "template".
   */
  lemma {:induction false} FinalOrderIff(shown: seq<Key>, prev: seq<Key>, keys: seq<Key>)
    requires Distinct(prev) && Distinct(keys) && OrderOf(shown, prev)
    ensures FinalOrder(shown, prev, keys) == keys <==>
            Keep(shown, Elems(keys)) == Keep(prev, Elems(keys)) && !HasMisplaced(keys, Elems(prev))
  {
    RearrangedIff(shown, prev, keys);
    AddsKeepRendered(Rearranged(shown, prev, keys), keys, Elems(prev), 0);
    AddsRestoreOrderIff(keys, Elems(prev));
  }

  /** Running again with the same keys leaves every order as it is, wrong ones included. */
  lemma {:induction false} SameKeysSameOrder(shown: seq<Key>, keys: seq<Key>)
    requires Distinct(keys) && OrderOf(shown, keys)
    ensures FinalOrder(shown, keys, keys) == shown
  {
    KeepEverything(shown, Elems(keys));
    KeepEverything(keys, Elems(keys));
    NothingToAdd(keys, 0);
    assert Rearranged(shown, keys, keys) == shown;
  }

  lemma {:induction false} NothingToAdd(keys: seq<Key>, from: nat)
    requires from <= |keys|
    ensures AddsFrom(keys, Elems(keys), from) == []
    decreases |keys| - from
  {
    if from < |keys| {
      NothingToAdd(keys, from + 1);
    }
  }

  /** For example, a new key behind a new key named "template" comes out in front of it, and stays there. */
  lemma {:induction false} TemplateKeyMisplaces(x: Key)
    requires x != TEMPLATE
    ensures var keys := [TEMPLATE, x];
            FinalOrder([], [], keys) == FinalOrder([x, TEMPLATE], keys, keys) == [x, TEMPLATE]
  {
    var keys := [TEMPLATE, x];
    SameKeysSameOrder([x, TEMPLATE], keys);
    var none: seq<Key> := [];
    var first, second := Add(TEMPLATE, 0), Add(TEMPLATE, 1);
    assert AddsFrom(keys, Elems(none), 1) == [second];
    assert AddsFrom(keys, Elems(none), 0) == [first] + [second];
    assert ([first] + [second])[1..] == [second];
    assert Rearranged(none, none, keys) == none;
    assert InsertKey(none, TEMPLATE, TEMPLATE) == [TEMPLATE];
    assert InsertKey([TEMPLATE], TEMPLATE, x) == [x, TEMPLATE];
    assert ApplyAdds([TEMPLATE], [second], keys) == [x, TEMPLATE];
    assert ApplyAdds(none, [first] + [second], keys) == ApplyAdds([TEMPLATE], [second], keys);
  }

  // ---------------------------------------------------------------------------------------------
  // Planning on the virtual copy of the previous keys
  // ---------------------------------------------------------------------------------------------

  lemma {:induction false} SwapSuffix<T>(p: seq<T>, r: seq<T>, v: T, w: T)
    requires v !in p && w !in p
    ensures Swap(p + r, v, w) == p + Swap(r, v, w)
  {
  }

  /** Taking out the elements at `f` and `b` and putting them back crosswise, by four splices. */
  function SpliceSwap<T>(c: seq<T>, f: nat, b: nat): seq<T>
    requires f < b < |c|
  {
    var c1 := c[..f] + c[f + 1..];
    var c2 := c1[..b - 1] + c1[b..];
    var c3 := c2[..f] + [c1[b - 1]] + c2[f..];
    c3[..b] + [c[f]] + c3[b..]
  }

  lemma {:induction false} SpliceSwapParts<T>(p: seq<T>, v: T, m: seq<T>, w: T, q: seq<T>)
    ensures SpliceSwap(p + ([v] + m + [w] + q), |p|, |p| + 1 + |m|) == p + ([w] + m + [v] + q)
  {
    var c, f, b := p + ([v] + m + [w] + q), |p|, |p| + 1 + |m|;
    var c1 := c[..f] + c[f + 1..];
    assert c1 == p + m + [w] + q;
    var c2 := c1[..b - 1] + c1[b..];
    assert c2 == p + m + q;
    var c3 := c2[..f] + [w] + c2[f..];
    assert c3 == p + [w] + m + q;
  }

  /**
   * What the planner knows after `f` keys. The virtual list is `keys[..f] + rest`; `rest` holds the survivors
   * still waiting, and the swaps recorded so far bring the real list to the placed survivors followed by `rest`.
   */
  ghost predicate Planned(prev: seq<Key>, keys: seq<Key>, f: nat, rest: seq<Key>, moves: seq<Move>)
    requires f <= |keys|
  {
    var kept := Keep(prev, Elems(keys));
    && Distinct(rest)
    && (forall x :: x in rest <==> x in kept && x !in keys[..f])
    && MovesWithin(moves, kept)
    && ApplyMoves(kept, moves) == Keep(keys[..f], Elems(prev)) + rest
  }

  lemma {:induction false} PlannedInit(prev: seq<Key>, keys: seq<Key>)
    requires Distinct(prev)
    ensures Planned(prev, keys, 0, Keep(prev, Elems(keys)), [])
  {
    var kept := Keep(prev, Elems(keys));
    KeepDistinct(prev, Elems(keys));
    assert Keep(keys[..0], Elems(prev)) + kept == kept;
  }

  lemma {:induction false} KeepOneMore(keys: seq<Key>, f: nat, keep: set<Key>)
    requires f < |keys|
    ensures Keep(keys[..f + 1], keep) == Keep(keys[..f], keep) + if keys[f] in keep then [keys[f]] else []
  {
    assert keys[..f + 1] == keys[..f] + [keys[f]];
    KeepConcat(keys[..f], [keys[f]], keep);
  }

  lemma {:induction false} PlannedAdd(prev: seq<Key>, keys: seq<Key>, f: nat, rest: seq<Key>, moves: seq<Move>)
    requires Distinct(keys) && f < |keys| && Planned(prev, keys, f, rest, moves) && keys[f] !in rest
    ensures Planned(prev, keys, f + 1, rest, moves) && keys[f] !in prev
  {
    assert keys[f] in keys && keys[f] !in keys[..f];
    KeepOneMore(keys, f, Elems(prev));
  }

  lemma {:induction false} PlannedSame(prev: seq<Key>, keys: seq<Key>, f: nat, rest: seq<Key>, moves: seq<Move>)
    requires Distinct(keys) && f < |keys| && Planned(prev, keys, f, rest, moves)
    requires rest != [] && rest[0] == keys[f]
    ensures Planned(prev, keys, f + 1, rest[1..], moves) && keys[f] in prev
  {
    KeepOneMore(keys, f, Elems(prev));
    OneMore(keys, f);
    WithoutFirst(Keep(keys[..f], Elems(prev)), rest);
  }

  lemma {:induction false} WithoutFirst<T>(p: seq<T>, s: seq<T>)
    requires Distinct(s) && |s| > 0
    ensures p + s == p + [s[0]] + s[1..]
    ensures Distinct(s[1..]) && s[0] in s && forall x :: x in s[1..] <==> x in s && x != s[0]
  {
    assert s == [s[0]] + s[1..];
  }

  lemma {:induction false} PlannedSwap(prev: seq<Key>, keys: seq<Key>, f: nat, rest: seq<Key>, moves: seq<Move>, b: nat)
    requires f < |keys| && Planned(prev, keys, f, rest, moves)
    requires 0 < b < |rest| && rest[b] == keys[f]
    ensures Planned(prev, keys, f, Swap(rest, rest[0], rest[b]), moves + [Move(rest[0], rest[b])])
    ensures Swap(rest, rest[0], rest[b])[0] == keys[f]
  {
    var v, w, p := rest[0], rest[b], Keep(keys[..f], Elems(prev));
    assert v in rest && w in rest;
    SwapSuffix(p, rest, v, w);
    SwapElems(rest, v, w);
    SwapDistinct(rest, v, w);
    ApplyMovesOneMore(Keep(prev, Elems(keys)), moves, Move(v, w));
  }

  lemma {:induction false} PlannedDone(prev: seq<Key>, keys: seq<Key>, rest: seq<Key>, moves: seq<Move>)
    requires Planned(prev, keys, |keys|, rest, moves)
    ensures ApplyMoves(Keep(prev, Elems(keys)), moves) == Keep(keys, Elems(prev))
  {
    assert keys[..|keys|] == keys;
    DistinctLength(rest);
    assert Elems(rest) == {};
  }

  /** The elements that get a fresh scope because they move or stay. */
  function Refreshed(moves: seq<Move>, sames: seq<Key>): set<Key> {
    (set m | m in moves :: m.to) + Elems(sames)
  }

  method PlanRemovals(prev: seq<Key>, keys: seq<Key>) returns (removed: seq<Key>)
    ensures removed == Keep(prev, Elems(prev) - Elems(keys))
  {
    removed := [];
    for i := 0 to |prev|
      invariant removed == Keep(prev[..i], Elems(prev) - Elems(keys))
    {
      KeepOneMore(prev, i, Elems(prev) - Elems(keys));
      if prev[i] !in keys {
        removed := removed + [prev[i]];
      }
    }
    assert prev[..|prev|] == prev;
  }

  lemma {:induction false} RefreshedGrows(moves: seq<Move>, sames: seq<Key>, v: Key, w: Key)
    ensures Refreshed(moves + [Move(v, w)], sames) == Refreshed(moves, sames) + {w}
    ensures Refreshed(moves, sames + [w]) == Refreshed(moves, sames) + {w}
  {
    var m := Move(v, w);
    assert m in moves + [m];
    assert forall x :: x in moves + [m] <==> x in moves || x == m;
  }

  lemma {:induction false} RefreshedStep(prev: seq<Key>, keys: seq<Key>, f: nat)
    requires f < |keys|
    ensures Elems(keys[..f + 1]) * Elems(prev) ==
            Elems(keys[..f]) * Elems(prev) + if keys[f] in prev then {keys[f]} else {}
  {
    assert keys[..f + 1] == keys[..f] + [keys[f]];
  }

  /** The splices leave the placed prefix alone and swap within the rest. */
  lemma {:induction false} VirtualSwap(p: seq<Key>, rest: seq<Key>, b: nat)
    requires Distinct(rest) && |p| < b < |p| + |rest|
    ensures SpliceSwap(p + rest, |p|, b) == p + Swap(rest, rest[0], rest[b - |p|])
  {
    var n := b - |p|;
    FirstAndOther(rest, n);
    VirtualSwapParts(p, rest, rest[0], rest[1..n], rest[n], rest[n + 1..]);
  }

  lemma {:induction false} VirtualSwapParts(p: seq<Key>, rest: seq<Key>, v: Key, m: seq<Key>, w: Key, q: seq<Key>)
    requires Distinct(rest) && rest == [v] + m + [w] + q
    ensures SpliceSwap(p + rest, |p|, |p| + 1 + |m|) == p + Swap(rest, v, w)
  {
    SpliceSwapParts(p, v, m, w, q);
    SwapParts(v, m, w, q);
  }

  lemma {:induction false} FirstAndOther<T>(s: seq<T>, j: nat)
    requires 0 < j < |s|
    ensures [s[0]] + s[1..j] + [s[j]] + s[j + 1..] == s
  {
  }

  lemma {:induction false} SwapParts<T>(v: T, m: seq<T>, w: T, q: seq<T>)
    requires Distinct([v] + m + [w] + q)
    ensures Swap([v] + m + [w] + q, v, w) == [w] + m + [v] + q
  {
    var s := [v] + m + [w] + q;
    assert s[0] == v && s[1 + |m|] == w;
    assert forall k :: 0 < k < |s| && k != 1 + |m| ==> s[k] != v && s[k] != w;
  }

  /** Looking up `x` in a virtual list that starts with other keys. */
  lemma {:induction false} IndexBehindPrefix(p: seq<Key>, rest: seq<Key>, x: Key)
    requires x !in p
    ensures IndexOf(p + rest, x) == -1 <==> x !in rest
    ensures x in rest ==> |p| <= IndexOf(p + rest, x) && rest[IndexOf(p + rest, x) - |p|] == x
  {
    var s := p + rest;
    assert forall i :: 0 <= i < |s| ==> s[i] == if i < |p| then p[i] else rest[i - |p|];
  }

  lemma {:induction false} PlaceKey(keys: seq<Key>, f: nat, rest: seq<Key>)
    requires f < |keys|
    ensures keys[..f] + [keys[f]] + rest == keys[..f + 1] + rest
    ensures rest != [] && rest[0] == keys[f] ==> keys[..f] + rest == keys[..f + 1] + rest[1..]
  {
  }

  lemma {:induction false} SwapIntoPlace(prev: seq<Key>, keys: seq<Key>, f: nat, rest: seq<Key>, moves: seq<Move>,
                                         b: nat)
    requires Distinct(keys) && f < |keys| && Planned(prev, keys, f, rest, moves)
    requires f < b < f + |rest| && rest[b - f] == keys[f]
    ensures var rest' := Swap(rest, rest[0], rest[b - f])[1..];
            && Planned(prev, keys, f + 1, rest', moves + [Move(rest[0], rest[b - f])])
            && SpliceSwap(keys[..f] + rest, f, b) == keys[..f + 1] + rest'
            && keys[f] in prev
  {
    var r := Swap(rest, rest[0], rest[b - f]);
    PlannedSwap(prev, keys, f, rest, moves, b - f);
    PlannedSame(prev, keys, f, r, moves + [Move(rest[0], rest[b - f])]);
    VirtualSwap(keys[..f], rest, b);
    PlaceKey(keys, f, r);
  }

  /** One turn of the planning loop, for the key at index `f`. */
  method PlanKey(ghost prev: seq<Key>, keys: seq<Key>, f: nat, c: seq<Key>, moves: seq<Move>, sames: seq<Key>,
                 ghost rest: seq<Key>)
    returns (c': seq<Key>, moves': seq<Move>, isNew: bool, sames': seq<Key>, ghost rest': seq<Key>)
    requires Distinct(keys) && f < |keys| && c == keys[..f] + rest && Planned(prev, keys, f, rest, moves)
    ensures c' == keys[..f + 1] + rest' && Planned(prev, keys, f + 1, rest', moves')
    ensures isNew <==> keys[f] !in prev
    ensures Refreshed(moves', sames') == Refreshed(moves, sames) + if keys[f] in prev then {keys[f]} else {}
  {
    var key := keys[f];
    var b := IndexOf(c, key);
    c', moves', isNew, sames', rest' := c, moves, false, sames, rest;
    IndexBehindPrefix(keys[..f], rest, key);
    if b == -1 {
      PlannedAdd(prev, keys, f, rest, moves);
      PlaceKey(keys, f, rest);
      c' := c[..f] + [key] + c[f..];
      isNew := true;
    } else if b != f {
      SwapIntoPlace(prev, keys, f, rest, moves, b);
      RefreshedGrows(moves, sames, c[f], c[b]);
      moves' := moves + [Move(c[f], c[b])];
      c' := SpliceSwap(c, f, b);
      rest' := Swap(rest, rest[0], rest[b - f])[1..];
    } else {
      RefreshedGrows(moves, sames, key, key);
      sames' := sames + [key];
      PlannedSame(prev, keys, f, rest, moves);
      PlaceKey(keys, f, rest);
      rest' := rest[1..];
    }
  }

  /** What the planner promises about its worklists: the stale keys go, the swaps alone bring the survivors into
      their new relative order, the insertions are owed for the other keys, and every survivor is refreshed. */
  ghost predicate PlanFor(prev: seq<Key>, keys: seq<Key>,
                          removed: seq<Key>, moves: seq<Move>, adds: seq<Add>, sames: seq<Key>)
  {
    && removed == Keep(prev, Elems(prev) - Elems(keys))
    && MovesWithin(moves, Keep(prev, Elems(keys)))
    && ApplyMoves(Keep(prev, Elems(keys)), moves) == Keep(keys, Elems(prev))
    && adds == AddsFrom(keys, Elems(prev), 0)
    && Refreshed(moves, sames) == Elems(keys) * Elems(prev)
  }

  method Plan(prev: seq<Key>, keys: seq<Key>)
    returns (removed: seq<Key>, moves: seq<Move>, adds: seq<Add>, sames: seq<Key>)
    requires Distinct(prev) && Distinct(keys)
    ensures PlanFor(prev, keys, removed, moves, adds, sames)
  {
    removed := PlanRemovals(prev, keys);
    var c := Keep(prev, Elems(prev) - Elems(removed));
    KeepAgree(prev, Elems(prev) - Elems(removed), Elems(keys));
    PlannedInit(prev, keys);
    ghost var rest := c;

    var anchor := TEMPLATE;
    moves, adds, sames := [], [], [];
    for f := 0 to |keys|
      invariant c == keys[..f] + rest && Planned(prev, keys, f, rest, moves)
      invariant f < |keys| ==> anchor == Anchor(keys, f)
      invariant adds + AddsFrom(keys, Elems(prev), f) == AddsFrom(keys, Elems(prev), 0)
      invariant Refreshed(moves, sames) == Elems(keys[..f]) * Elems(prev)
    {
      RefreshedStep(prev, keys, f);
      var isNew;
      c, moves, isNew, sames, rest := PlanKey(prev, keys, f, c, moves, sames, rest);
      Assoc(adds, [Add(anchor, f)], AddsFrom(keys, Elems(prev), f + 1));
      if isNew {
        adds := adds + [Add(anchor, f)];
      }
      anchor := keys[f];
    }
    PlannedDone(prev, keys, rest, moves);
    Whole(keys);
    WithNothing(adds, []);
  }
}
