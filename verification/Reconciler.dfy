/**
 * The keyed list reconciler of the `x-for` directive.
 *
 * A run plans on a virtual copy of the previous keys and then applies the worklists to the real element list. The
 * virtual copy interleaves swaps and insertions; the real list sees every swap before any insertion.
 */
module Reconciler {
  import opened Seqs
  import opened ChildList
  import opened KeyPlan

  /** A child element, known by its identity. */
  datatype Node = Node(id: nat)

  // ---------------------------------------------------------------------------------------------
  // Carrying the worklists out on the real elements
  // ---------------------------------------------------------------------------------------------

  function Nodes(lookup: map<Key, Node>, keys: seq<Key>): (r: seq<Node>)
    requires forall k :: k in keys ==> k in lookup
    ensures |r| == |keys|
    ensures forall i :: 0 <= i < |keys| ==> r[i] == lookup[keys[i]]
  {
    seq(|keys|, i requires 0 <= i < |keys| => lookup[keys[i]])
  }

  /** The child list in which the elements of `region` stand between `head` and `tail`. */
  function Layout(head: seq<Node>, lookup: map<Key, Node>, region: seq<Key>, tail: seq<Node>): seq<Node>
    requires forall k :: k in region ==> k in lookup
  {
    head + Nodes(lookup, region) + tail
  }

  lemma {:induction false} LayoutSplit(head: seq<Node>, lookup: map<Key, Node>, a: seq<Key>, k: Key, b: seq<Key>,
                                       tail: seq<Node>)
    requires forall x :: x in a + [k] + b ==> x in lookup
    ensures forall x :: x in a ==> x in lookup
    ensures forall x :: x in b ==> x in lookup
    ensures k in lookup
    ensures Layout(head, lookup, a + [k] + b, tail)
         == (head + Nodes(lookup, a)) + [lookup[k]] + (Nodes(lookup, b) + tail)
  {
    var s := a + [k] + b;
    assert forall x :: x in a ==> x in s;
    assert forall x :: x in b ==> x in s;
    assert s[|a|] == k;
    assert Nodes(lookup, s) == Nodes(lookup, a) + [lookup[k]] + Nodes(lookup, b);
  }

  lemma {:induction false} DistinctBefore<T>(p: seq<T>, x: T, q: seq<T>)
    requires Distinct(p + [x] + q)
    ensures x !in p && x !in q
  {
    var s := p + [x] + q;
    assert s[|p|] == x;
    assert forall i :: 0 <= i < |p| ==> s[i] == p[i];
    assert forall i :: 0 <= i < |q| ==> s[|p| + 1 + i] == q[i];
  }

  lemma {:induction false} LayoutDetach(head: seq<Node>, lookup: map<Key, Node>, a: seq<Key>, k: Key, b: seq<Key>,
                                        tail: seq<Node>)
    requires forall x :: x in a + [k] + b ==> x in lookup
    requires Distinct(Layout(head, lookup, a + [k] + b, tail))
    ensures forall x :: x in a + b ==> x in lookup
    ensures k in lookup
    ensures Detach(Layout(head, lookup, a + [k] + b, tail), lookup[k]) == Layout(head, lookup, a + b, tail)
    ensures Distinct(Layout(head, lookup, a + b, tail))
  {
    LayoutSplit(head, lookup, a, k, b, tail);
    var p, q := head + Nodes(lookup, a), Nodes(lookup, b) + tail;
    DistinctBefore(p, lookup[k], q);
    DetachAt(p, lookup[k], q);
    assert Nodes(lookup, a + b) == Nodes(lookup, a) + Nodes(lookup, b);
    assert Layout(head, lookup, a + b, tail) == p + q;
    DistinctWithout(p, lookup[k], q);
  }

  lemma {:induction false} DistinctWithout<T>(p: seq<T>, x: T, q: seq<T>)
    requires Distinct(p + [x] + q)
    ensures Distinct(p + q)
  {
    var s, r := p + [x] + q, p + q;
    assert forall i :: 0 <= i < |r| ==> r[i] == s[if i < |p| then i else i + 1];
  }

  lemma {:induction false} LayoutInsert(head: seq<Node>, lookup: map<Key, Node>, a: seq<Key>, b: seq<Key>,
                                        tail: seq<Node>, k: Key, n: Node)
    requires forall x :: x in a + b ==> x in lookup && x != k
    ensures forall x :: x in a + [k] + b ==> x in lookup[k := n]
    ensures forall x :: x in a ==> x in a + b
    ensures forall x :: x in b ==> x in a + b
    ensures Layout(head, lookup[k := n], a + [k] + b, tail)
         == (head + Nodes(lookup, a)) + [n] + (Nodes(lookup, b) + tail)
  {
    assert forall x :: x in a ==> x in a + b;
    assert forall x :: x in b ==> x in a + b;
    assert Nodes(lookup[k := n], a) == Nodes(lookup, a);
    assert Nodes(lookup[k := n], b) == Nodes(lookup, b);
    LayoutSplit(head, lookup[k := n], a, k, b, tail);
  }

  lemma {:induction false} LayoutInsertFirst(head: seq<Node>, template: Node, lookup: map<Key, Node>, region: seq<Key>,
                                             tail: seq<Node>, k: Key, n: Node)
    requires forall x :: x in region ==> x in lookup && x != k
    requires Distinct(Layout(head + [template], lookup, region, tail))
    ensures forall x :: x in [k] + region ==> x in lookup[k := n]
    ensures InsertAfter(Layout(head + [template], lookup, region, tail), template, n)
         == Layout(head + [template], lookup[k := n], [k] + region, tail)
  {
    var h, q := head + [template], Nodes(lookup, region) + tail;
    assert [] + region == region && [] + [k] + region == [k] + region;
    LayoutInsert(h, lookup, [], region, tail, k, n);
    assert Layout(h, lookup, region, tail) == head + [template] + q;
    DistinctBefore(head, template, q);
    InsertAfterAt(head, template, q, n);
    assert (h + Nodes(lookup, [])) + [n] + q == head + [template, n] + q;
  }

  lemma {:induction false} LayoutInsertBehind(h: seq<Node>, lookup: map<Key, Node>, a: seq<Key>, anchor: Key,
                                              b: seq<Key>, tail: seq<Node>, k: Key, n: Node)
    requires forall x :: x in a + [anchor] + b ==> x in lookup && x != k
    requires Distinct(Layout(h, lookup, a + [anchor] + b, tail))
    ensures forall x :: x in a + [anchor] + [k] + b ==> x in lookup[k := n]
    ensures anchor in lookup
    ensures InsertAfter(Layout(h, lookup, a + [anchor] + b, tail), lookup[anchor], n)
         == Layout(h, lookup[k := n], a + [anchor] + [k] + b, tail)
  {
    LayoutInsert(h, lookup, a + [anchor], b, tail, k, n);
    LayoutSplit(h, lookup, a, anchor, b, tail);
    var p, x, q := h + Nodes(lookup, a), lookup[anchor], Nodes(lookup, b) + tail;
    DistinctBefore(p, x, q);
    InsertAfterAt(p, x, q, n);
    assert Nodes(lookup, a + [anchor]) == Nodes(lookup, a) + [x];
    assert (h + Nodes(lookup, a + [anchor])) + [n] + q == p + [x, n] + q;
  }

  /** Inserting a new element behind the node of its anchor inserts its key behind the anchor. */
  lemma {:induction false} LayoutInsertKey(head: seq<Node>, template: Node, lookup: map<Key, Node>, region: seq<Key>,
                                           tail: seq<Node>, anchor: Key, target: Node, k: Key, n: Node)
    requires forall x :: x in region ==> x in lookup && x != k
    requires if anchor == TEMPLATE then target == template else anchor in region && target == lookup[anchor]
    requires Distinct(Layout(head + [template], lookup, region, tail))
    ensures forall x :: x in InsertKey(region, anchor, k) ==> x in lookup[k := n]
    ensures InsertAfter(Layout(head + [template], lookup, region, tail), target, n)
         == Layout(head + [template], lookup[k := n], InsertKey(region, anchor, k), tail)
  {
    if anchor == TEMPLATE {
      LayoutInsertFirst(head, template, lookup, region, tail, k, n);
    } else {
      var a, b := SplitAt(region, anchor);
      InsertAfterAt(a, anchor, b, k);
      assert InsertKey(region, anchor, k) == a + [anchor] + [k] + b;
      LayoutInsertBehind(head + [template], lookup, a, anchor, b, tail, k, n);
    }
  }

  lemma {:induction false} SwapMiddle<T>(h: seq<T>, m: seq<T>, t: seq<T>, v: T, w: T)
    requires v !in h && w !in h && v !in t && w !in t
    ensures Swap(h + m + t, v, w) == h + Swap(m, v, w) + t
  {
  }

  lemma {:induction false} SwapNodes(lookup: map<Key, Node>, region: seq<Key>, v: Key, w: Key)
    requires forall x :: x in region ==> x in lookup
    requires Distinct(Nodes(lookup, region)) && v in region && w in region
    ensures forall x :: x in Swap(region, v, w) ==> x in lookup
    ensures Swap(Nodes(lookup, region), lookup[v], lookup[w]) == Nodes(lookup, Swap(region, v, w))
    ensures v != w ==> lookup[v] != lookup[w]
  {
    var s := Nodes(lookup, region);
    var i :| 0 <= i < |region| && region[i] == v;
    var j :| 0 <= j < |region| && region[j] == w;
    assert s[i] == lookup[v] && s[j] == lookup[w];
    assert forall k :: 0 <= k < |region| && s[k] == s[i] ==> k == i;
    assert forall k :: 0 <= k < |region| && s[k] == s[j] ==> k == j;
  }

  /** Exchanging the elements of two rendered keys exchanges the keys. */
  lemma {:induction false} LayoutSwap(head: seq<Node>, lookup: map<Key, Node>, region: seq<Key>, tail: seq<Node>,
                                      v: Key, w: Key)
    requires forall x :: x in region ==> x in lookup
    requires Distinct(Layout(head, lookup, region, tail)) && v in region && w in region
    ensures forall x :: x in Swap(region, v, w) ==> x in lookup
    ensures Swap(Layout(head, lookup, region, tail), lookup[v], lookup[w])
         == Layout(head, lookup, Swap(region, v, w), tail)
    ensures lookup[v] in Layout(head, lookup, region, tail) && lookup[w] in Layout(head, lookup, region, tail)
    ensures v != w ==> lookup[v] != lookup[w]
  {
    var m := Nodes(lookup, region);
    DistinctParts(head + m, tail);
    DistinctParts(head, m);
    SwapNodes(lookup, region, v, w);
    var i :| 0 <= i < |region| && region[i] == v;
    var j :| 0 <= j < |region| && region[j] == w;
    assert m[i] in m && m[j] in m && m[i] in head + m && m[j] in head + m;
    SwapMiddle(head, m, tail, lookup[v], lookup[w]);
  }

  lemma {:induction false} LayoutExchange(head: seq<Node>, lookup: map<Key, Node>, region: seq<Key>, tail: seq<Node>,
                                          m: Move, d: Node)
    requires forall x :: x in region ==> x in lookup
    requires m.from in region && m.to in region && m.from != m.to
    requires Distinct(region) && Distinct(Layout(head, lookup, region, tail))
    requires d !in Layout(head, lookup, region, tail)
    ensures Distinct(Swap(region, m.from, m.to))
    ensures forall x :: x in Swap(region, m.from, m.to) <==> x in region
    ensures SwapThroughPlaceholder(Layout(head, lookup, region, tail), lookup[m.from], lookup[m.to], d)
         == Layout(head, lookup, Swap(region, m.from, m.to), tail)
    ensures Distinct(Layout(head, lookup, Swap(region, m.from, m.to), tail))
    ensures forall n :: n in Layout(head, lookup, Swap(region, m.from, m.to), tail) ==>
                        n in Layout(head, lookup, region, tail)
  {
    var s := Layout(head, lookup, region, tail);
    LayoutSwap(head, lookup, region, tail, m.from, m.to);
    SwapThroughPlaceholderSwaps(s, lookup[m.from], lookup[m.to], d);
    SwapElems(s, lookup[m.from], lookup[m.to]);
    SwapDistinct(s, lookup[m.from], lookup[m.to]);
    SwapElems(region, m.from, m.to);
    SwapDistinct(region, m.from, m.to);
  }

  lemma {:induction false} DistinctInsert<T>(s: seq<T>, a: T, x: T)
    requires Distinct(s) && x !in s
    ensures Distinct(InsertAfter(s, a, x))
    ensures forall y :: y in InsertAfter(s, a, x) ==> y == x || y in s
  {
    if |s| > 0 {
      var r := InsertAfter(s[1..], a, x);
      DistinctInsert(s[1..], a, x);
      assert s[0] !in s[1..];
      assert s[0] !in r;
    }
  }

  lemma {:induction false} DistinctInsertKey(s: seq<Key>, a: Key, x: Key)
    requires Distinct(s) && x !in s
    ensures Distinct(InsertKey(s, a, x))
  {
    DistinctInsert(s, a, x);
  }

  // ---------------------------------------------------------------------------------------------
  // The page: rendered elements, the lookup from keys to elements, and the scopes the elements show
  // ---------------------------------------------------------------------------------------------

  datatype Page<Scope> = Page(children: seq<Node>, lookup: map<Key, Node>, scopes: map<Node, Scope>, nextNode: nat)

  /** The elements of `region`, in that order, are the children between `head` and `tail`. */
  ghost predicate Laid<Scope>(p: Page<Scope>, head: seq<Node>, region: seq<Key>, tail: seq<Node>) {
    && Distinct(region) && (forall k :: k in region <==> k in p.lookup)
    && p.children == Layout(head, p.lookup, region, tail)
    && Distinct(p.children) && (forall n :: n in p.children ==> n.id < p.nextNode)
  }

  function Discard<Scope>(p: Page<Scope>, key: Key): Page<Scope> {
    if key in p.lookup then
      p.(children := Detach(p.children, p.lookup[key]), lookup := p.lookup - {key})
    else p
  }

  /** Exchanges two elements through a placeholder node that is gone afterwards. */
  function ExchangeElements<Scope>(p: Page<Scope>, m: Move): Page<Scope> {
    if m.from in p.lookup && m.to in p.lookup then
      p.(children := SwapThroughPlaceholder(p.children, p.lookup[m.from], p.lookup[m.to], Node(p.nextNode)),
         nextNode := p.nextNode + 1)
    else p
  }

  function Refresh<Scope>(p: Page<Scope>, key: Key, scope: Scope): Page<Scope> {
    if key in p.lookup then p.(scopes := p.scopes[p.lookup[key] := scope]) else p
  }

  /** Renders a new element for `key` behind the element that `anchor` names. */
  function Render<Scope>(p: Page<Scope>, template: Node, anchor: Key, key: Key, scope: Scope): Page<Scope> {
    if anchor == TEMPLATE || anchor in p.lookup then
      var node := Node(p.nextNode);
      var target := if anchor == TEMPLATE then template else p.lookup[anchor];
      Page(InsertAfter(p.children, target, node), p.lookup[key := node], p.scopes[node := scope], p.nextNode + 1)
    else p
  }

  lemma {:induction false} DiscardLaid<Scope>(p: Page<Scope>, head: seq<Node>, region: seq<Key>, tail: seq<Node>,
                                              key: Key)
    requires Laid(p, head, region, tail) && key in region
    ensures Laid(Discard(p, key), head, Detach(region, key), tail)
  {
    var a, b := SplitAt(region, key);
    LayoutDetach(head, p.lookup, a, key, b, tail);
    DistinctBefore(a, key, b);
    DetachAt(a, key, b);
    DistinctWithout(a, key, b);
    DetachKeeps(p.children, p.lookup[key]);
    assert Nodes(p.lookup - {key}, a + b) == Nodes(p.lookup, a + b);
  }

  lemma {:induction false} ExchangeLaid<Scope>(p: Page<Scope>, head: seq<Node>, region: seq<Key>, tail: seq<Node>,
                                               m: Move)
    requires Laid(p, head, region, tail) && m.from in region && m.to in region && m.from != m.to
    ensures Laid(ExchangeElements(p, m), head, Swap(region, m.from, m.to), tail)
  {
    LayoutExchange(head, p.lookup, region, tail, m, Node(p.nextNode));
  }

  lemma {:induction false} RenderLaid<Scope>(p: Page<Scope>, head: seq<Node>, template: Node, region: seq<Key>,
                                             tail: seq<Node>, anchor: Key, key: Key, scope: Scope)
    requires Laid(p, head + [template], region, tail) && key !in region && (anchor == TEMPLATE || anchor in region)
    ensures Laid(Render(p, template, anchor, key, scope), head + [template], InsertKey(region, anchor, key), tail)
  {
    var node := Node(p.nextNode);
    var target := if anchor == TEMPLATE then template else p.lookup[anchor];
    LayoutInsertKey(head, template, p.lookup, region, tail, anchor, target, key, node);
    DistinctInsert(p.children, target, node);
    DistinctInsertKey(region, anchor, key);
    InsertKeyElems(region, anchor, key);
  }

  // The three worklists carried out in order.

  function DiscardAll<Scope>(p: Page<Scope>, removed: seq<Key>): Page<Scope>
    decreases |removed|
  {
    if |removed| == 0 then p else DiscardAll(Discard(p, removed[0]), removed[1..])
  }

  function MoveAll<Scope>(p: Page<Scope>, moves: seq<Move>, keys: seq<Key>, data: seq<Scope>): Page<Scope>
    requires |data| == |keys|
    decreases |moves|
  {
    if |moves| == 0 then p else MoveAll(MoveOne(p, moves[0], keys, data), moves[1..], keys, data)
  }

  function MoveOne<Scope>(p: Page<Scope>, m: Move, keys: seq<Key>, data: seq<Scope>): Page<Scope>
    requires |data| == |keys|
  {
    RefreshAt(ExchangeElements(p, m), m.to, keys, data)
  }

  function RenderAll<Scope>(p: Page<Scope>, template: Node, adds: seq<Add>, keys: seq<Key>,
                            data: seq<Scope>): Page<Scope>
    requires |data| == |keys| && forall a :: a in adds ==> a.index < |keys|
    decreases |adds|
  {
    if |adds| == 0 then p
    else RenderAll(Render(p, template, adds[0].anchor, keys[adds[0].index], data[adds[0].index]),
                   template, adds[1..], keys, data)
  }

  function RefreshAll<Scope>(p: Page<Scope>, sames: seq<Key>, keys: seq<Key>, data: seq<Scope>): Page<Scope>
    requires |data| == |keys|
    decreases |sames|
  {
    if |sames| == 0 then p else RefreshAll(RefreshAt(p, sames[0], keys, data), sames[1..], keys, data)
  }

  /** Shows the scope of the index at which `key` stands in the new list. */
  function RefreshAt<Scope>(p: Page<Scope>, key: Key, keys: seq<Key>, data: seq<Scope>): Page<Scope>
    requires |data| == |keys|
  {
    if key in keys then Refresh(p, key, data[IndexOf(keys, key)]) else p
  }

  function DetachAll<T(==)>(s: seq<T>, xs: seq<T>): seq<T>
    decreases |xs|
  {
    if |xs| == 0 then s else DetachAll(Detach(s, xs[0]), xs[1..])
  }

  lemma {:induction false} KeepDetach<T>(s: seq<T>, x: T, keep: set<T>)
    requires x !in keep
    ensures Keep(Detach(s, x), keep) == Keep(s, keep)
  {
    if |s| > 0 && s[0] != x {
      KeepDetach(s[1..], x, keep);
      Behind([s[0]], Detach(s[1..], x));
    }
  }

  /** Detaching the stale elements one by one, in any order, leaves the others in order. */
  lemma {:induction false} DetachAllKeeps<T>(s: seq<T>, stale: seq<T>, keep: set<T>)
    requires Distinct(s) && Distinct(stale) && (forall x :: x in stale ==> x in s)
    requires forall x :: x in s ==> (x in stale <==> x !in keep)
    ensures DetachAll(s, stale) == Keep(s, keep)
    decreases |stale|
  {
    if |stale| == 0 {
      KeepEverything(s, keep);
    } else {
      DetachMembers(s, stale[0]);
      DetachDistinct(s, stale[0]);
      DetachAllKeeps(Detach(s, stale[0]), stale[1..], keep);
      KeepDetach(s, stale[0], keep);
    }
  }

  lemma {:induction false} DetachDistinct<T>(s: seq<T>, k: T)
    requires Distinct(s) && k in s
    ensures Distinct(Detach(s, k)) && forall y :: y in Detach(s, k) ==> y in s && y != k
  {
    var a, b := SplitAt(s, k);
    DetachAt(a, k, b);
    DistinctWithout(a, k, b);
    DistinctBefore(a, k, b);
    assert forall y :: y in a + b ==> y in a || y in b;
  }

  lemma {:induction false} DetachMembers<T>(s: seq<T>, k: T)
    requires Distinct(s) && k in s
    ensures forall y :: y in s && y != k ==> y in Detach(s, k)
  {
    var a, b := SplitAt(s, k);
    DetachAt(a, k, b);
  }

  lemma {:induction false} DiscardAllLaid<Scope>(p: Page<Scope>, head: seq<Node>, region: seq<Key>, tail: seq<Node>,
                                                 removed: seq<Key>)
    requires Laid(p, head, region, tail) && Distinct(removed) && forall k :: k in removed ==> k in region
    ensures Laid(DiscardAll(p, removed), head, DetachAll(region, removed), tail)
    ensures forall k :: k in DiscardAll(p, removed).lookup ==>
              k in p.lookup && DiscardAll(p, removed).lookup[k] == p.lookup[k]
    decreases |removed|
  {
    if |removed| > 0 {
      DiscardLaid(p, head, region, tail, removed[0]);
      DetachMembers(region, removed[0]);
      DiscardAllLaid(Discard(p, removed[0]), head, Detach(region, removed[0]), tail, removed[1..]);
    }
  }

  lemma {:induction false} LaidInjective<Scope>(p: Page<Scope>, head: seq<Node>, region: seq<Key>, tail: seq<Node>,
                                                k1: Key, k2: Key)
    requires Laid(p, head, region, tail) && k1 in region && k2 in region && k1 != k2
    ensures p.lookup[k1] != p.lookup[k2]
  {
    LayoutSwap(head, p.lookup, region, tail, k1, k2);
  }

  /** The element of `key` shows the scope of its index in the new list. */
  ghost predicate Shows<Scope>(p: Page<Scope>, key: Key, keys: seq<Key>, data: seq<Scope>)
    requires |data| == |keys|
  {
    && key in keys && key in p.lookup
    && p.lookup[key] in p.scopes && p.scopes[p.lookup[key]] == data[IndexOf(keys, key)]
  }

  lemma {:induction false} RefreshShows<Scope>(p: Page<Scope>, head: seq<Node>, region: seq<Key>, tail: seq<Node>,
                            k: Key, keys: seq<Key>, data: seq<Scope>, other: Key)
    requires Laid(p, head, region, tail) && k in region && k in keys && |data| == |keys|
    ensures Laid(RefreshAt(p, k, keys, data), head, region, tail)
    ensures Shows(RefreshAt(p, k, keys, data), k, keys, data)
    ensures Shows(p, other, keys, data) ==> Shows(RefreshAt(p, k, keys, data), other, keys, data)
  {
    if other != k && other in region {
      LaidInjective(p, head, region, tail, other, k);
    }
  }

  lemma {:induction false} MoveOneLaid<Scope>(p: Page<Scope>, head: seq<Node>, region: seq<Key>, tail: seq<Node>,
                           m: Move, keys: seq<Key>, data: seq<Scope>, other: Key)
    requires Laid(p, head, region, tail) && |data| == |keys|
    requires m.from in region && m.to in region && m.from != m.to && m.to in keys
    ensures Laid(MoveOne(p, m, keys, data), head, Swap(region, m.from, m.to), tail)
    ensures forall x :: x in Swap(region, m.from, m.to) <==> x in region
    ensures MoveOne(p, m, keys, data).lookup == p.lookup && MoveOne(p, m, keys, data).nextNode >= p.nextNode
    ensures Shows(MoveOne(p, m, keys, data), m.to, keys, data)
    ensures Shows(p, other, keys, data) ==> Shows(MoveOne(p, m, keys, data), other, keys, data)
  {
    ExchangeLaid(p, head, region, tail, m);
    SwapElems(region, m.from, m.to);
    RefreshShows(ExchangeElements(p, m), head, Swap(region, m.from, m.to), tail, m.to, keys, data, other);
  }

  lemma {:induction false} MoveAllLaid<Scope>(p: Page<Scope>, head: seq<Node>, region: seq<Key>, tail: seq<Node>,
                                              moves: seq<Move>, keys: seq<Key>, data: seq<Scope>, k: Key)
    requires Laid(p, head, region, tail) && MovesWithin(moves, region) && |data| == |keys|
    requires forall x :: x in region ==> x in keys
    ensures Laid(MoveAll(p, moves, keys, data), head, ApplyMoves(region, moves), tail)
    ensures MoveAll(p, moves, keys, data).lookup == p.lookup
    ensures MoveAll(p, moves, keys, data).nextNode >= p.nextNode
    ensures Shows(p, k, keys, data) || (exists m :: m in moves && m.to == k) ==>
              Shows(MoveAll(p, moves, keys, data), k, keys, data)
    decreases |moves|
  {
    if |moves| > 0 {
      var m := moves[0];
      assert m in moves;
      MoveOneLaid(p, head, region, tail, m, keys, data, k);
      MoveAllLaid(MoveOne(p, m, keys, data), head, Swap(region, m.from, m.to), tail, moves[1..], keys, data, k);
    }
  }

  lemma {:induction false} RefreshAllLaid<Scope>(p: Page<Scope>, head: seq<Node>, region: seq<Key>, tail: seq<Node>,
                                                 sames: seq<Key>, keys: seq<Key>, data: seq<Scope>, k: Key)
    requires Laid(p, head, region, tail) && |data| == |keys|
    requires forall x :: x in sames ==> x in region && x in keys
    ensures Laid(RefreshAll(p, sames, keys, data), head, region, tail)
    ensures RefreshAll(p, sames, keys, data).lookup == p.lookup
    ensures Shows(p, k, keys, data) || k in sames ==> Shows(RefreshAll(p, sames, keys, data), k, keys, data)
    decreases |sames|
  {
    if |sames| > 0 {
      RefreshShows(p, head, region, tail, sames[0], keys, data, k);
      RefreshAllLaid(RefreshAt(p, sames[0], keys, data), head, region, tail, sames[1..], keys, data, k);
    }
  }

  lemma {:induction false} RenderShows<Scope>(p: Page<Scope>, head: seq<Node>, template: Node, region: seq<Key>,
                                              tail: seq<Node>, anchor: Key, keys: seq<Key>, f: nat, data: seq<Scope>,
                                              other: Key)
    requires Laid(p, head + [template], region, tail) && Distinct(keys) && f < |keys| == |data|
    requires keys[f] !in region && (anchor == TEMPLATE || anchor in region)
    ensures Shows(Render(p, template, anchor, keys[f], data[f]), keys[f], keys, data)
    ensures Shows(p, other, keys, data) ==> Shows(Render(p, template, anchor, keys[f], data[f]), other, keys, data)
  {
    assert IndexOf(keys, keys[f]) == f;
    if other in region {
      LayoutSwap(head + [template], p.lookup, region, tail, other, other);
    }
  }

  /** Elements rendered before stay, and the others are new. */
  ghost predicate Extends<Scope>(p: Page<Scope>, q: Page<Scope>) {
    && p.nextNode <= q.nextNode
    && (forall k :: k in p.lookup ==> k in q.lookup && q.lookup[k] == p.lookup[k])
    && (forall k :: k in q.lookup && k !in p.lookup ==> q.lookup[k].id >= p.nextNode)
  }

  lemma {:induction false} ExtendsTransitive<Scope>(p: Page<Scope>, q: Page<Scope>, r: Page<Scope>)
    requires Extends(p, q) && Extends(q, r)
    ensures Extends(p, r)
  {
  }

  /** The rendered keys are those before index `from` and the survivors. */
  ghost predicate Covers(region: seq<Key>, keys: seq<Key>, from: nat, rendered: set<Key>)
    requires from <= |keys|
  {
    forall x :: x in region <==> x in keys[..from] || (x in keys && x in rendered)
  }

  lemma {:induction false} CoversSkip(region: seq<Key>, keys: seq<Key>, from: nat, rendered: set<Key>)
    requires from < |keys| && keys[from] in rendered && Covers(region, keys, from, rendered)
    ensures Covers(region, keys, from + 1, rendered)
  {
    OneMore(keys, from);
  }

  lemma {:induction false} CoversInsert(region: seq<Key>, keys: seq<Key>, f: nat, rendered: set<Key>)
    requires Distinct(keys) && f < |keys| && keys[f] !in rendered && Covers(region, keys, f, rendered)
    ensures keys[f] !in region && (Anchor(keys, f) == TEMPLATE || Anchor(keys, f) in region)
    ensures Covers(InsertKey(region, Anchor(keys, f), keys[f]), keys, f + 1, rendered)
  {
    OneMore(keys, f);
    assert keys[f] !in keys[..f];
    assert f > 0 ==> Anchor(keys, f) in keys[..f];
    InsertKeyElems(region, Anchor(keys, f), keys[f]);
  }

  lemma {:induction false} RenderOne<Scope>(p: Page<Scope>, head: seq<Node>, template: Node, region: seq<Key>,
                                            tail: seq<Node>, keys: seq<Key>, data: seq<Scope>, rendered: set<Key>,
                                            f: nat, other: Key) returns (q: Page<Scope>)
    requires Laid(p, head + [template], region, tail) && Distinct(keys) && f < |keys| == |data| && keys[f] !in rendered
    requires Covers(region, keys, f, rendered)
    ensures q == Render(p, template, Anchor(keys, f), keys[f], data[f])
    ensures Laid(q, head + [template], InsertKey(region, Anchor(keys, f), keys[f]), tail) && Extends(p, q)
    ensures Covers(InsertKey(region, Anchor(keys, f), keys[f]), keys, f + 1, rendered)
    ensures Shows(q, keys[f], keys, data)
    ensures Shows(p, other, keys, data) ==> Shows(q, other, keys, data)
  {
    var anchor := Anchor(keys, f);
    q := Render(p, template, anchor, keys[f], data[f]);
    CoversInsert(region, keys, f, rendered);
    RenderLaid(p, head, template, region, tail, anchor, keys[f], data[f]);
    RenderShows(p, head, template, region, tail, anchor, keys, f, data, other);
  }

  lemma {:induction false} RenderAllLaid<Scope>(
    p: Page<Scope>, head: seq<Node>, template: Node, region: seq<Key>, tail: seq<Node>,
    keys: seq<Key>, data: seq<Scope>, rendered: set<Key>, from: nat, k: Key) returns (q: Page<Scope>)
    requires Laid(p, head + [template], region, tail) && Distinct(keys) && from <= |keys| == |data|
    requires Covers(region, keys, from, rendered)
    ensures forall a :: a in AddsFrom(keys, rendered, from) ==> a.index < |keys|
    ensures q == RenderAll(p, template, AddsFrom(keys, rendered, from), keys, data)
    ensures Laid(q, head + [template], ApplyAdds(region, AddsFrom(keys, rendered, from), keys), tail)
    ensures (forall x :: x in keys <==> x in q.lookup) && Extends(p, q)
    ensures Shows(p, k, keys, data) || (k in keys[from..] && k !in rendered) ==> Shows(q, k, keys, data)
    decreases |keys| - from
  {
    AddsInRange(keys, rendered, from);
    if from == |keys| {
      assert keys[..from] == keys;
      q := p;
    } else {
      assert k in keys[from..] <==> k == keys[from] || k in keys[from + 1..];
      if keys[from] in rendered {
        CoversSkip(region, keys, from, rendered);
        q := RenderAllLaid(p, head, template, region, tail, keys, data, rendered, from + 1, k);
      } else {
        var p' := RenderOne(p, head, template, region, tail, keys, data, rendered, from, k);
        q := RenderAllLaid(p', head, template, InsertKey(region, Anchor(keys, from), keys[from]), tail,
                           keys, data, rendered, from + 1, k);
        ExtendsTransitive(p, p', q);
      }
    }
  }

  lemma {:induction false} StaleGoes(shown: seq<Key>, prev: seq<Key>, keys: seq<Key>)
    requires Distinct(prev) && OrderOf(shown, prev)
    ensures var removed := Keep(prev, Elems(prev) - Elems(keys));
            && Distinct(removed) && (forall k :: k in removed ==> k in shown)
            && DetachAll(shown, removed) == Keep(shown, Elems(keys))
  {
    KeepDistinct(prev, Elems(prev) - Elems(keys));
    DetachAllKeeps(shown, Keep(prev, Elems(prev) - Elems(keys)), Elems(keys));
  }

  lemma {:induction false} SurvivorsLaid<Scope>(
    p: Page<Scope>, head: seq<Node>, shown: seq<Key>, prev: seq<Key>, tail: seq<Node>, keys: seq<Key>,
    data: seq<Scope>, removed: seq<Key>, moves: seq<Move>, k: Key) returns (q: Page<Scope>)
    requires Laid(p, head, shown, tail) && Distinct(prev) && OrderOf(shown, prev) && |data| == |keys|
    requires removed == Keep(prev, Elems(prev) - Elems(keys)) && MovesWithin(moves, Keep(prev, Elems(keys)))
    ensures q == MoveAll(DiscardAll(p, removed), moves, keys, data)
    ensures Laid(q, head, ApplyMoves(Keep(shown, Elems(keys)), moves), tail) && q.nextNode >= p.nextNode
    ensures forall x :: x in q.lookup <==> x in p.lookup && x in keys
    ensures forall x :: x in q.lookup ==> q.lookup[x] == p.lookup[x]
    ensures (exists m :: m in moves && m.to == k) ==> Shows(q, k, keys, data)
  {
    StaleGoes(shown, prev, keys);
    DiscardAllLaid(p, head, shown, tail, removed);
    var p1 := DiscardAll(p, removed);
    DiscardAllNext(p, removed);
    assert forall x :: x in Keep(prev, Elems(keys)) ==> x in Keep(shown, Elems(keys));
    MoveAllLaid(p1, head, Keep(shown, Elems(keys)), tail, moves, keys, data, k);
    q := MoveAll(p1, moves, keys, data);
  }

  lemma {:induction false} DiscardAllNext<Scope>(p: Page<Scope>, removed: seq<Key>)
    ensures DiscardAll(p, removed).nextNode == p.nextNode
    decreases |removed|
  {
    if |removed| > 0 {
      DiscardAllNext(Discard(p, removed[0]), removed[1..]);
    }
  }

  lemma {:induction false} RefreshedLaid<Scope>(p: Page<Scope>, q: Page<Scope>, head: seq<Node>, region: seq<Key>,
                                                tail: seq<Node>, keys: seq<Key>, data: seq<Scope>, sames: seq<Key>,
                                                k: Key)
    requires Laid(q, head, region, tail) && |data| == |keys| && Extends(p, q)
    requires (forall x :: x in keys <==> x in q.lookup) && (forall x :: x in sames ==> x in keys)
    ensures Laid(RefreshAll(q, sames, keys, data), head, region, tail)
    ensures RefreshAll(q, sames, keys, data).lookup == q.lookup
    ensures Shows(q, k, keys, data) || k in sames ==> Shows(RefreshAll(q, sames, keys, data), k, keys, data)
  {
    RefreshAllLaid(q, head, region, tail, sames, keys, data, k);
  }

  /** The key order on the page after a run with these swaps, from the order `shown`. */
  function OrderAfter(shown: seq<Key>, prev: seq<Key>, keys: seq<Key>, moves: seq<Move>): seq<Key> {
    AddsInRange(keys, Elems(prev), 0);
    ApplyAdds(ApplyMoves(Keep(shown, Elems(keys)), moves), AddsFrom(keys, Elems(prev), 0), keys)
  }

  /** The run up to the insertions: new keys present, survivors reused, insertions and moves showing their scope. */
  lemma {:induction false} InsertedLaid<Scope>(
    p: Page<Scope>, head: seq<Node>, template: Node, shown: seq<Key>, prev: seq<Key>, tail: seq<Node>,
    keys: seq<Key>, data: seq<Scope>, removed: seq<Key>, moves: seq<Move>, k: Key)
    returns (p1: Page<Scope>, q: Page<Scope>)
    requires Laid(p, head + [template], shown, tail) && Distinct(prev) && OrderOf(shown, prev)
    requires Distinct(keys) && |data| == |keys|
    requires removed == Keep(prev, Elems(prev) - Elems(keys)) && MovesWithin(moves, Keep(prev, Elems(keys)))
    ensures p1 == MoveAll(DiscardAll(p, removed), moves, keys, data)
    ensures forall a :: a in AddsFrom(keys, Elems(prev), 0) ==> a.index < |keys|
    ensures q == RenderAll(p1, template, AddsFrom(keys, Elems(prev), 0), keys, data)
    ensures Laid(q, head + [template], OrderAfter(shown, prev, keys, moves), tail)
    ensures forall x :: x in keys <==> x in q.lookup
    ensures Extends(p1, q) && p1.nextNode >= p.nextNode
    ensures forall x :: x in p1.lookup <==> x in keys && x in prev
    ensures forall x :: x in p1.lookup ==> x in p.lookup && p1.lookup[x] == p.lookup[x]
    ensures k in keys && (k !in prev || exists m :: m in moves && m.to == k) ==> Shows(q, k, keys, data)
  {
    var survivors := ApplyMoves(Keep(shown, Elems(keys)), moves);
    p1 := SurvivorsLaid(p, head + [template], shown, prev, tail, keys, data, removed, moves, k);
    assert Covers(survivors, keys, 0, Elems(prev));
    q := RenderAllLaid(p1, head, template, survivors, tail, keys, data, Elems(prev), 0, k);
    assert keys[0..] == keys;
  }

  function CarryOut<Scope>(p: Page<Scope>, template: Node, keys: seq<Key>, data: seq<Scope>,
                           removed: seq<Key>, moves: seq<Move>, adds: seq<Add>, sames: seq<Key>): Page<Scope>
    requires |data| == |keys| && forall a :: a in adds ==> a.index < |keys|
  {
    var moved := MoveAll(DiscardAll(p, removed), moves, keys, data);
    RefreshAll(RenderAll(moved, template, adds, keys, data), sames, keys, data)
  }

  /** The elements after a run, told by key `k`: reused or new, and showing the right scope. */
  ghost predicate Served<Scope>(p: Page<Scope>, q: Page<Scope>, prev: seq<Key>, keys: seq<Key>, data: seq<Scope>,
                                k: Key)
    requires |data| == |keys|
  {
    && Shows(q, k, keys, data)
    && (k in p.lookup ==> q.lookup[k] == p.lookup[k])
    && (k !in p.lookup ==> q.lookup[k].id >= p.nextNode)
  }

  lemma {:induction false} RefreshedCovers(prev: seq<Key>, keys: seq<Key>, moves: seq<Move>, sames: seq<Key>, k: Key)
    requires Refreshed(moves, sames) == Elems(keys) * Elems(prev)
    ensures forall x :: x in sames ==> x in keys
    ensures k in keys && k in prev ==> k in sames || exists m :: m in moves && m.to == k
  {
    assert forall x :: x in sames ==> x in Refreshed(moves, sames);
    assert k in keys && k in prev ==> k in Refreshed(moves, sames);
  }

  /**
   * Carrying out a plan leaves exactly the new keys on the page, reuses the element of every surviving key,
   * makes new elements for the others, shows every element the scope of its index, and puts the elements in
   * the order `OrderAfter`.
   */
  lemma {:induction false} CarryOutLaid<Scope>(
    p: Page<Scope>, head: seq<Node>, template: Node, shown: seq<Key>, prev: seq<Key>, tail: seq<Node>,
    keys: seq<Key>, data: seq<Scope>,
    removed: seq<Key>, moves: seq<Move>, adds: seq<Add>, sames: seq<Key>, k: Key)
    requires Laid(p, head + [template], shown, tail) && Distinct(prev) && OrderOf(shown, prev)
    requires Distinct(keys) && |data| == |keys| && PlanFor(prev, keys, removed, moves, adds, sames)
    ensures forall a :: a in adds ==> a.index < |keys|
    ensures var q := CarryOut(p, template, keys, data, removed, moves, adds, sames);
            && Laid(q, head + [template], OrderAfter(shown, prev, keys, moves), tail)
            && (forall x :: x in keys <==> x in q.lookup)
            && (k in keys ==> Served(p, q, prev, keys, data, k))
  {
    var p1, q := InsertedLaid(p, head, template, shown, prev, tail, keys, data, removed, moves, k);
    RefreshedCovers(prev, keys, moves, sames, k);
    RefreshedLaid(p1, q, head + [template], OrderAfter(shown, prev, keys, moves), tail, keys, data, sames, k);
  }

  // The four passes over the worklists.

  method DiscardPass<Scope>(p: Page<Scope>, removed: seq<Key>) returns (q: Page<Scope>)
    ensures q == DiscardAll(p, removed)
  {
    q := p;
    for i := 0 to |removed|
      invariant DiscardAll(q, removed[i..]) == DiscardAll(p, removed)
    {
      q := Discard(q, removed[i]);
    }
  }

  method MovePass<Scope>(p: Page<Scope>, moves: seq<Move>, keys: seq<Key>, data: seq<Scope>) returns (q: Page<Scope>)
    requires |data| == |keys|
    ensures q == MoveAll(p, moves, keys, data)
  {
    q := p;
    for i := 0 to |moves|
      invariant MoveAll(q, moves[i..], keys, data) == MoveAll(p, moves, keys, data)
    {
      q := ExchangeElements(q, moves[i]);
      q := RefreshAt(q, moves[i].to, keys, data);
    }
  }

  method RenderPass<Scope>(p: Page<Scope>, template: Node, adds: seq<Add>, keys: seq<Key>, data: seq<Scope>)
    returns (q: Page<Scope>)
    requires |data| == |keys| && forall a :: a in adds ==> a.index < |keys|
    ensures q == RenderAll(p, template, adds, keys, data)
  {
    q := p;
    for i := 0 to |adds|
      invariant RenderAll(q, template, adds[i..], keys, data) == RenderAll(p, template, adds, keys, data)
    {
      q := Render(q, template, adds[i].anchor, keys[adds[i].index], data[adds[i].index]);
    }
  }

  method RefreshPass<Scope>(p: Page<Scope>, sames: seq<Key>, keys: seq<Key>, data: seq<Scope>) returns (q: Page<Scope>)
    requires |data| == |keys|
    ensures q == RefreshAll(p, sames, keys, data)
  {
    q := p;
    for i := 0 to |sames|
      invariant RefreshAll(q, sames[i..], keys, data) == RefreshAll(p, sames, keys, data)
    {
      q := RefreshAt(q, sames[i], keys, data);
    }
  }

  /** What a run does to a page that shows the previous keys in the order `shown`; it shows the new ones in `order`. */
  ghost predicate Reconciled<Scope>(p: Page<Scope>, q: Page<Scope>, head: seq<Node>, shown: seq<Key>, prev: seq<Key>,
                                    tail: seq<Node>, keys: seq<Key>, data: seq<Scope>, order: seq<Key>)
    requires |data| == |keys|
  {
    && Laid(q, head, order, tail) && OrderOf(order, keys) && order == FinalOrder(shown, prev, keys)
    && (forall x :: x in keys <==> x in q.lookup)
    && (forall k :: k in keys ==> Served(p, q, prev, keys, data, k))
    && (order == keys <==>
        Keep(shown, Elems(keys)) == Keep(prev, Elems(keys)) && !HasMisplaced(keys, Elems(prev)))
  }

  lemma {:induction false} OrderAfterIsFinal(shown: seq<Key>, prev: seq<Key>, keys: seq<Key>, moves: seq<Move>)
    requires OrderOf(shown, prev) && ApplyMoves(Keep(prev, Elems(keys)), moves) == Keep(keys, Elems(prev))
    ensures OrderAfter(shown, prev, keys, moves) == FinalOrder(shown, prev, keys)
  {
    MovesRearrange(shown, prev, keys, moves);
  }

  lemma {:induction false} CarryOutReconciles<Scope>(
    p: Page<Scope>, head: seq<Node>, template: Node, shown: seq<Key>, prev: seq<Key>, tail: seq<Node>,
    keys: seq<Key>, data: seq<Scope>, removed: seq<Key>, moves: seq<Move>, adds: seq<Add>, sames: seq<Key>)
    requires Laid(p, head + [template], shown, tail) && Distinct(prev) && OrderOf(shown, prev)
    requires Distinct(keys) && |data| == |keys| && PlanFor(prev, keys, removed, moves, adds, sames)
    ensures forall a :: a in adds ==> a.index < |keys|
    ensures Reconciled(p, CarryOut(p, template, keys, data, removed, moves, adds, sames), head + [template],
                       shown, prev, tail, keys, data, OrderAfter(shown, prev, keys, moves))
  {
    CarryOutLaid(p, head, template, shown, prev, tail, keys, data, removed, moves, adds, sames, TEMPLATE);
    var q := CarryOut(p, template, keys, data, removed, moves, adds, sames);
    forall k | k in keys
      ensures Served(p, q, prev, keys, data, k)
    {
      CarryOutLaid(p, head, template, shown, prev, tail, keys, data, removed, moves, adds, sames, k);
    }
    OrderAfterIsFinal(shown, prev, keys, moves);
    FinalOrderIff(shown, prev, keys);
  }

  method ReconcilePage<Scope>(
    p: Page<Scope>, ghost head: seq<Node>, template: Node, ghost shown: seq<Key>, prev: seq<Key>,
    ghost tail: seq<Node>, keys: seq<Key>, data: seq<Scope>)
    returns (q: Page<Scope>, ghost order: seq<Key>)
    requires Laid(p, head + [template], shown, tail) && Distinct(prev) && OrderOf(shown, prev)
    requires Distinct(keys) && |data| == |keys|
    ensures Reconciled(p, q, head + [template], shown, prev, tail, keys, data, order)
  {
    var removed, moves, adds, sames := Plan(prev, keys);
    CarryOutReconciles(p, head, template, shown, prev, tail, keys, data, removed, moves, adds, sames);
    order := OrderAfter(shown, prev, keys, moves);
    q := DiscardPass(p, removed);
    q := MovePass(q, moves, keys, data);
    q := RenderPass(q, template, adds, keys, data);
    q := RefreshPass(q, sames, keys, data);
  }

  /** One `x-for` template with the elements it has rendered among the children of its parent. */
  class ForDirective<Scope> {
    const template: Node
    var prevKeys: seq<Key>
    var page: Page<Scope>

    // The children before the template and those behind the rendered elements, and the key order that the page shows.
    ghost var before: seq<Node>
    ghost var after: seq<Node>
    ghost var shown: seq<Key>

    /** Exactly the elements of the keys stand right behind the template, in some order. */
    ghost predicate Valid()
      reads this
    {
      Laid(page, before + [template], shown, after) && Distinct(prevKeys) && OrderOf(shown, prevKeys)
    }

    constructor (siblings: seq<Node>, at: nat, next: nat)
      requires Distinct(siblings) && at < |siblings| && (forall n :: n in siblings ==> n.id < next)
      ensures Valid() && shown == prevKeys == [] && page.children == siblings && template == siblings[at]
    {
      template := siblings[at];
      prevKeys, shown, page := [], [], Page(siblings, map[], map[], next);
      before, after := siblings[..at], siblings[at + 1..];
      assert siblings == siblings[..at] + [siblings[at]] + siblings[at + 1..];
    }

    /**
     * Brings the rendered elements in line with a new list of distinct keys and their scopes, whatever order the page
     * shows. The order comes out right exactly when the page shows the surviving keys in their previous order and no
     * new key directly follows the key spelled "template".
     */
    method Reconcile(keys: seq<Key>, data: seq<Scope>)
      requires Valid() && Distinct(keys) && |data| == |keys|
      modifies `prevKeys, `page, `shown
      ensures Valid() && prevKeys == keys
      ensures shown == FinalOrder(old(shown), old(prevKeys), keys)
      ensures shown == prevKeys <==>
              && Keep(old(shown), Elems(keys)) == Keep(old(prevKeys), Elems(keys))
              && !HasMisplaced(keys, Elems(old(prevKeys)))
      ensures Reconciled(old(page), page, before + [template], old(shown), old(prevKeys), after, keys, data, shown)
    {
      page, shown := ReconcilePage(page, before, template, shown, prevKeys, after, keys, data);
      prevKeys := keys;
    }
  }
}
