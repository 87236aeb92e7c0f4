/** Editing a list of child nodes the way the DOM does: a node that is put somewhere leaves its old place. */
module ChildList {
  import opened Seqs

  function Detach<T(==)>(s: seq<T>, x: T): seq<T> {
    if |s| == 0 then []
    else if s[0] == x then s[1..]
    else [s[0]] + Detach(s[1..], x)
  }

  function InsertAfter<T(==)>(s: seq<T>, x: T, y: T): seq<T> {
    if |s| == 0 then []
    else if s[0] == x then [x, y] + s[1..]
    else [s[0]] + InsertAfter(s[1..], x, y)
  }

  function InsertBefore<T(==)>(s: seq<T>, x: T, y: T): seq<T> {
    if |s| == 0 then []
    else if s[0] == x then [y] + s
    else [s[0]] + InsertBefore(s[1..], x, y)
  }

  /** `x.after(y)`: moves `y`, attached or not, right behind `x`. */
  function After<T(==)>(s: seq<T>, x: T, y: T): seq<T> {
    InsertAfter(Detach(s, y), x, y)
  }

  /** `x.before(y)`. */
  function Before<T(==)>(s: seq<T>, x: T, y: T): seq<T> {
    InsertBefore(Detach(s, y), x, y)
  }

  function Exchange<T(==)>(x: T, v: T, w: T): T {
    if x == v then w else if x == w then v else x
  }

  /** `s` with the places of `v` and `w` exchanged. */
  function Swap<T(==)>(s: seq<T>, v: T, w: T): (r: seq<T>)
    ensures |r| == |s|
    ensures forall i :: 0 <= i < |s| ==> r[i] == Exchange(s[i], v, w)
  {
    seq(|s|, i requires 0 <= i < |s| => Exchange(s[i], v, w))
  }

  lemma {:induction false} DetachAbsent<T>(s: seq<T>, x: T)
    requires x !in s
    ensures Detach(s, x) == s
  {
    if |s| > 0 {
      DetachAbsent(s[1..], x);
    }
  }

  lemma {:induction false} DetachKeeps<T>(s: seq<T>, x: T)
    ensures forall y :: y in Detach(s, x) ==> y in s
  {
    if |s| > 0 {
      DetachKeeps(s[1..], x);
    }
  }

  lemma {:induction false} DetachAt<T>(a: seq<T>, x: T, b: seq<T>)
    requires x !in a
    ensures Detach(a + [x] + b, x) == a + b
  {
    var s := a + [x] + b;
    if |a| == 0 {
      assert s == [x] + b;
    } else {
      assert s[1..] == a[1..] + [x] + b;
      DetachAt(a[1..], x, b);
      assert a + b == [a[0]] + (a[1..] + b);
    }
  }

  lemma {:induction false} InsertAfterAt<T>(a: seq<T>, x: T, b: seq<T>, y: T)
    requires x !in a
    ensures InsertAfter(a + [x] + b, x, y) == a + [x, y] + b
  {
    var s := a + [x] + b;
    if |a| == 0 {
      assert s == [x] + b;
    } else {
      assert s[1..] == a[1..] + [x] + b;
      InsertAfterAt(a[1..], x, b, y);
      assert a + [x, y] + b == [a[0]] + (a[1..] + [x, y] + b);
    }
  }

  lemma {:induction false} InsertBeforeAt<T>(a: seq<T>, x: T, b: seq<T>, y: T)
    requires x !in a
    ensures InsertBefore(a + [x] + b, x, y) == a + [y, x] + b
  {
    var s := a + [x] + b;
    if |a| == 0 {
      assert s == [x] + b;
    } else {
      assert s[1..] == a[1..] + [x] + b;
      InsertBeforeAt(a[1..], x, b, y);
      assert a + [y, x] + b == [a[0]] + (a[1..] + [y, x] + b);
    }
  }

  /** The four node moves that exchange two elements through a placeholder `d`. */
  function SwapThroughPlaceholder<T(==)>(s: seq<T>, v: T, w: T, d: T): seq<T> {
    Detach(Before(After(After(s, w, d), v, w), d, v), d)
  }

  lemma {:induction false} AfterDetached<T>(a: seq<T>, x: T, b: seq<T>, y: T)
    requires x !in a && y !in a && y !in b && y != x
    ensures After(a + [x] + b, x, y) == a + [x] + [y] + b
  {
    DetachAbsent(a + [x] + b, y);
    InsertAfterAt(a, x, b, y);
  }

  lemma {:induction false} Grouped<T>(a: seq<T>, y: T, m: seq<T>, x: T, c: seq<T>)
    ensures a + [y] + m + [x] + c == a + [y] + (m + [x] + c)
    ensures a + (m + [x] + c) == (a + m) + [x] + c
  {
  }

  lemma {:induction false} PairBehind<T>(a: seq<T>, x: T, y: T, m: seq<T>, c: seq<T>)
    ensures a + [x, y] + (m + c) == a + [x] + [y] + m + c
    ensures a + [x, y] + c == a + [x] + [y] + c
  {
  }

  lemma {:induction false} AfterMovesBack<T>(a: seq<T>, x: T, m: seq<T>, y: T, c: seq<T>)
    requires x !in a && y !in a && y !in m && y != x
    ensures After(a + [x] + m + [y] + c, x, y) == a + [x] + [y] + m + c
  {
    DetachAt(a + [x] + m, y, c);
    Assoc(a + [x], m, c);
    InsertAfterAt(a, x, m + c, y);
    PairBehind(a, x, y, m, c);
  }

  lemma {:induction false} AfterMovesForth<T>(a: seq<T>, y: T, m: seq<T>, x: T, c: seq<T>)
    requires x !in a && x !in m && y !in a && y != x
    ensures After(a + [y] + m + [x] + c, x, y) == a + m + [x] + [y] + c
  {
    Grouped(a, y, m, x, c);
    DetachAt(a, y, m + [x] + c);
    InsertAfterAt(a + m, x, c, y);
    PairBehind(a + m, x, y, [], c);
  }

  lemma {:induction false} BeforeMovesForth<T>(a: seq<T>, y: T, m: seq<T>, x: T, c: seq<T>)
    requires x !in a && x !in m && y !in a && y != x
    ensures Before(a + [y] + m + [x] + c, x, y) == a + m + [y] + [x] + c
  {
    Grouped(a, y, m, x, c);
    DetachAt(a, y, m + [x] + c);
    InsertBeforeAt(a + m, x, c, y);
    PairBehind(a + m, y, x, [], c);
  }

  lemma {:induction false} BeforeMovesBack<T>(a: seq<T>, x: T, m: seq<T>, y: T, c: seq<T>)
    requires x !in a && y !in a && y !in m && y != x
    ensures Before(a + [x] + m + [y] + c, x, y) == a + [y] + [x] + m + c
  {
    DetachAt(a + [x] + m, y, c);
    Assoc(a + [x], m, c);
    InsertBeforeAt(a, x, m + c, y);
    PairBehind(a, y, x, m, c);
  }

  lemma {:induction false} SwapFirstBehind<T>(a: seq<T>, v: T, m: seq<T>, w: T, c: seq<T>, d: T)
    requires v !in a && v !in m && w !in a && w !in m && v != w
    requires d !in a && d !in m && d !in c && d != v && d != w
    ensures SwapThroughPlaceholder(a + [v] + m + [w] + c, v, w, d) == a + [w] + m + [v] + c
  {
    AfterDetached(a + [v] + m, w, c, d);
    assert a + [v] + m + [w] + [d] + c == a + [v] + m + [w] + ([d] + c);
    AfterMovesBack(a, v, m, w, [d] + c);
    assert a + [v] + [w] + m + ([d] + c) == a + [v] + ([w] + m) + [d] + c;
    BeforeMovesForth(a, v, [w] + m, d, c);
    DetachAt(a + ([w] + m) + [v], d, c);
    assert a + ([w] + m) + [v] + c == a + [w] + m + [v] + c;
  }

  lemma {:induction false} SwapFirstAhead<T>(a: seq<T>, w: T, m: seq<T>, v: T, c: seq<T>, d: T)
    requires v !in a && v !in m && w !in a && w !in m && v != w
    requires d !in a && d !in m && d !in c && d != v && d != w
    ensures SwapThroughPlaceholder(a + [w] + m + [v] + c, v, w, d) == a + [v] + m + [w] + c
  {
    assert a + [w] + m + [v] + c == a + [w] + (m + [v] + c);
    AfterDetached(a, w, m + [v] + c, d);
    assert a + [w] + [d] + (m + [v] + c) == a + [w] + ([d] + m) + [v] + c;
    AfterMovesForth(a, w, [d] + m, v, c);
    assert a + ([d] + m) + [v] + [w] + c == a + [d] + m + [v] + ([w] + c);
    BeforeMovesBack(a, d, m, v, [w] + c);
    assert a + [v] + [d] + m + ([w] + c) == (a + [v]) + [d] + (m + [w] + c);
    DetachAt(a + [v], d, m + [w] + c);
    assert (a + [v]) + (m + [w] + c) == a + [v] + m + [w] + c;
  }

  lemma {:induction false} SwapByIndex<T>(s: seq<T>, i: nat, j: nat)
    requires Distinct(s) && i < j < |s|
    ensures Swap(s, s[i], s[j]) == s[..i] + [s[j]] + s[i + 1..j] + [s[i]] + s[j + 1..]
    ensures Swap(s, s[j], s[i]) == Swap(s, s[i], s[j])
  {
    assert forall k :: 0 <= k < |s| && k != i && k != j ==> Exchange(s[k], s[i], s[j]) == s[k];
  }

  lemma {:induction false} SwapThroughPlaceholderAt<T>(s: seq<T>, i: nat, j: nat, d: T)
    requires Distinct(s) && i < j < |s| && d !in s
    ensures SwapThroughPlaceholder(s, s[i], s[j], d) == Swap(s, s[i], s[j])
    ensures SwapThroughPlaceholder(s, s[j], s[i], d) == Swap(s, s[j], s[i])
  {
    var a, m, c := s[..i], s[i + 1..j], s[j + 1..];
    var x, y := s[i], s[j];
    assert s == a + [x] + m + [y] + c;
    assert x !in a && x !in m && y !in a && y !in m && x != y;
    assert d !in a && d !in m && d !in c && d != x && d != y;
    SwapByIndex(s, i, j);
    SwapFirstBehind(a, x, m, y, c, d);
    SwapFirstAhead(a, x, m, y, c, d);
  }

  /** The placeholder dance exchanges the two elements, whichever comes first, and moves nothing else. */
  lemma {:induction false} SwapThroughPlaceholderSwaps<T>(s: seq<T>, v: T, w: T, d: T)
    requires Distinct(s) && v in s && w in s && v != w && d !in s
    ensures SwapThroughPlaceholder(s, v, w, d) == Swap(s, v, w)
  {
    var i :| 0 <= i < |s| && s[i] == v;
    var j :| 0 <= j < |s| && s[j] == w;
    if i < j {
      SwapThroughPlaceholderAt(s, i, j, d);
    } else {
      SwapThroughPlaceholderAt(s, j, i, d);
    }
  }
}
