/**
 * The linked list in which a readable stream keeps its chunks: nodes with `head`, `tail` and `length`. The chunks are
 * byte strings; that a slice of a buffer shares its memory is not modelled.
 */
module BufferList {
  import opened Bytes
  import opened Options

  class Link {
    var data: seq<Byte>
    var next: Link?
    ghost const place: int     // its place in the list, from where the list once began

    constructor (data: seq<Byte>, next: Link?, ghost place: int)
      ensures this.data == data && this.next == next && this.place == place
    {
      this.data := data;
      this.next := next;
      this.place := place;
    }
  }

  ghost function NextOf(nodes: seq<Link>, i: int): Link?
    requires 0 <= i < |nodes|
  {
    if i + 1 < |nodes| then nodes[i + 1] else null
  }

  /** `nodes` hold `chunks`, each linked to the one behind it; by their places they are different nodes. */
  ghost predicate Chain(nodes: seq<Link>, chunks: seq<seq<Byte>>, base: int)
    reads nodes
  {
    && |nodes| == |chunks|
    && forall i :: 0 <= i < |nodes| ==>
         nodes[i].next == NextOf(nodes, i) && nodes[i].data == chunks[i] && nodes[i].place == base + i
  }

  lemma {:induction false} ChainPrepend(node: Link, nodes: seq<Link>, chunks: seq<seq<Byte>>, base: int)
    requires Chain(nodes, chunks, base) && node.place == base - 1 && node.next == NextOf([node] + nodes, 0)
    ensures Chain([node] + nodes, [node.data] + chunks, base - 1)
  {
    var longer := [node] + nodes;
    forall i | 0 < i < |longer|
      ensures longer[i].next == NextOf(longer, i)
    {
      assert longer[i] == nodes[i - 1] && nodes[i - 1].next == NextOf(nodes, i - 1);
    }
  }

  lemma {:induction false} ChainDrop(nodes: seq<Link>, chunks: seq<seq<Byte>>, base: int, k: nat)
    requires Chain(nodes, chunks, base) && k <= |nodes|
    ensures Chain(nodes[k..], chunks[k..], base + k)
  {
    var shorter := nodes[k..];
    forall i | 0 <= i < |shorter|
      ensures shorter[i].next == NextOf(shorter, i)
    {
      assert shorter[i] == nodes[k + i] && nodes[k + i].next == NextOf(nodes, k + i);
    }
  }

  lemma {:induction false} LastOfRest(nodes: seq<Link>, k: nat, region: set<object>)
    requires k <= |nodes| && forall i :: 0 <= i < |nodes| ==> nodes[i] in region
    ensures forall i :: 0 <= i < |nodes[k..]| ==> nodes[k..][i] in region
    ensures k < |nodes| ==> nodes[k..][|nodes[k..]| - 1] == nodes[|nodes| - 1]
  {
  }

  predicate NoneEmpty(chunks: seq<seq<Byte>>) {
    forall i :: 0 <= i < |chunks| ==> chunks[i] != []
  }

  /** What the chunks from `k` on hold. */
  lemma {:induction false} FlattenAt(chunks: seq<seq<Byte>>, k: nat)
    requires k < |chunks|
    ensures Flatten(chunks[k..]) == chunks[k] + Flatten(chunks[k + 1..])
  {
    assert chunks[k..][1..] == chunks[k + 1..];
  }

  /** What is left of `chunks` without `count` of them and without `l` bytes of the next one. */
  function Rest(chunks: seq<seq<Byte>>, count: nat, l: nat): seq<seq<Byte>>
    requires count < |chunks| && l <= |chunks[count]|
  {
    if l == |chunks[count]| then chunks[count + 1..] else [chunks[count][l..]] + chunks[count + 1..]
  }

  lemma {:induction false} FlattenRest(chunks: seq<seq<Byte>>, count: nat, l: nat)
    requires count < |chunks| && l <= |chunks[count]|
    ensures Flatten(Rest(chunks, count, l)) == chunks[count][l..] + Flatten(chunks[count + 1..])
    ensures NoneEmpty(chunks) ==> NoneEmpty(Rest(chunks, count, l))
  {
    if l < |chunks[count]| {
      assert Rest(chunks, count, l)[1..] == chunks[count + 1..];
    }
  }

  lemma {:induction false} CutFlattens(chunks: seq<seq<Byte>>, n: nat)
    requires |chunks| > 0 && n <= |chunks[0]|
    ensures n <= |Flatten(chunks)| && Flatten(chunks)[..n] == chunks[0][..n]
    ensures Flatten(chunks)[n..] == Flatten(Rest(chunks, 0, n))
  {
    FlattenRest(chunks, 0, n);
    CutConcat(chunks[0], Flatten(chunks[1..]), n);
  }

  lemma {:induction false} CutConcat(s: seq<Byte>, t: seq<Byte>, n: nat)
    requires n <= |s|
    ensures (s + t)[..n] == s[..n] && (s + t)[n..] == s[n..] + t
  {
  }

  /** `done` are the first bytes of `chunks` and `rest` the others. */
  ghost predicate Copied(done: seq<Byte>, chunks: seq<seq<Byte>>, rest: seq<Byte>) {
    Flatten(chunks) == done + rest
  }

  /** A whole chunk is copied and bytes are missing: there is another chunk. */
  lemma {:induction false} WholeCopied(done: seq<Byte>, chunks: seq<seq<Byte>>, k: nat, l: nat)
    requires k < |chunks| && l == |chunks[k]| && |done| < |Flatten(chunks)|
    requires Copied(done, chunks, chunks[k][l..] + Flatten(chunks[k + 1..]))
    ensures k + 1 < |chunks| && Copied(done, chunks, Flatten(chunks[k + 1..]))
  {
    assert chunks[k][l..] + Flatten(chunks[k + 1..]) == Flatten(chunks[k + 1..]);
  }

  lemma {:induction false} PieceFits(done: seq<Byte>, chunks: seq<seq<Byte>>, k: nat)
    requires k < |chunks| && Copied(done, chunks, Flatten(chunks[k..]))
    ensures |done| + |chunks[k]| <= |Flatten(chunks)|
    ensures chunks[k][|chunks[k]|..] + Flatten(chunks[k + 1..]) == Flatten(chunks[k + 1..])
  {
    FlattenAt(chunks, k);
  }

  lemma {:induction false} CopiedParts(done: seq<Byte>, chunks: seq<seq<Byte>>, rest: seq<Byte>)
    requires Copied(done, chunks, rest)
    ensures |done| <= |Flatten(chunks)|
    ensures Flatten(chunks)[..|done|] == done && Flatten(chunks)[|done|..] == rest
  {
  }

  lemma {:induction false} PieceCopied(done: seq<Byte>, chunks: seq<seq<Byte>>, k: nat, l: nat)
    requires k < |chunks| && l <= |chunks[k]| && Copied(done, chunks, Flatten(chunks[k..]))
    ensures Copied(done + chunks[k][..l], chunks, chunks[k][l..] + Flatten(chunks[k + 1..]))
  {
    FlattenAt(chunks, k);
  }

  /** Copies `s` into `a` from position `at` on. */
  method Blit(a: array<Byte>, at: nat, s: seq<Byte>)
    requires at + |s| <= a.Length
    modifies a
    ensures a[..at + |s|] == old(a[..at]) + s
  {
    for i := 0 to |s|
      invariant a[..at + i] == old(a[..at]) + s[..i]
    {
      a[at + i] := s[i];
    }
  }

  /** Copies the chunk `data`, or what of it still fits, into `a` from position `at` on. */
  method CopyNext(a: array<Byte>, at: nat, data: seq<Byte>, ghost chunks: seq<seq<Byte>>, ghost k: nat)
    returns (l: nat)
    requires at <= a.Length && k < |chunks| && data == chunks[k]
    requires Copied(a[..at], chunks, Flatten(chunks[k..]))
    modifies a
    ensures l == if a.Length - at > |data| then |data| else a.Length - at
    ensures Copied(a[..at + l], chunks, data[l..] + Flatten(chunks[k + 1..]))
  {
    l := if a.Length - at > |data| then |data| else a.Length - at;
    PieceCopied(a[..at], chunks, k, l);
    Blit(a, at, data[..l]);
  }

  class BufferList {
    var head: Link?
    var tail: Link?
    var length: nat
    ghost var spine: seq<Link>
    ghost var chunks: seq<seq<Byte>>
    ghost var base: int
    ghost var Repr: set<object>

    ghost predicate Valid()
      reads this, Repr
      ensures Valid() ==> this in Repr
    {
      && this in Repr && (forall i :: 0 <= i < |spine| ==> spine[i] in Repr)
      && Chain(spine, chunks, base) && length == |spine|
      && head == (if |spine| == 0 then null else spine[0])
      && tail == (if |spine| == 0 then null else spine[|spine| - 1])
    }

    /** The bytes held, first to last. */
    ghost function Held(): seq<Byte>
      reads this
    {
      Flatten(chunks)
    }

    constructor ()
      ensures Valid() && fresh(Repr) && chunks == []
    {
      head, tail, length, spine, chunks, base := null, null, 0, [], [], 0;
      Repr := {this};
    }

    /** The list consists of these nodes from now on. */
    method Describe(n: nat, ghost nodes: seq<Link>, ghost data: seq<seq<Byte>>, ghost place: int)
      modifies `length, `spine, `chunks, `base
      ensures length == n && spine == nodes && chunks == data && base == place
    {
      length, spine, chunks, base := n, nodes, data, place;
    }

    method Push(data: seq<Byte>)
      requires Valid()
      modifies Repr
      ensures Valid() && chunks == old(chunks) + [data] && Held() == old(Held()) + data
      ensures fresh(Repr - old(Repr))
    {
      FlattenOne(data);
      FlattenConcat(chunks, [data]);
      var node := new Link(data, null, base + |spine|);
      if length > 0 {
        tail.next := node;
      } else {
        head := node;
      }
      tail, length, spine, chunks := node, length + 1, spine + [node], chunks + [data];
      Repr := Repr + {node};
    }

    method Unshift(data: seq<Byte>)
      requires Valid()
      modifies this
      ensures Valid() && chunks == [data] + old(chunks) && Held() == data + old(Held())
      ensures fresh(Repr - old(Repr))
    {
      assert ([data] + chunks)[1..] == chunks;
      var node := new Link(data, head, base - 1);
      if length == 0 {
        tail := node;
      }
      ChainPrepend(node, spine, chunks, base);
      head, Repr := node, Repr + {node};
      Describe(length + 1, [node] + spine, [data] + chunks, base - 1);
    }

    method Shift() returns (data: Option<seq<Byte>>)
      requires Valid()
      modifies this
      ensures Valid() && Repr == old(Repr)
      ensures match data case None => chunks == old(chunks) == [] case Some(d) => [d] + chunks == old(chunks)
    {
      if length == 0 {
        return None;
      }
      data := Some(head.data);
      if length == 1 {
        head, tail := null, null;
      } else {
        head := head.next;
      }
      length, spine, chunks, base := length - 1, spine[1..], chunks[1..], base + 1;
      ChainDrop(old(spine), old(chunks), old(base), 1);
    }

    method Clear()
      requires Valid()
      modifies this
      ensures Valid() && chunks == [] && Repr == old(Repr)
    {
      head, tail, length, spine, chunks, base := null, null, 0, [], [], 0;
    }

    method Concat(n: nat) returns (all: array<Byte>)
      requires Valid() && n == |Held()|
      ensures fresh(all) && all[..] == Held()
    {
      all := new Byte[n];
      var node, at: nat := head, 0;
      ghost var k := 0;
      while node != null
        invariant k <= |spine| && node == if k < |spine| then spine[k] else null
        invariant at <= n && Copied(all[..at], chunks, Flatten(chunks[k..]))
        decreases |spine| - k
      {
        PieceFits(all[..at], chunks, k);
        assert node.next == NextOf(spine, k);
        var l := CopyNext(all, at, node.data, chunks, k);
        at := at + |node.data|;
        node, k := node.next, k + 1;
      }
      CopiedParts(all[..at], chunks, []);
    }

    /** Copies on from the node behind `node`, until `taken` is full; it ends `l` bytes into the last node copied. */
    method CopyNodes(taken: array<Byte>, first: Link) returns (node: Link, l: nat, count: nat)
      requires Valid() && length > 0 && first == spine[0] && taken !in Repr
      requires |first.data| < taken.Length <= |Held()|
      requires Copied(taken[..|first.data|], chunks, Flatten(chunks[1..]))
      modifies taken
      ensures Valid() && count < |spine| && node == spine[count] && 0 < l <= |node.data|
      ensures Copied(taken[..], chunks, chunks[count][l..] + Flatten(chunks[count + 1..]))
    {
      node, count, l := first, 0, |first.data|;
      var at: nat := l;
      while at < taken.Length
        invariant Valid() && count < |spine| && node == spine[count] && at <= taken.Length
        invariant if at < taken.Length then l == |chunks[count]| else 0 < l <= |chunks[count]|
        invariant Copied(taken[..at], chunks, chunks[count][l..] + Flatten(chunks[count + 1..]))
        decreases |spine| - count
      {
        WholeCopied(taken[..at], chunks, count, l);
        node, l := CopyNode(taken, at, node, count);
        at, count := at + l, count + 1;
      }
      assert taken[..at] == taken[..];
    }

    /** Copies from the node behind `before`, as much as fits. */
    method CopyNode(taken: array<Byte>, at: nat, before: Link, count: nat) returns (node: Link, l: nat)
      requires Valid() && taken !in Repr && count + 1 < |spine| && before == spine[count] && at <= taken.Length
      requires Copied(taken[..at], chunks, Flatten(chunks[count + 1..]))
      modifies taken
      ensures Valid() && node == spine[count + 1]
      ensures l == if taken.Length - at > |chunks[count + 1]| then |chunks[count + 1]| else taken.Length - at
      ensures Copied(taken[..at + l], chunks, chunks[count + 1][l..] + Flatten(chunks[count + 2..]))
    {
      assert spine[count].next == NextOf(spine, count);
      node := before.next;
      l := CopyNext(taken, at, node.data, chunks, count + 1);
    }

    /** Copies `n` bytes, more than the first chunk holds; they end `l` bytes into `node`, behind `count` others. */
    method Gather(n: nat) returns (taken: array<Byte>, node: Link, l: nat, count: nat)
      requires Valid() && length > 0 && |head.data| < n <= |Held()|
      ensures Valid() && fresh(taken) && taken[..] == Held()[..n]
      ensures count < |spine| && node == spine[count] && 0 < l <= |node.data|
      ensures Held()[n..] == node.data[l..] + Flatten(chunks[count + 1..])
    {
      taken := new Byte[n];
      PieceFits([], chunks, 0);
      assert taken[..0] == [] && chunks[0..] == chunks;
      var _ := CopyNext(taken, 0, head.data, chunks, 0);
      node, l, count := CopyNodes(taken, head);
      CopiedParts(taken[..], chunks, chunks[count][l..] + Flatten(chunks[count + 1..]));
    }

    /** `count` nodes leave the list; `node` is behind them. */
    method DropNodes(node: Link?, count: nat)
      requires Valid() && count <= |spine| && node == if count < |spine| then spine[count] else null
      modifies this
      ensures Valid() && chunks == old(chunks)[count..] && spine == old(spine)[count..] && Repr == old(Repr)
    {
      if node != null {
        head := node;
      } else {
        head, tail := null, null;
      }
      LastOfRest(spine, count, Repr);
      ChainDrop(spine, chunks, base, count);
      Describe(length - count, spine[count..], chunks[count..], base + count);
    }

    /** The head chunk is cut. */
    method CutHead(n: nat) returns (taken: seq<Byte>)
      requires Valid() && length > 0 && n < |head.data|
      modifies Repr
      ensures Valid() && Repr == old(Repr) && chunks == Rest(old(chunks), 0, n)
      ensures taken == old(Held())[..n] && Held() == old(Held())[n..]
    {
      CutFlattens(chunks, n);
      taken := head.data[..n];
      head.data := head.data[n..];
      chunks := [head.data] + chunks[1..];
    }

    /** `count` nodes leave the list, and `l` bytes of `node` behind them. */
    method DropTo(node: Link, l: nat, count: nat)
      requires Valid() && count < |spine| && node == spine[count] && l <= |node.data|
      modifies Repr
      ensures Valid() && Repr == old(Repr) && chunks == Rest(old(chunks), count, l)
    {
      if l == |node.data| {
        assert node.next == NextOf(spine, count);
        DropNodes(node.next, count + 1);
      } else {
        assert chunks[count..][1..] == chunks[count + 1..];
        DropNodes(node, count);
        var _ := CutHead(l);
      }
    }

    method GetBuffer(n: nat) returns (taken: array<Byte>)
      requires Valid() && length > 0 && |head.data| < n <= |Held()|
      modifies Repr
      ensures Valid() && fresh(taken) && taken[..] == old(Held())[..n] && Held() == old(Held())[n..]
      ensures Repr == old(Repr)
      ensures NoneEmpty(old(chunks)) ==> NoneEmpty(chunks)
    {
      var node, l, count;
      taken, node, l, count := Gather(n);
      FlattenRest(chunks, count, l);
      DropTo(node, l, count);
    }

    method Consume(n: nat) returns (taken: seq<Byte>)
      requires Valid() && length > 0 && n <= |Held()|
      modifies Repr
      ensures Valid() && taken == old(Held())[..n] && Held() == old(Held())[n..]
      ensures Repr == old(Repr)
      ensures NoneEmpty(old(chunks)) ==> NoneEmpty(chunks)
    {
      if n < |head.data| {
        FlattenRest(chunks, 0, n);
        taken := CutHead(n);
      } else if n == |head.data| {
        FlattenAt(chunks, 0);
        var first := Shift();
        taken := first.value;
      } else {
        var all := GetBuffer(n);
        taken := all[..];
      }
    }
  }
}
