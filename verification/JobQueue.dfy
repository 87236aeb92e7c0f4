/**
 * The scheduler that batches reactive jobs into one microtask. Jobs run while the queue is being walked, and may
 * add jobs to it or take pending jobs out of it.
 */
module JobQueue {
  import opened Seqs

  datatype Job = Job(id: nat)

  datatype Op = Enqueue(job: Job) | Dequeue(job: Job)

  /** The scheduler's variables, and how many flush microtasks are waiting in the host. */
  datatype State = State(queue: seq<Job>, lastFlushed: int, pending: bool, flushing: bool, microtasks: nat)

  function Remove(s: seq<Job>, i: nat): seq<Job>
    requires i < |s|
  {
    s[..i] + s[i + 1..]
  }

  function Apply(s: State, op: Op): State {
    match op
    case Enqueue(job) =>
      var s1 := if job in s.queue then s else s.(queue := s.queue + [job]);
      if !s1.flushing && !s1.pending then s1.(pending := true, microtasks := s1.microtasks + 1) else s1
    case Dequeue(job) =>
      var i := IndexOf(s.queue, job);
      if i != -1 && i > s.lastFlushed then s.(queue := Remove(s.queue, i)) else s
  }

  function ApplyAll(s: State, ops: seq<Op>): State
    decreases |ops|
  {
    if |ops| == 0 then s else ApplyAll(Apply(s, ops[0]), ops[1..])
  }

  /** No job waits twice, and waiting jobs outside a flush have exactly one flush scheduled for them. */
  ghost predicate Inv(s: State) {
    && Distinct(s.queue) && -1 <= s.lastFlushed < |s.queue|
    && (!s.flushing ==> s.lastFlushed == -1 && (|s.queue| > 0 ==> s.pending))
    && s.microtasks == if s.pending then 1 else 0
  }

  lemma {:induction false} RemoveDistinct(s: seq<Job>, i: nat)
    requires Distinct(s) && i < |s|
    ensures Distinct(Remove(s, i))
    ensures forall x :: x in Remove(s, i) <==> x in s && x != s[i]
  {
    assert s == s[..i] + [s[i]] + s[i + 1..];
    assert forall x :: x in s <==> x in s[..i] || x == s[i] || x in s[i + 1..];
  }

  lemma {:induction false} ApplyKeepsInv(s: State, op: Op)
    requires Inv(s)
    ensures Inv(Apply(s, op))
  {
    if op.Dequeue? {
      var i := IndexOf(s.queue, op.job);
      if i != -1 && i > s.lastFlushed {
        RemoveDistinct(s.queue, i);
      }
    }
  }

  // ---------------------------------------------------------------------------------------------
  // Jobs that nobody takes out
  // ---------------------------------------------------------------------------------------------

  /** The order in which jobs first arrive. */
  function Arrivals(q: seq<Job>, ops: seq<Op>): seq<Job>
    decreases |ops|
  {
    if |ops| == 0 then q
    else Arrivals(if ops[0].Enqueue? && ops[0].job !in q then q + [ops[0].job] else q, ops[1..])
  }

  /** No operation takes out a job of `stable`. */
  ghost predicate Spares(ops: seq<Op>, stable: set<Job>) {
    forall op :: op in ops && op.Dequeue? ==> op.job !in stable
  }

  /** The queue and the arrivals hold the same stable jobs in the same order. */
  ghost predicate Agree(queue: seq<Job>, arrived: seq<Job>, stable: set<Job>) {
    Keep(queue, stable) == Keep(arrived, stable)
  }

  lemma {:induction false} KeepMembers(a: seq<Job>, b: seq<Job>, stable: set<Job>, x: Job)
    requires Agree(a, b, stable) && x in stable
    ensures x in a <==> x in b
  {
    assert x in a <==> x in Keep(a, stable);
    assert x in b <==> x in Keep(b, stable);
  }

  lemma {:induction false} KeepPush(s: seq<Job>, x: Job, stable: set<Job>)
    ensures Keep(s + [x], stable) == Keep(s, stable) + if x in stable then [x] else []
  {
    KeepConcat(s, [x], stable);
  }

  lemma {:induction false} KeepRemove(s: seq<Job>, i: nat, stable: set<Job>)
    requires i < |s| && s[i] !in stable
    ensures Keep(Remove(s, i), stable) == Keep(s, stable)
  {
    assert s == s[..i] + [s[i]] + s[i + 1..];
    KeepConcat(s[..i] + [s[i]], s[i + 1..], stable);
    KeepPush(s[..i], s[i], stable);
    KeepConcat(s[..i], s[i + 1..], stable);
  }

  lemma {:induction false} ApplyAgrees(s: State, op: Op, arrived: seq<Job>, stable: set<Job>)
    requires Agree(s.queue, arrived, stable) && Spares([op], stable)
    ensures Agree(Apply(s, op).queue, Arrivals(arrived, [op]), stable)
  {
    assert [op][1..] == [];
    assert op in [op];
    match op
    case Enqueue(job) =>
      KeepPush(s.queue, job, stable);
      KeepPush(arrived, job, stable);
      if job in stable {
        KeepMembers(s.queue, arrived, stable, job);
      }
    case Dequeue(job) =>
      var i := IndexOf(s.queue, job);
      if i != -1 && i > s.lastFlushed {
        KeepRemove(s.queue, i, stable);
      }
  }

  lemma {:induction false} ArrivalsConcat(q: seq<Job>, a: seq<Op>, b: seq<Op>)
    ensures Arrivals(q, a + b) == Arrivals(Arrivals(q, a), b)
    decreases |a|
  {
    if |a| == 0 {
      assert a + b == b;
    } else {
      assert (a + b)[1..] == a[1..] + b;
      ArrivalsConcat(if a[0].Enqueue? && a[0].job !in q then q + [a[0].job] else q, a[1..], b);
    }
  }

  // ---------------------------------------------------------------------------------------------
  // What a running job can do to the queue
  // ---------------------------------------------------------------------------------------------

  /** Operations leave the jobs that have been flushed where they are. */
  lemma {:induction false} ApplyKeepsPrefix(s: State, op: Op, n: nat)
    requires n <= |s.queue| && n <= s.lastFlushed + 1
    ensures n <= |Apply(s, op).queue| && Apply(s, op).queue[..n] == s.queue[..n]
  {
    if op.Dequeue? {
      var i := IndexOf(s.queue, op.job);
      if i != -1 && i > s.lastFlushed {
        assert Remove(s.queue, i)[..n] == s.queue[..n];
      }
    }
  }

  lemma {:induction false} ApplyAllKeepsPrefix(s: State, ops: seq<Op>, n: nat)
    requires n <= |s.queue| && n <= s.lastFlushed + 1
    ensures n <= |ApplyAll(s, ops).queue| && ApplyAll(s, ops).queue[..n] == s.queue[..n]
    decreases |ops|
  {
    if |ops| > 0 {
      ApplyKeepsPrefix(s, ops[0], n);
      ApplyAllKeepsPrefix(Apply(s, ops[0]), ops[1..], n);
    }
  }

  /** Nothing is scheduled while a flush is running. */
  predicate Flushing(s: State) {
    s.flushing && !s.pending && s.microtasks == 0
  }

  lemma {:induction false} ApplyAllFlushing(s: State, ops: seq<Op>)
    requires Flushing(s)
    ensures Flushing(ApplyAll(s, ops))
    decreases |ops|
  {
    if |ops| > 0 {
      ApplyAllFlushing(Apply(s, ops[0]), ops[1..]);
    }
  }

  lemma {:induction false} RemoveKeeps(q: seq<Job>, i: nat, x: Job)
    requires i < |q| && x in q && x != q[i]
    ensures x in Remove(q, i)
  {
    assert q == q[..i] + [q[i]] + q[i + 1..];
  }

  /** A job stays until it is taken out. */
  lemma {:induction false} ApplyAllKeepsMember(s: State, ops: seq<Op>, x: Job)
    requires x in s.queue && Dequeue(x) !in ops
    ensures x in ApplyAll(s, ops).queue
    decreases |ops|
  {
    if |ops| > 0 {
      if ops[0].Dequeue? {
        var i := IndexOf(s.queue, ops[0].job);
        if i != -1 {
          RemoveKeeps(s.queue, i, x);
        }
      }
      ApplyAllKeepsMember(Apply(s, ops[0]), ops[1..], x);
    }
  }

  /** A distinct queue over a finite universe is no longer than the universe. */
  lemma {:induction false} QueueBounded(q: seq<Job>, universe: set<Job>)
    requires Distinct(q) && forall j :: j in q ==> j in universe
    ensures |q| <= |universe|
  {
    DistinctLength(q);
    SubsetSize(Elems(q), universe);
  }

  lemma {:induction false} SubsetSize<T>(a: set<T>, b: set<T>)
    requires a <= b
    ensures |a| <= |b|
  {
    if a != {} {
      var x :| x in a;
      SubsetSize(a - {x}, b - {x});
    }
  }

  // ---------------------------------------------------------------------------------------------
  // A whole flush
  // ---------------------------------------------------------------------------------------------

  /** What a job does when it runs as the job at index `at`: queue operations, and whether it then throws. */
  datatype Script = Script(ops: (Job, nat) -> seq<Op>, throws: (Job, nat) -> bool)

  /** All jobs that ever get mentioned belong to a finite universe. */
  ghost predicate Closed(script: Script, universe: set<Job>) {
    forall j, at, op :: op in script.ops(j, at) ==> op.job in universe
  }

  ghost predicate Well(q: seq<Job>, universe: set<Job>) {
    Distinct(q) && forall j :: j in q ==> j in universe
  }

  /** The jobs run, the operations they performed, the state in the end, and whether a job threw. */
  datatype Walked = Walked(ran: seq<Job>, ops: seq<Op>, state: State, aborted: bool)

  lemma {:induction false} ApplyWell(s: State, op: Op, universe: set<Job>)
    requires Well(s.queue, universe) && op.job in universe
    ensures Well(Apply(s, op).queue, universe)
  {
    if op.Dequeue? {
      var i := IndexOf(s.queue, op.job);
      if i != -1 && i > s.lastFlushed {
        RemoveDistinct(s.queue, i);
      }
    }
  }

  lemma {:induction false} ApplyAllWell(s: State, ops: seq<Op>, universe: set<Job>)
    requires Well(s.queue, universe) && forall op :: op in ops ==> op.job in universe
    ensures Well(ApplyAll(s, ops).queue, universe)
    decreases |ops|
  {
    if |ops| > 0 {
      ApplyWell(s, ops[0], universe);
      ApplyAllWell(Apply(s, ops[0]), ops[1..], universe);
    }
  }

  /** The flush loop from index `e` on. It ends because the queue cannot outgrow the universe. */
  ghost function Walk(s: State, e: nat, script: Script, universe: set<Job>): Walked
    requires Well(s.queue, universe) && Closed(script, universe)
    decreases |universe| - e
  {
    if e >= |s.queue| then Walked([], [], s, false)
    else
      var job := s.queue[e];
      var ops := script.ops(job, e);
      var s1 := ApplyAll(s, ops);
      ApplyAllWell(s, ops, universe);
      QueueBounded(s.queue, universe);
      if script.throws(job, e) then Walked([job], ops, s1, true)
      else
        var rest := Walk(s1.(lastFlushed := e), e + 1, script, universe);
        Walked([job] + rest.ran, ops + rest.ops, rest.state, rest.aborted)
  }

  /** Having run `ran`, the rest of the walk leads to `goal`. */
  ghost predicate Completes(ran: seq<Job>, rest: Walked, goal: Walked) {
    ran + rest.ran == goal.ran && rest.aborted == goal.aborted && rest.state == goal.state
  }

  /** The state when the flush microtask starts its loop. */
  function Started(s: State): State
    requires s.microtasks > 0
  {
    s.(pending := false, flushing := true, microtasks := s.microtasks - 1)
  }

  function Cleared(s: State): State {
    s.(queue := [], lastFlushed := -1, flushing := false)
  }

  /** No job takes itself out of the queue while it runs. */
  ghost predicate NoSelfDequeue(script: Script) {
    forall j, at :: Dequeue(j) !in script.ops(j, at)
  }

  lemma {:induction false} ApplyAllAgrees(s: State, ops: seq<Op>, arrived: seq<Job>, stable: set<Job>)
    requires Agree(s.queue, arrived, stable) && Spares(ops, stable)
    ensures Agree(ApplyAll(s, ops).queue, Arrivals(arrived, ops), stable)
    decreases |ops|
  {
    if |ops| > 0 {
      assert Spares([ops[0]], stable);
      ApplyAgrees(s, ops[0], arrived, stable);
      assert [ops[0]] + ops[1..] == ops;
      ArrivalsConcat(arrived, [ops[0]], ops[1..]);
      ApplyAllAgrees(Apply(s, ops[0]), ops[1..], Arrivals(arrived, [ops[0]]), stable);
    }
  }

  /** The queue and the state behind the job at index `e`, if it does not throw. */
  function Next(s: State, e: nat, script: Script): State
    requires e < |s.queue|
  {
    ApplyAll(s, script.ops(s.queue[e], e)).(lastFlushed := e)
  }

  lemma {:induction false} NextWell(s: State, e: nat, script: Script, universe: set<Job>)
    requires Well(s.queue, universe) && Closed(script, universe) && e < |s.queue|
    ensures Well(Next(s, e, script).queue, universe) && |s.queue| <= |universe|
  {
    ApplyAllWell(s, script.ops(s.queue[e], e), universe);
    QueueBounded(s.queue, universe);
  }

  /** Some job of the flush that does not throw leaves another job at its own index, where the flush passes it over. */
  ghost predicate Skips(s: State, e: nat, script: Script, universe: set<Job>)
    requires Well(s.queue, universe) && Closed(script, universe)
    decreases |universe| - e
  {
    if e >= |s.queue| || script.throws(s.queue[e], e) then false
    else
      var next := Next(s, e, script);
      NextWell(s, e, script, universe);
      (e < |next.queue| && next.queue[e] != s.queue[e]) || Skips(next, e + 1, script, universe)
  }

  lemma {:induction false} WalkFlushing(s: State, e: nat, script: Script, universe: set<Job>)
    requires Well(s.queue, universe) && Closed(script, universe) && Flushing(s)
    ensures Flushing(Walk(s, e, script, universe).state)
    decreases |universe| - e
  {
    if e < |s.queue| {
      NextWell(s, e, script, universe);
      ApplyAllFlushing(s, script.ops(s.queue[e], e));
      if !script.throws(s.queue[e], e) {
        WalkFlushing(Next(s, e, script), e + 1, script, universe);
      }
    }
  }

  /** What stands before the walk stays there, and does not run. */
  lemma {:induction false} WalkLeaves(s: State, e: nat, script: Script, universe: set<Job>, n: nat, x: Job)
    requires Well(s.queue, universe) && Closed(script, universe) && s.lastFlushed == e - 1
    requires n <= e && n <= |s.queue| && x in s.queue[..n]
    ensures var w := Walk(s, e, script, universe); x in w.state.queue && x !in w.ran
    decreases |universe| - e
  {
    if e < |s.queue| {
      NextWell(s, e, script, universe);
      assert s.queue[e] !in s.queue[..n];
      ApplyAllKeepsPrefix(s, script.ops(s.queue[e], e), n);
      if !script.throws(s.queue[e], e) {
        WalkLeaves(Next(s, e, script), e + 1, script, universe, n, x);
      }
    }
  }

  /** Every job that is still queued when the walk ends has run. */
  ghost predicate AllRan(before: seq<Job>, w: Walked) {
    forall x :: x in w.state.queue ==> x in before || x in w.ran
  }

  lemma {:induction false} SkippedNotRun(s: State, e: nat, script: Script, universe: set<Job>)
    requires Well(s.queue, universe) && Closed(script, universe) && s.lastFlushed == e - 1 && e < |s.queue|
    requires !script.throws(s.queue[e], e)
    requires var next := Next(s, e, script); e < |next.queue| && next.queue[e] != s.queue[e]
    ensures !AllRan(s.queue[..e], Walk(s, e, script, universe))
  {
    var next := Next(s, e, script);
    NextWell(s, e, script, universe);
    ApplyAllKeepsPrefix(s, script.ops(s.queue[e], e), e);
    var y := next.queue[e];
    assert y in next.queue[..e + 1] && y !in next.queue[..e];
    WalkLeaves(next, e + 1, script, universe, e + 1, y);
  }

  lemma {:induction false} WalkRunsAllIff(s: State, e: nat, script: Script, universe: set<Job>)
    requires Well(s.queue, universe) && Closed(script, universe) && s.lastFlushed == e - 1 && e <= |s.queue|
    ensures var w := Walk(s, e, script, universe);
            !w.aborted ==> (AllRan(s.queue[..e], w) <==> !Skips(s, e, script, universe))
    decreases |universe| - e
  {
    if e == |s.queue| {
      Whole(s.queue);
    } else if !script.throws(s.queue[e], e) {
      var next := Next(s, e, script);
      NextWell(s, e, script, universe);
      ApplyAllKeepsPrefix(s, script.ops(s.queue[e], e), e);
      if |next.queue| == e {
        Whole(next.queue);
      } else if next.queue[e] != s.queue[e] {
        SkippedNotRun(s, e, script, universe);
      } else {
        OneMore(next.queue, e);
        WalkRunsAllIff(next, e + 1, script, universe);
      }
    }
  }

  /** A walk that skips nothing runs no job twice, and no job that stood before it. */
  lemma {:induction false} WalkDistinct(s: State, e: nat, script: Script, universe: set<Job>)
    requires Well(s.queue, universe) && Closed(script, universe) && s.lastFlushed == e - 1 && e <= |s.queue|
    requires !Skips(s, e, script, universe)
    ensures Distinct(s.queue[..e] + Walk(s, e, script, universe).ran)
    decreases |universe| - e
  {
    if e == |s.queue| {
      Whole(s.queue);
      WithNothing(s.queue, []);
    } else {
      var next := Next(s, e, script);
      NextWell(s, e, script, universe);
      OneMore(s.queue, e);
      ApplyAllKeepsPrefix(s, script.ops(s.queue[e], e), e);
      if !script.throws(s.queue[e], e) && |next.queue| > e {
        OneMore(next.queue, e);
        WalkDistinct(next, e + 1, script, universe);
        Assoc(s.queue[..e], [s.queue[e]], Walk(next, e + 1, script, universe).ran);
      }
    }
  }

  /** It runs the stable jobs of the final queue, in queue order. */
  lemma {:induction false} WalkKeeps(s: State, e: nat, script: Script, universe: set<Job>, stable: set<Job>)
    requires Well(s.queue, universe) && Closed(script, universe) && s.lastFlushed == e - 1 && e <= |s.queue|
    requires !Skips(s, e, script, universe) && Spares(Walk(s, e, script, universe).ops, stable)
    requires !Walk(s, e, script, universe).aborted
    ensures var w := Walk(s, e, script, universe); Agree(w.state.queue, s.queue[..e] + w.ran, stable)
    decreases |universe| - e
  {
    if e == |s.queue| {
      Whole(s.queue);
      WithNothing(s.queue, []);
    } else {
      var job, next := s.queue[e], Next(s, e, script);
      var ops := script.ops(job, e);
      NextWell(s, e, script, universe);
      OneMore(s.queue, e);
      ApplyAllKeepsPrefix(s, ops, e);
      if |next.queue| == e {
        Whole(next.queue);
        assert Walk(s, e, script, universe).ran == [job];
        RemovedIsNotStable(s, e, ops, Walk(s, e, script, universe).ops, stable);
        KeepPush(s.queue[..e], job, stable);
      } else {
        OneMore(next.queue, e);
        WalkKeeps(next, e + 1, script, universe, stable);
        Assoc(s.queue[..e], [job], Walk(next, e + 1, script, universe).ran);
      }
    }
  }

  lemma {:induction false} RemovedIsNotStable(s: State, e: nat, ops: seq<Op>, all: seq<Op>, stable: set<Job>)
    requires e < |s.queue| && s.lastFlushed == e - 1 && Distinct(s.queue)
    requires |ApplyAll(s, ops).queue| == e && ops <= all && Spares(all, stable)
    ensures s.queue[e] !in stable
  {
    var q := ApplyAll(s, ops).queue;
    ApplyAllKeepsPrefix(s, ops, e);
    Whole(q);
    assert s.queue[e] !in q;
    if Dequeue(s.queue[e]) in ops {
      assert Dequeue(s.queue[e]) in all;
    } else {
      ApplyAllKeepsMember(s, ops, s.queue[e]);
    }
  }

  /** A walk whose jobs leave themselves in the queue skips nothing. */
  lemma {:induction false} NoSelfDequeueNoSkip(s: State, e: nat, script: Script, universe: set<Job>)
    requires Well(s.queue, universe) && Closed(script, universe) && NoSelfDequeue(script)
    requires s.lastFlushed == e - 1 && e <= |s.queue|
    ensures !Skips(s, e, script, universe)
    decreases |universe| - e
  {
    if e < |s.queue| && !script.throws(s.queue[e], e) {
      var ops := script.ops(s.queue[e], e);
      NextWell(s, e, script, universe);
      JobStays(s, e, ops);
      NoSelfDequeueNoSkip(Next(s, e, script), e + 1, script, universe);
    }
  }

  /** A job that does not take itself out stays at its index. */
  lemma {:induction false} JobStays(s: State, e: nat, ops: seq<Op>)
    requires Distinct(s.queue) && e < |s.queue| && s.lastFlushed == e - 1 && Dequeue(s.queue[e]) !in ops
    ensures e < |ApplyAll(s, ops).queue| && ApplyAll(s, ops).queue[e] == s.queue[e]
    decreases |ops|
  {
    if |ops| > 0 {
      if ops[0].Dequeue? {
        var i := IndexOf(s.queue, ops[0].job);
        if i != -1 && i > s.lastFlushed {
          RemoveDistinct(s.queue, i);
          assert i > e;
        }
      }
      JobStays(Apply(s, ops[0]), e, ops[1..]);
    }
  }

  /** One of the jobs run, from index `e` on, throws. */
  predicate SomeThrows(ran: seq<Job>, e: nat, script: Script)
    decreases |ran|
  {
    |ran| > 0 && (script.throws(ran[0], e) || SomeThrows(ran[1..], e + 1, script))
  }

  /** The walk breaks off exactly when a job that it runs throws. */
  lemma {:induction false} WalkAbortsIff(s: State, e: nat, script: Script, universe: set<Job>)
    requires Well(s.queue, universe) && Closed(script, universe)
    ensures var w := Walk(s, e, script, universe); w.aborted <==> SomeThrows(w.ran, e, script)
    decreases |universe| - e
  {
    if e < |s.queue| {
      NextWell(s, e, script, universe);
      if !script.throws(s.queue[e], e) {
        WalkAbortsIff(Next(s, e, script), e + 1, script, universe);
        Behind([s.queue[e]], Walk(Next(s, e, script), e + 1, script, universe).ran);
      }
    }
  }

  lemma {:induction false} WalkAgrees(s: State, e: nat, script: Script, universe: set<Job>, arrived: seq<Job>,
                                      stable: set<Job>)
    requires Well(s.queue, universe) && Closed(script, universe) && Agree(s.queue, arrived, stable)
    requires Spares(Walk(s, e, script, universe).ops, stable)
    ensures var w := Walk(s, e, script, universe); Agree(w.state.queue, Arrivals(arrived, w.ops), stable)
    decreases |universe| - e
  {
    if e < |s.queue| {
      QueueBounded(s.queue, universe);
      var job := s.queue[e];
      var ops := script.ops(job, e);
      var s1 := ApplyAll(s, ops);
      ApplyAllWell(s, ops, universe);
      var w := Walk(s, e, script, universe);
      assert forall op :: op in ops ==> op in w.ops;
      ApplyAllAgrees(s, ops, arrived, stable);
      if !script.throws(job, e) {
        var rest := Walk(s1.(lastFlushed := e), e + 1, script, universe);
        WalkAgrees(s1.(lastFlushed := e), e + 1, script, universe, Arrivals(arrived, ops), stable);
        ArrivalsConcat(arrived, ops, rest.ops);
      }
    }
  }

  // ---------------------------------------------------------------------------------------------
  // Main results
  // ---------------------------------------------------------------------------------------------

  /** The state when the flush microtask is over. */
  ghost function Ended(s: State, script: Script, universe: set<Job>): State
    requires s.microtasks > 0 && Well(s.queue, universe) && Closed(script, universe)
  {
    var w := Walk(Started(s), 0, script, universe);
    if w.aborted then w.state else Cleared(w.state)
  }

  /**
   * A flush that no job breaks off runs every job that nobody took out, if and only if no job leaves another one at its
   * own index.
   */
  lemma {:induction false} FlushRunsAllIff(s: State, script: Script, universe: set<Job>)
    requires Inv(s) && s.pending && !s.flushing && Well(s.queue, universe) && Closed(script, universe)
    ensures var w := Walk(Started(s), 0, script, universe);
            !w.aborted ==>
              ((forall x :: x in w.state.queue ==> x in w.ran) <==> !Skips(Started(s), 0, script, universe))
  {
    WalkRunsAllIff(Started(s), 0, script, universe);
  }

  /**
   * A flush whose jobs neither throw nor skip runs no job twice, runs every job that nobody takes out (present at the
   * start or added on the way) exactly once, those jobs in the order of their arrival, and leaves an empty queue ready
   * for the next flush. Jobs that do not take themselves out skip nothing.
   */
  lemma {:induction false} FlushRunsEverything(s: State, script: Script, universe: set<Job>, stable: set<Job>)
    requires Inv(s) && s.pending && !s.flushing && Well(s.queue, universe) && Closed(script, universe)
    ensures NoSelfDequeue(script) ==> !Skips(Started(s), 0, script, universe)
    ensures var w := Walk(Started(s), 0, script, universe);
            !w.aborted && !Skips(Started(s), 0, script, universe) ==>
              && Distinct(w.ran) && Inv(Cleared(w.state)) && Cleared(w.state).microtasks == 0
              && (Spares(w.ops, stable) ==> Keep(w.ran, stable) == Keep(Arrivals(s.queue, w.ops), stable))
  {
    var t := Started(s);
    var w := Walk(t, 0, script, universe);
    if NoSelfDequeue(script) {
      NoSelfDequeueNoSkip(t, 0, script, universe);
    }
    if !w.aborted && !Skips(t, 0, script, universe) {
      WalkFlushing(t, 0, script, universe);
      WithNothing(w.ran, s.queue[..0]);
      WalkDistinct(t, 0, script, universe);
      if Spares(w.ops, stable) {
        WalkKeeps(t, 0, script, universe, stable);
        WalkAgrees(t, 0, script, universe, s.queue, stable);
      }
    }
  }

  /** With `flushing` left set, no operation ever schedules a flush again. */
  lemma {:induction false} StuckForever(s: State, ops: seq<Op>)
    requires s.flushing && s.microtasks == 0
    ensures ApplyAll(s, ops).flushing && ApplyAll(s, ops).microtasks == 0
    decreases |ops|
  {
    if |ops| > 0 {
      StuckForever(Apply(s, ops[0]), ops[1..]);
    }
  }

  /** A throwing job ends the flush for good: the rest of the queue and all later jobs never run. */
  lemma {:induction false} ThrowStopsScheduler(s: State, script: Script, universe: set<Job>, later: seq<Op>)
    requires Inv(s) && s.pending && !s.flushing && Well(s.queue, universe) && Closed(script, universe)
    requires Walk(Started(s), 0, script, universe).aborted
    ensures ApplyAll(Ended(s, script, universe), later).microtasks == 0
  {
    WalkFlushing(Started(s), 0, script, universe);
    StuckForever(Ended(s, script, universe), later);
  }

  /** After a flush, jobs can be scheduled again if and only if none of the jobs it ran has thrown. */
  lemma {:induction false} SchedulesAgainIff(s: State, script: Script, universe: set<Job>)
    requires Inv(s) && s.pending && !s.flushing && Well(s.queue, universe) && Closed(script, universe)
    ensures (exists later :: ApplyAll(Ended(s, script, universe), later).microtasks > 0)
       <==> !SomeThrows(Walk(Started(s), 0, script, universe).ran, 0, script)
  {
    var t := Ended(s, script, universe);
    WalkAbortsIff(Started(s), 0, script, universe);
    WalkFlushing(Started(s), 0, script, universe);
    if Walk(Started(s), 0, script, universe).aborted {
      forall later ensures ApplyAll(t, later).microtasks == 0 {
        StuckForever(t, later);
      }
    } else {
      EnqueueSchedules(t, Job(0));
    }
  }

  lemma {:induction false} EnqueueSchedules(s: State, job: Job)
    requires !s.flushing && !s.pending
    ensures ApplyAll(s, [Enqueue(job)]).microtasks > 0
  {
    var later := [Enqueue(job)];
    assert later[1..] == [];
    assert ApplyAll(s, later) == ApplyAll(Apply(s, later[0]), []);
  }

  /** A job that takes itself out makes the flush skip the job behind it. */
  lemma {:induction false} SelfDequeueSkipsNext(a: Job, b: Job)
    requires a != b
    ensures var script := Script((j, at) => if j == a then [Dequeue(a)] else [], (j, at) => false);
            var s := State([a, b], -1, true, false, 1);
            Inv(s) && Closed(script, {a, b}) && Walk(Started(s), 0, script, {a, b}).ran == [a]
  {
    var script := Script((j, at) => if j == a then [Dequeue(a)] else [], (j, at) => false);
    var s := Started(State([a, b], -1, true, false, 1));
    var ops := script.ops(a, 0);
    assert ops == [Dequeue(a)] && ops[1..] == [];
    assert Remove([a, b], 0) == [b];
    assert ApplyAll(s, ops).queue == [b];
  }

  /** The job does not stand behind the place flushed last. */
  ghost predicate Unqueued(s: State, job: Job) {
    forall k :: 0 <= k < |s.queue| && s.lastFlushed < k ==> s.queue[k] != job
  }

  lemma {:induction false} DequeueTakesOut(s: State, job: Job)
    requires Distinct(s.queue)
    ensures Unqueued(Apply(s, Dequeue(job)), job)
  {
    var i, t := IndexOf(s.queue, job), Apply(s, Dequeue(job));
    if i != -1 && i > s.lastFlushed {
      RemoveDistinct(s.queue, i);
      forall k | 0 <= k < |t.queue|
        ensures t.queue[k] != job
      {
        assert t.queue[k] in t.queue;
      }
    }
  }

  class Scheduler {
    var queue: seq<Job>
    var lastFlushed: int
    var pending: bool
    var flushing: bool
    var microtasks: nat

    ghost function Abs(): State
      reads this
    {
      State(queue, lastFlushed, pending, flushing, microtasks)
    }

    constructor ()
      ensures Inv(Abs()) && queue == []
    {
      queue, lastFlushed, pending, flushing, microtasks := [], -1, false, false, 0;
    }

    method Enqueue(job: Job)
      modifies this
      ensures Abs() == Apply(old(Abs()), Op.Enqueue(job)) && (old(Inv(Abs())) ==> Inv(Abs()))
      ensures job in queue && old(queue) <= queue && (!flushing ==> pending)
    {
      if job !in queue {
        queue := queue + [job];
      }
      if !flushing && !pending {
        pending := true;
        microtasks := microtasks + 1;
      }
    }

    method Dequeue(job: Job)
      modifies `queue
      ensures Abs() == Apply(old(Abs()), Op.Dequeue(job)) && (old(Inv(Abs())) ==> Inv(Abs()))
      ensures old(Inv(Abs())) ==> Unqueued(Abs(), job)
    {
      if Inv(Abs()) {
        ApplyKeepsInv(Abs(), Op.Dequeue(job));
        DequeueTakesOut(Abs(), job);
      }
      var i := IndexOf(queue, job);
      if i != -1 && i > lastFlushed {
        queue := Remove(queue, i);
      }
    }

    /** Runs one job: it performs its queue operations. */
    method RunJob(ops: seq<Op>)
      modifies this
      ensures Abs() == ApplyAll(old(Abs()), ops)
    {
      for i := 0 to |ops|
        invariant ApplyAll(Abs(), ops[i..]) == ApplyAll(old(Abs()), ops)
      {
        match ops[i]
        case Enqueue(job) => Enqueue(job);
        case Dequeue(job) => Dequeue(job);
      }
    }

    /** Runs the job at index `e` and, unless it throws, marks it as flushed. */
    method RunAt(e: nat, script: Script, ghost universe: set<Job>) returns (job: Job, threw: bool)
      requires e < |queue| && Well(queue, universe) && Closed(script, universe)
      modifies this
      ensures Well(queue, universe) && e < |universe|
      ensures var w := Walk(old(Abs()), e, script, universe);
              if threw then w.ran == [job] && w.aborted && w.state == Abs()
              else var rest := Walk(Abs(), e + 1, script, universe);
                   w.ran == [job] + rest.ran && w.aborted == rest.aborted && w.state == rest.state
    {
      job := queue[e];
      ApplyAllWell(Abs(), script.ops(job, e), universe);
      QueueBounded(queue, universe);
      RunJob(script.ops(job, e));
      threw := script.throws(job, e);
      if !threw {
        lastFlushed := e;
      }
    }

    /** The loop of the flush. */
    method RunAll(script: Script, ghost universe: set<Job>) returns (ran: seq<Job>, aborted: bool)
      requires Well(queue, universe) && Closed(script, universe)
      modifies this
      ensures var w := Walk(old(Abs()), 0, script, universe);
              ran == w.ran && aborted == w.aborted && Abs() == w.state
    {
      ghost var goal := Walk(Abs(), 0, script, universe);
      var e := 0;
      ran := [];
      while e < |queue|
        invariant Well(queue, universe)
        invariant Completes(ran, Walk(Abs(), e, script, universe), goal)
        decreases |universe| - e
      {
        ghost var soFar := ran;
        var job;
        job, aborted := RunAt(e, script, universe);
        ran := ran + [job];
        if aborted {
          return;
        }
        e := e + 1;
        Assoc(soFar, [job], Walk(Abs(), e, script, universe).ran);
      }
      aborted := false;
    }

    /** The flush microtask. */
    method Flush(script: Script, ghost universe: set<Job>) returns (ran: seq<Job>, aborted: bool)
      requires microtasks > 0 && Well(queue, universe) && Closed(script, universe)
      modifies this
      ensures var w := Walk(Started(old(Abs())), 0, script, universe);
              && ran == w.ran && aborted == w.aborted
              && Abs() == if w.aborted then w.state else Cleared(w.state)
    {
      microtasks := microtasks - 1;
      pending, flushing := false, true;
      ran, aborted := RunAll(script, universe);
      if !aborted {
        queue, lastFlushed, flushing := [], -1, false;
      }
    }
  }
}
