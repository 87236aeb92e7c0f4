/**
 * The list of filters that the protocol threads fill. Adding to it is not atomic, so threads that add at the same time
 * overwrite each other.
 */
module FilterList {
  import opened StartupGate

  /** Another thread has written to the list since this one looked where it ends. */
  predicate Overlaps(s: State, a: Action) {
    a.Go? && a.thread < |s.threads| && s.threads[a.thread].Writing? && s.threads[a.thread].at != s.size
  }

  predicate NeverOverlaps(cfg: Config, s: State, acts: seq<Action>)
    requires Knows(cfg, s)
    decreases |acts|
  {
    |acts| > 0 ==> !Overlaps(s, acts[0]) && NeverOverlaps(cfg, Step(cfg, s, acts[0]), acts[1..])
  }

  predicate IsWritten(cfg: Config, s: State, f: Filter)
    requires Knows(cfg, s)
  {
    f.thread < |s.threads| && f.plugin < Written(cfg, s.threads[f.thread], f.thread)
  }

  /** The list holds every filter written, once. */
  ghost predicate Clean(cfg: Config, s: State)
    requires Knows(cfg, s)
  {
    && |s.slots| == s.size
    && (forall f :: f in s.slots <==> IsWritten(cfg, s, f))
    && (forall p, q :: 0 <= p < q < |s.slots| ==> s.slots[p] != s.slots[q])
    && (forall i :: 0 <= i < |s.threads| && s.threads[i].Writing? ==> s.threads[i].at <= s.size)
  }

  /** Some filter was written and is gone. */
  ghost predicate Lost(cfg: Config, s: State)
    requires Knows(cfg, s)
  {
    exists f :: IsWritten(cfg, s, f) && f !in s.slots
  }

  lemma {:induction false} StepKeepsWritten(cfg: Config, s: State, a: Action, f: Filter)
    requires Inv(cfg, s)
    ensures IsWritten(cfg, s, f) ==> IsWritten(cfg, Step(cfg, s, a), f)
  {
  }

  lemma {:induction false} WriteKeepsClean(cfg: Config, s: State, i: nat)
    requires Inv(cfg, s) && Clean(cfg, s) && i < |s.threads| && s.threads[i].Writing? && s.threads[i].at == s.size
    ensures Clean(cfg, Go1(cfg, s, i))
  {
    var r := Go1(cfg, s, i);
    var g := Filter(i, s.threads[i].done);
    assert !IsWritten(cfg, s, g);
    forall f
      ensures IsWritten(cfg, r, f) <==> IsWritten(cfg, s, f) || f == g
    {
    }
  }

  /** Every other step leaves the list and what each thread has written alone. */
  lemma {:induction false} MoveKeepsClean(cfg: Config, s: State, i: nat, r: State)
    requires Inv(cfg, s) && Clean(cfg, s) && i < |s.threads| && Knows(cfg, r)
    requires r.slots == s.slots && r.size == s.size && r.threads == s.threads[i := r.threads[i]]
    requires Written(cfg, r.threads[i], i) == Written(cfg, s.threads[i], i)
    requires r.threads[i].Writing? ==> r.threads[i].at <= r.size
    ensures Clean(cfg, r)
  {
    forall f
      ensures IsWritten(cfg, r, f) <==> IsWritten(cfg, s, f)
    {
    }
  }

  lemma {:induction false} StepKeepsClean(cfg: Config, s: State, a: Action)
    requires Inv(cfg, s) && Clean(cfg, s) && !Overlaps(s, a)
    ensures Clean(cfg, Step(cfg, s, a))
  {
    if a.Go? && a.thread < |s.threads| && s.threads[a.thread].Writing? {
      WriteKeepsClean(cfg, s, a.thread);
    } else if !a.Check? && a.thread < |s.threads| {
      MoveKeepsClean(cfg, s, a.thread, Step(cfg, s, a));
    }
  }

  /** The first write that overlaps another one overwrites a filter. */
  lemma {:induction false} OverlapLoses(cfg: Config, s: State, a: Action)
    requires Inv(cfg, s) && Clean(cfg, s) && Overlaps(s, a)
    ensures Lost(cfg, Step(cfg, s, a))
  {
    var at := s.threads[a.thread].at;
    var f := s.slots[at];
    StepKeepsWritten(cfg, s, a, f);
    assert f in s.slots && !IsWritten(cfg, s, Filter(a.thread, s.threads[a.thread].done));
    assert f !in Step(cfg, s, a).slots;
  }

  lemma {:induction false} StepKeepsLost(cfg: Config, s: State, a: Action)
    requires Inv(cfg, s) && Lost(cfg, s)
    ensures Lost(cfg, Step(cfg, s, a))
  {
    var f :| IsWritten(cfg, s, f) && f !in s.slots;
    StepKeepsWritten(cfg, s, a, f);
    assert f !in Step(cfg, s, a).slots;
  }

  lemma {:induction false} RunKeepsLost(cfg: Config, s: State, acts: seq<Action>)
    requires Inv(cfg, s) && Lost(cfg, s)
    ensures Lost(cfg, Run(cfg, s, acts))
    decreases |acts|
  {
    if |acts| > 0 {
      StepKeepsInv(cfg, s, acts[0]);
      StepKeepsLost(cfg, s, acts[0]);
      RunKeepsLost(cfg, Step(cfg, s, acts[0]), acts[1..]);
    }
  }

  lemma {:induction false} CleanIff(cfg: Config, s: State, acts: seq<Action>)
    requires Inv(cfg, s) && Clean(cfg, s)
    ensures if NeverOverlaps(cfg, s, acts) then Clean(cfg, Run(cfg, s, acts)) else Lost(cfg, Run(cfg, s, acts))
    decreases |acts|
  {
    if |acts| > 0 {
      var r := Step(cfg, s, acts[0]);
      StepKeepsInv(cfg, s, acts[0]);
      if Overlaps(s, acts[0]) {
        OverlapLoses(cfg, s, acts[0]);
        RunKeepsLost(cfg, r, acts[1..]);
      } else {
        StepKeepsClean(cfg, s, acts[0]);
        CleanIff(cfg, r, acts[1..]);
      }
    }
  }

  /** The list that is loaded when the gate opens holds the filters of all plugins. */
  ghost predicate Complete(cfg: Config, s: State)
    requires Knows(cfg, s)
  {
    forall i, k :: 0 <= i < |cfg.plugins| && 0 <= k < cfg.plugins[i] ==> Filter(i, k) in s.slots[..s.size]
  }

  /** Behind the open gate no filter is missing exactly when no two threads added to the list at the same time. */
  lemma {:induction false} OpenListCompleteIff(cfg: Config, init: State, acts: seq<Action>)
    requires Initial(cfg, init) && Run(cfg, init, acts).open
    ensures Complete(cfg, Run(cfg, init, acts)) <==> NeverOverlaps(cfg, init, acts)
  {
    var s := Run(cfg, init, acts);
    InitialInv(cfg, init);
    CleanIff(cfg, init, acts);
    OpenMeansAllStarted(cfg, init, acts);
    if NeverOverlaps(cfg, init, acts) {
      assert s.slots[..s.size] == s.slots;
      forall i, k | 0 <= i < |cfg.plugins| && 0 <= k < cfg.plugins[i]
        ensures Filter(i, k) in s.slots[..s.size]
      {
        assert IsWritten(cfg, s, Filter(i, k));
      }
    } else {
      var f :| IsWritten(cfg, s, f) && f !in s.slots;
      assert f !in s.slots[..s.size] && f == Filter(f.thread, f.plugin);
    }
  }

  // ---------------------------------------------------------------------------------------------
  // A run that loses a filter
  // ---------------------------------------------------------------------------------------------

  predicate AboutToAdd(cfg: Config, s: State, i: nat) {
    |s.threads| == |cfg.plugins| && i < |s.threads| && s.threads[i].Adding? && s.threads[i].done < cfg.plugins[i]
  }

  /** Whenever two threads are about to add a filter, they may overlap. */
  lemma {:induction false} OverlapHappens(cfg: Config, s: State, i: nat, j: nat)
    requires Knows(cfg, s) && i != j && AboutToAdd(cfg, s, i) && AboutToAdd(cfg, s, j)
    ensures Overlaps(Step(cfg, Step(cfg, Step(cfg, s, Go(j)), Go(i)), Go(i)), Go(j))
  {
    var one := Step(cfg, s, Go(j));
    assert one.threads[j] == Writing(s.threads[j].done, s.size) && one.threads[i] == s.threads[i];
    var two := Step(cfg, one, Go(i));
    assert two.threads[i] == Writing(s.threads[i].done, s.size) && two.threads[j] == one.threads[j];
  }

  lemma {:induction false} OverlapsLater(cfg: Config, s: State, a: seq<Action>, b: seq<Action>)
    requires Knows(cfg, s) && !NeverOverlaps(cfg, Run(cfg, s, a), b)
    ensures !NeverOverlaps(cfg, s, a + b)
    decreases |a|
  {
    if |a| == 0 {
      assert a + b == b;
    } else {
      assert (a + b)[1..] == a[1..] + b;
      OverlapsLater(cfg, Step(cfg, s, a[0]), a[1..], b);
    }
  }

  /** Two steps take a thread from the start to its first filter. */
  lemma {:induction false} ReachesAdding(cfg: Config, s: State, i: nat)
    requires Knows(cfg, s) && i < |s.threads| && s.threads[i] == Starting
    ensures var r := Run(cfg, s, [Go(i), Go(i)]);
            r.threads == s.threads[i := Adding(0)] && r.size == s.size
  {
    var acts, one := [Go(i), Go(i)], Step(cfg, s, Go(i));
    assert acts[1..] == [Go(i)] && [Go(i)][1..] == [];
    assert Run(cfg, s, acts) == Run(cfg, one, [Go(i)]);
    assert Run(cfg, one, [Go(i)]) == Run(cfg, Step(cfg, one, Go(i)), []);
  }

  lemma {:induction false} OverlapFromAdding(cfg: Config, s: State, i: nat, j: nat)
    requires Knows(cfg, s) && i != j && AboutToAdd(cfg, s, i) && AboutToAdd(cfg, s, j)
    ensures !NeverOverlaps(cfg, s, [Go(j), Go(i), Go(i), Go(j)])
  {
    OverlapHappens(cfg, s, i, j);
    var one := Step(cfg, s, Go(j));
    var two := Step(cfg, one, Go(i));
    var three := Step(cfg, two, Go(i));
    assert [Go(j), Go(i), Go(i), Go(j)][1..] == [Go(i), Go(i), Go(j)];
    assert [Go(i), Go(i), Go(j)][1..] == [Go(i), Go(j)] && [Go(i), Go(j)][1..] == [Go(j)];
    assert !NeverOverlaps(cfg, three, [Go(j)]);
    assert !NeverOverlaps(cfg, two, [Go(i), Go(j)]);
    assert !NeverOverlaps(cfg, one, [Go(i), Go(i), Go(j)]);
  }

  ghost predicate NoneDead(s: State) {
    forall i :: 0 <= i < |s.threads| ==> !Dead(s.threads[i])
  }

  lemma {:induction false} GoingKeepsAlive(cfg: Config, s: State, acts: seq<Action>)
    requires Knows(cfg, s) && NoneDead(s) && forall a :: a in acts ==> a.Go?
    ensures NoneDead(Run(cfg, s, acts))
    decreases |acts|
  {
    if |acts| > 0 {
      assert acts[0].Go?;
      GoingKeepsAlive(cfg, Step(cfg, s, acts[0]), acts[1..]);
    }
  }

  /** From the start, two threads with filters to add can overlap. */
  lemma {:induction false} OverlappingRun(cfg: Config, init: State, i: nat, j: nat) returns (acts: seq<Action>)
    requires Initial(cfg, init) && i < |cfg.plugins| && j < |cfg.plugins| && i != j
    requires cfg.plugins[i] > 0 && cfg.plugins[j] > 0
    ensures !NeverOverlaps(cfg, init, acts) && forall a :: a in acts ==> a.Go?
  {
    var first, second := [Go(i), Go(i)], [Go(j), Go(j)];
    ReachesAdding(cfg, init, i);
    ReachesAdding(cfg, Run(cfg, init, first), j);
    RunConcat(cfg, init, first, second);
    var meet := [Go(j), Go(i), Go(i), Go(j)];
    OverlapFromAdding(cfg, Run(cfg, init, first + second), i, j);
    OverlapsLater(cfg, init, first + second, meet);
    acts := first + second + meet;
  }

  /** So the gate can open, from the start, with a filter missing. */
  lemma {:induction false} OpensWithoutFilter(cfg: Config, init: State, i: nat, j: nat) returns (acts: seq<Action>)
    requires Initial(cfg, init) && i < |cfg.plugins| && j < |cfg.plugins| && i != j
    requires cfg.plugins[i] > 0 && cfg.plugins[j] > 0
    ensures Run(cfg, init, acts).open && !Complete(cfg, Run(cfg, init, acts))
  {
    InitialInv(cfg, init);
    var overlap := OverlappingRun(cfg, init, i, j);
    var s := Run(cfg, init, overlap);
    RunKeepsInv(cfg, init, overlap);
    GoingKeepsAlive(cfg, init, overlap);
    var count := AllCount(cfg, s, |s.threads|);
    OpensIff(cfg, Run(cfg, s, count));
    acts := overlap + (count + [Check]);
    RunConcat(cfg, s, count, [Check]);
    RunConcat(cfg, init, overlap, count + [Check]);
    assert Run(cfg, Run(cfg, s, count), [Check]) == Run(cfg, Step(cfg, Run(cfg, s, count), Check), [Check][1..]);
    OverlapStays(cfg, init, overlap, count + [Check]);
    OpenListCompleteIff(cfg, init, acts);
  }

  lemma {:induction false} OverlapStays(cfg: Config, s: State, a: seq<Action>, b: seq<Action>)
    requires Knows(cfg, s) && !NeverOverlaps(cfg, s, a)
    ensures !NeverOverlaps(cfg, s, a + b)
    decreases |a|
  {
    assert (a + b)[1..] == a[1..] + b;
    if !Overlaps(s, a[0]) {
      OverlapStays(cfg, Step(cfg, s, a[0]), a[1..], b);
    }
  }
}
