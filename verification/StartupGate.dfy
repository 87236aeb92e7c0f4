/**
 * Start-up: one thread per protocol starts it, registers its instance, adds the filters of its plugins to a shared
 * list and counts itself in; one more thread waits for the count before it loads the filters and opens the API. The
 * threads interleave freely. Adding to the list is not atomic: a thread takes the length and then writes there.
 */
module StartupGate {
  datatype Filter = Filter(thread: nat, plugin: nat)

  /** The number of plugins of each protocol. */
  datatype Config = Config(plugins: seq<nat>)

  /** Where a protocol thread stands; `done` counts the filters it has added. */
  datatype Pc =
    | Starting
    | Registering
    | Adding(done: nat)
    | Writing(done: nat, at: nat)
    | Counting
    | Serving                  // counted in, its service not yet published
    | Served
    | Unserved                 // failed behind the count
    | Returned                 // returned early
    | Failed(done: nat)        // failed before the count

  datatype State = State(
    threads: seq<Pc>,
    registered: set<nat>,
    slots: seq<Filter>, size: nat,      // the list of filters and its length
    started: nat,
    services: set<nat>,
    open: bool)

  datatype Action = Go(thread: nat) | Return(thread: nat) | Fail(thread: nat) | Check

  predicate Initial(cfg: Config, s: State) {
    && |s.threads| == |cfg.plugins| && (forall i :: 0 <= i < |s.threads| ==> s.threads[i] == Starting)
    && |s.registered| == |s.slots| == s.size == s.started == |s.services| == 0 && !s.open
  }

  // ---------------------------------------------------------------------------------------------
  // Steps
  // ---------------------------------------------------------------------------------------------

  predicate Knows(cfg: Config, s: State) {
    |s.threads| == |cfg.plugins| && s.size <= |s.slots|
  }

  function Go1(cfg: Config, s: State, i: nat): State
    requires Knows(cfg, s) && i < |s.threads|
  {
    match s.threads[i]
    case Starting => s.(threads := s.threads[i := Registering])
    case Registering => s.(threads := s.threads[i := Adding(0)], registered := s.registered + {i})
    case Adding(k) => s.(threads := s.threads[i := if k < cfg.plugins[i] then Writing(k, s.size) else Counting])
    case Writing(k, at) => Write(s, i, k, at)
    case Counting => s.(threads := s.threads[i := Serving], started := s.started + 1)
    case Serving => s.(threads := s.threads[i := Served], services := s.services + {i})
    case _ => s
  }

  /** The second half of adding to the list: the element goes where the list ended when the thread looked. */
  function Write(s: State, i: nat, k: nat, at: nat): State
    requires i < |s.threads| && s.size <= |s.slots|
  {
    var added := s.(threads := s.threads[i := Adding(k + 1)]);
    if at < |s.slots| then added.(slots := s.slots[at := Filter(i, k)], size := at + 1)
    else added.(slots := s.slots + [Filter(i, k)], size := |s.slots| + 1)
  }

  function Fail1(s: State, i: nat): State
    requires i < |s.threads|
  {
    match s.threads[i]
    case Starting => s.(threads := s.threads[i := Failed(0)])
    case Registering => s.(threads := s.threads[i := Failed(0)])
    case Adding(k) => s.(threads := s.threads[i := Failed(k)])
    case Writing(k, _) => s.(threads := s.threads[i := Failed(k)])
    case Serving => s.(threads := s.threads[i := Unserved])
    case _ => s
  }

  function Step(cfg: Config, s: State, a: Action): (r: State)
    requires Knows(cfg, s)
    ensures Knows(cfg, r)
  {
    match a
    case Go(i) => if i < |s.threads| then Go1(cfg, s, i) else s
    case Return(i) => if i < |s.threads| && s.threads[i] == Starting then s.(threads := s.threads[i := Returned]) else s
    case Fail(i) => if i < |s.threads| then Fail1(s, i) else s
    case Check => if s.started >= |s.threads| then s.(open := true) else s
  }

  function Run(cfg: Config, s: State, acts: seq<Action>): (r: State)
    requires Knows(cfg, s)
    ensures Knows(cfg, r)
    decreases |acts|
  {
    if |acts| == 0 then s else Run(cfg, Step(cfg, s, acts[0]), acts[1..])
  }

  // ---------------------------------------------------------------------------------------------
  // The gate
  // ---------------------------------------------------------------------------------------------

  predicate Counted(p: Pc) {
    p == Serving || p == Served || p == Unserved
  }

  predicate Dead(p: Pc) {
    p == Returned || p.Failed?
  }

  function CountOf(ps: seq<Pc>): (n: nat)
    ensures n <= |ps|
  {
    if |ps| == 0 then 0 else (if Counted(ps[0]) then 1 else 0) + CountOf(ps[1..])
  }

  lemma {:induction false} CountUpdate(ps: seq<Pc>, i: nat, p: Pc)
    requires i < |ps|
    ensures CountOf(ps[i := p]) + (if Counted(ps[i]) then 1 else 0) == CountOf(ps) + (if Counted(p) then 1 else 0)
  {
    if i > 0 {
      assert ps[i := p][1..] == ps[1..][i - 1 := p];
      CountUpdate(ps[1..], i - 1, p);
    } else {
      assert ps[i := p][1..] == ps[1..];
    }
  }

  lemma {:induction false} CountAll(ps: seq<Pc>)
    ensures CountOf(ps) == |ps| <==> forall i :: 0 <= i < |ps| ==> Counted(ps[i])
  {
    if |ps| > 0 {
      CountAll(ps[1..]);
    }
  }

  predicate Past(p: Pc) {
    p.Adding? || p.Writing? || p == Counting || Counted(p)
  }

  /** How many filters thread `i` has written. */
  function Written(cfg: Config, p: Pc, i: nat): nat
    requires i < |cfg.plugins|
  {
    match p
    case Adding(k) => k
    case Writing(k, _) => k
    case Failed(k) => k
    case Counting => cfg.plugins[i]
    case Serving => cfg.plugins[i]
    case Served => cfg.plugins[i]
    case Unserved => cfg.plugins[i]
    case Starting => 0
    case Registering => 0
    case Returned => 0
  }

  ghost predicate Inv(cfg: Config, s: State) {
    && Knows(cfg, s)
    && s.started == CountOf(s.threads)
    && (s.open ==> s.started == |s.threads|)
    && (forall i :: 0 <= i < |s.threads| && Past(s.threads[i]) ==> i in s.registered)
    && (forall i :: 0 <= i < |s.threads| ==> Written(cfg, s.threads[i], i) <= cfg.plugins[i])
    && (forall i :: 0 <= i < |s.threads| && s.threads[i].Writing? ==> s.threads[i].done < cfg.plugins[i])
    && Published(s)
  }

  /** The services published are those of the threads that are through. */
  ghost predicate Published(s: State) {
    forall i: nat :: i in s.services <==> i < |s.threads| && s.threads[i] == Served
  }

  /** One thread moves on. */
  lemma {:induction false} MoveKeepsInv(cfg: Config, s: State, i: nat, r: State)
    requires Inv(cfg, s) && Knows(cfg, r) && i < |s.threads| && r.threads == s.threads[i := r.threads[i]]
    requires s.threads[i] != Served || r.threads[i] == Served
    requires r.services == if r.threads[i] == Served then s.services + {i} else s.services
    requires r.open == s.open && s.registered <= r.registered && (Past(r.threads[i]) ==> i in r.registered)
    requires Written(cfg, r.threads[i], i) <= cfg.plugins[i]
    requires r.threads[i].Writing? ==> r.threads[i].done < cfg.plugins[i]
    requires Counted(s.threads[i]) ==> Counted(r.threads[i])
    requires r.started == s.started + if Counted(r.threads[i]) && !Counted(s.threads[i]) then 1 else 0
    ensures Inv(cfg, r)
  {
    CountUpdate(s.threads, i, r.threads[i]);
    CountAll(s.threads);
  }

  lemma {:induction false} GoKeepsInv(cfg: Config, s: State, i: nat)
    requires Inv(cfg, s) && i < |s.threads|
    ensures Inv(cfg, Go1(cfg, s, i))
  {
    MoveKeepsInv(cfg, s, i, Go1(cfg, s, i));
  }

  lemma {:induction false} FailKeepsInv(cfg: Config, s: State, i: nat)
    requires Inv(cfg, s) && i < |s.threads|
    ensures Inv(cfg, Fail1(s, i))
  {
    MoveKeepsInv(cfg, s, i, Fail1(s, i));
  }

  lemma {:induction false} StepKeepsInv(cfg: Config, s: State, a: Action)
    requires Inv(cfg, s)
    ensures Inv(cfg, Step(cfg, s, a))
  {
    match a
    case Go(i) => if i < |s.threads| { GoKeepsInv(cfg, s, i); }
    case Return(i) => if i < |s.threads| { MoveKeepsInv(cfg, s, i, Step(cfg, s, a)); }
    case Fail(i) => if i < |s.threads| { FailKeepsInv(cfg, s, i); }
    case Check => CountAll(s.threads);
  }

  lemma {:induction false} RunKeepsInv(cfg: Config, s: State, acts: seq<Action>)
    requires Inv(cfg, s)
    ensures Inv(cfg, Run(cfg, s, acts))
    decreases |acts|
  {
    if |acts| > 0 {
      StepKeepsInv(cfg, s, acts[0]);
      RunKeepsInv(cfg, Step(cfg, s, acts[0]), acts[1..]);
    }
  }

  lemma {:induction false} NoneCounted(ps: seq<Pc>)
    requires forall i :: 0 <= i < |ps| ==> ps[i] == Starting
    ensures CountOf(ps) == 0
  {
    if |ps| > 0 {
      NoneCounted(ps[1..]);
    }
  }

  lemma {:induction false} InitialInv(cfg: Config, s: State)
    requires Initial(cfg, s)
    ensures Inv(cfg, s)
  {
    NoneCounted(s.threads);
  }

  /**
   * In every interleaving, an open gate means that every thread has counted itself in, has registered its instance and
   * has added the filters of all its plugins.
   */
  lemma {:induction false} OpenMeansAllStarted(cfg: Config, init: State, acts: seq<Action>)
    requires Initial(cfg, init) && Run(cfg, init, acts).open
    ensures var s := Run(cfg, init, acts);
            forall i :: 0 <= i < |s.threads| ==>
              Counted(s.threads[i]) && i in s.registered && Written(cfg, s.threads[i], i) == cfg.plugins[i]
  {
    InitialInv(cfg, init);
    RunKeepsInv(cfg, init, acts);
    CountAll(Run(cfg, init, acts).threads);
  }

  /** The waiting thread goes through exactly when every thread has counted itself in. */
  lemma {:induction false} OpensIff(cfg: Config, s: State)
    requires Inv(cfg, s)
    ensures Step(cfg, s, Check).open <==> forall i :: 0 <= i < |s.threads| ==> Counted(s.threads[i])
  {
    CountAll(s.threads);
  }

  lemma {:induction false} DeadStays(cfg: Config, s: State, i: nat, a: Action)
    requires Knows(cfg, s) && i < |s.threads| && Dead(s.threads[i])
    ensures Step(cfg, s, a).threads[i] == s.threads[i]
  {
  }

  /** A thread that returned early or failed before its count stays so, and the gate stays shut for ever. */
  lemma {:induction false} DeadThreadShutsGate(cfg: Config, s: State, i: nat, acts: seq<Action>)
    requires Inv(cfg, s) && i < |s.threads| && Dead(s.threads[i])
    ensures !Run(cfg, s, acts).open && Run(cfg, s, acts).threads[i] == s.threads[i]
    decreases |acts|
  {
    CountAll(s.threads);
    if |acts| > 0 {
      StepKeepsInv(cfg, s, acts[0]);
      DeadStays(cfg, s, i, acts[0]);
      DeadThreadShutsGate(cfg, Step(cfg, s, acts[0]), i, acts[1..]);
    }
  }

  /** So a thread that fails before its count, or returns at its start, keeps the gate shut in every later run. */
  lemma {:induction false} FailureShutsGate(cfg: Config, init: State, acts: seq<Action>, i: nat, later: seq<Action>)
    requires Initial(cfg, init) && i < |cfg.plugins|
    requires var p := Run(cfg, init, acts).threads[i]; !Counted(p) && p != Counting
    ensures !Run(cfg, Step(cfg, Run(cfg, init, acts), Fail(i)), later).open
    ensures Run(cfg, init, acts).threads[i] == Starting ==>
              !Run(cfg, Step(cfg, Run(cfg, init, acts), Return(i)), later).open
  {
    var s := Run(cfg, init, acts);
    InitialInv(cfg, init);
    RunKeepsInv(cfg, init, acts);
    FailKeepsInv(cfg, s, i);
    DeadThreadShutsGate(cfg, Step(cfg, s, Fail(i)), i, later);
    if s.threads[i] == Starting {
      StepKeepsInv(cfg, s, Return(i));
      DeadThreadShutsGate(cfg, Step(cfg, s, Return(i)), i, later);
    }
  }

  /** A thread that fails between its count and its publication never publishes its service. */
  lemma {:induction false} FailureHidesService(cfg: Config, s: State, i: nat, later: seq<Action>)
    requires Inv(cfg, s) && i < |s.threads| && s.threads[i] == Serving
    ensures i !in Run(cfg, Step(cfg, s, Fail(i)), later).services
  {
    StepKeepsInv(cfg, s, Fail(i));
    UnservedStays(cfg, Step(cfg, s, Fail(i)), i, later);
  }

  lemma {:induction false} UnservedStays(cfg: Config, s: State, i: nat, acts: seq<Action>)
    requires Inv(cfg, s) && i < |s.threads| && s.threads[i] == Unserved
    ensures i !in Run(cfg, s, acts).services
    decreases |acts|
  {
    if |acts| > 0 {
      StepKeepsInv(cfg, s, acts[0]);
      UnservedStays(cfg, Step(cfg, s, acts[0]), i, acts[1..]);
    }
  }

  // ---------------------------------------------------------------------------------------------
  // Publishing the services
  // ---------------------------------------------------------------------------------------------

  /** The thread has counted itself in, and has not published its service or has failed to. */
  predicate Unpublished(p: Pc) {
    p == Serving || p == Unserved
  }

  /**
   * In every interleaving, the services are all published when the gate opens if and only if no thread stands, or has
   * failed, between its count and its publication.
   */
  lemma {:induction false} OpensWithServicesIff(cfg: Config, init: State, acts: seq<Action>)
    requires Initial(cfg, init) && Step(cfg, Run(cfg, init, acts), Check).open
    ensures var s := Run(cfg, init, acts);
            (forall i :: 0 <= i < |s.threads| ==> i in s.services) <==>
            (forall i :: 0 <= i < |s.threads| ==> !Unpublished(s.threads[i]))
  {
    var s := Run(cfg, init, acts);
    InitialInv(cfg, init);
    RunKeepsInv(cfg, init, acts);
    OpensIff(cfg, s);
    CountAll(s.threads);
    forall i | 0 <= i < |s.threads|
      ensures i in s.services <==> !Unpublished(s.threads[i])
    {
      assert Counted(s.threads[i]);
    }
  }

  lemma {:induction false} RunConcat(cfg: Config, s: State, a: seq<Action>, b: seq<Action>)
    requires Knows(cfg, s)
    ensures Run(cfg, s, a + b) == Run(cfg, Run(cfg, s, a), b)
    decreases |a|
  {
    if |a| == 0 {
      assert a + b == b;
    } else {
      assert (a + b)[1..] == a[1..] + b;
      RunConcat(cfg, Step(cfg, s, a[0]), a[1..], b);
    }
  }

  /** How many steps a thread still has to go until it has counted itself in. */
  function Left(cfg: Config, p: Pc, i: nat): int
    requires i < |cfg.plugins|
  {
    match p
    case Starting => 2 * cfg.plugins[i] + 4
    case Registering => 2 * cfg.plugins[i] + 3
    case Adding(k) => 2 * (cfg.plugins[i] - k) + 2
    case Writing(k, _) => 2 * (cfg.plugins[i] - k) + 1
    case _ => 1
  }

  /** A thread that nothing stops counts itself in, whatever the others have done. */
  lemma {:induction false} ThreadCounts(cfg: Config, s: State, i: nat) returns (acts: seq<Action>)
    requires Inv(cfg, s) && i < |s.threads| && !Dead(s.threads[i])
    ensures var r := Run(cfg, s, acts);
            && Inv(cfg, r) && r.services == s.services && r.open == s.open
            && r.threads == s.threads[i := if Counted(s.threads[i]) then s.threads[i] else Serving]
    decreases if Counted(s.threads[i]) then 0 else Left(cfg, s.threads[i], i)
  {
    if Counted(s.threads[i]) {
      acts := [];
    } else {
      var next := Step(cfg, s, Go(i));
      StepKeepsInv(cfg, s, Go(i));
      GoMoves(cfg, s, i);
      var rest := ThreadCounts(cfg, next, i);
      acts := [Go(i)] + rest;
      RunConcat(cfg, s, [Go(i)], rest);
      assert Run(cfg, s, [Go(i)]) == Run(cfg, next, [Go(i)][1..]);
    }
  }

  lemma {:induction false} GoMoves(cfg: Config, s: State, i: nat)
    requires Inv(cfg, s) && i < |s.threads| && !Dead(s.threads[i]) && !Counted(s.threads[i])
    ensures var r := Step(cfg, s, Go(i));
            && r.services == s.services && r.open == s.open && r.threads == s.threads[i := r.threads[i]]
            && !Dead(r.threads[i]) && if Counted(r.threads[i]) then r.threads[i] == Serving
               else 0 <= Left(cfg, r.threads[i], i) < Left(cfg, s.threads[i], i)
    ensures Left(cfg, s.threads[i], i) > 0
  {
    assert Written(cfg, s.threads[i], i) <= cfg.plugins[i];
  }

  /** From any state without dead threads, all threads can count themselves in before any of them goes on. */
  lemma {:induction false} AllCount(cfg: Config, s: State, n: nat) returns (acts: seq<Action>)
    requires Inv(cfg, s) && n <= |s.threads| && forall i :: 0 <= i < |s.threads| ==> !Dead(s.threads[i])
    ensures var r := Run(cfg, s, acts);
            && Inv(cfg, r) && r.services == s.services && r.open == s.open && |r.threads| == |s.threads|
            && (forall i :: 0 <= i < n ==> r.threads[i] == if Counted(s.threads[i]) then s.threads[i] else Serving)
            && (forall i :: n <= i < |s.threads| ==> r.threads[i] == s.threads[i])
  {
    if n == 0 {
      acts := [];
    } else {
      var first := AllCount(cfg, s, n - 1);
      var r := Run(cfg, s, first);
      var last := ThreadCounts(cfg, r, n - 1);
      acts := first + last;
      RunConcat(cfg, s, first, last);
    }
  }

  /** From the start, with at least one thread, the gate can open before any service is published. */
  lemma {:induction false} OpensBeforeServices(cfg: Config, init: State) returns (acts: seq<Action>)
    requires Initial(cfg, init) && |cfg.plugins| > 0
    ensures var r := Step(cfg, Run(cfg, init, acts), Check); r.open && |r.services| == 0
  {
    InitialInv(cfg, init);
    acts := AllCount(cfg, init, |init.threads|);
    OpensIff(cfg, Run(cfg, init, acts));
  }

  /** Threads that have counted themselves in publish their services one after the other. */
  lemma {:induction false} AllPublish(cfg: Config, s: State, n: nat) returns (acts: seq<Action>)
    requires Inv(cfg, s) && n <= |s.threads| && !s.open
    requires forall i :: 0 <= i < |s.threads| ==> s.threads[i] == Serving
    ensures var r := Run(cfg, s, acts);
            && Inv(cfg, r) && !r.open && |r.threads| == |s.threads|
            && (forall i :: 0 <= i < n ==> r.threads[i] == Served)
            && (forall i :: n <= i < |s.threads| ==> r.threads[i] == Serving)
  {
    if n == 0 {
      acts := [];
    } else {
      var first := AllPublish(cfg, s, n - 1);
      var r := Run(cfg, s, first);
      StepKeepsInv(cfg, r, Go(n - 1));
      acts := first + [Go(n - 1)];
      RunConcat(cfg, s, first, [Go(n - 1)]);
      assert Run(cfg, r, [Go(n - 1)]) == Run(cfg, Step(cfg, r, Go(n - 1)), [Go(n - 1)][1..]);
    }
  }

  /** It can also open after all of them. */
  lemma {:induction false} OpensAfterServices(cfg: Config, init: State) returns (acts: seq<Action>)
    requires Initial(cfg, init)
    ensures var r := Step(cfg, Run(cfg, init, acts), Check);
            r.open && forall i :: 0 <= i < |r.threads| ==> i in r.services
  {
    InitialInv(cfg, init);
    var count := AllCount(cfg, init, |init.threads|);
    var s := Run(cfg, init, count);
    var publish := AllPublish(cfg, s, |s.threads|);
    acts := count + publish;
    RunConcat(cfg, init, count, publish);
    OpensIff(cfg, Run(cfg, init, acts));
  }
}
