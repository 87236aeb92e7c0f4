/**
 * The `nextTick` queue. Callbacks are drained by a timer; a callback may queue others, and may throw, in which case
 * a second timer, set at the start of the drain, resumes behind the callback that threw.
 */
module NextTick {
  import opened Options
  import opened Seqs

  /** Where the drain stands in its batch, -1 for before the first callback. */
  type Index = i: int | -1 <= i witness -1

  datatype Callback = Callback(id: nat)

  /**
   * `running` says that a callback is on the stack, at index `index` of the current queue. The timers are counted;
   * `called` and `ran` record the calls of `nextTick` and the callbacks started.
   */
  datatype State = State(
    queue: seq<Callback>,
    current: Option<seq<Callback>>,
    draining: bool,
    index: Index,
    running: bool,
    drainTimers: nat,
    resumeTimers: nat,
    called: seq<Callback>,
    ran: seq<Callback>)

  datatype Action = Call(callback: Callback) | FireDrain | FireResume | Return | Throw

  const INITIAL := State([], None, false, -1, false, 0, 0, [], [])

  /** The inner loop goes on behind the index: the next callback starts, or the next batch, or the drain ends. */
  function Continue(s: State): State
    requires s.current.Some?
  {
    var i := s.index + 1;
    var batch := s.current.value;
    if i < |batch| then s.(index := i, running := true, ran := s.ran + [batch[i]])
    else if |s.queue| > 0 then
      s.(current := Some(s.queue), queue := [], index := 0, running := true, ran := s.ran + [s.queue[0]])
    else s.(current := None, draining := false, index := -1, running := false,
            resumeTimers := if s.resumeTimers > 0 then s.resumeTimers - 1 else 0)
  }

  /** `drainQueue`: sets the resume timer and starts walking the queue. */
  function Drain(s: State): State {
    if s.draining then s
    else
      var t := s.(resumeTimers := s.resumeTimers + 1, draining := true);
      if |s.queue| == 0 then
        s.(current := None, draining := false)
      else Continue(t.(current := Some(t.queue), queue := []))
  }

  /** `cleanUpNextTick`: puts the broken-off batch back in front of the queue and drains again. */
  function Resume(s: State): State {
    if !(s.draining && s.current.Some?) then s
    else
      var t := s.(draining := false);
      var t := if |t.current.value| > 0 then t.(queue := t.current.value + t.queue) else t.(index := -1);
      if |t.queue| > 0 then Drain(t) else t
  }

  /** One event. Events that cannot happen in a state leave it alone. */
  function Step(s: State, a: Action): State {
    match a
    case Call(cb) =>
      var t := s.(queue := s.queue + [cb], called := s.called + [cb]);
      if |t.queue| == 1 && !t.draining then t.(drainTimers := t.drainTimers + 1) else t
    case FireDrain =>
      if s.running || s.drainTimers == 0 then s else Drain(s.(drainTimers := s.drainTimers - 1))
    case FireResume =>
      if s.running || s.resumeTimers == 0 then s else Resume(s.(resumeTimers := s.resumeTimers - 1))
    case Return =>
      if s.running && s.current.Some? then Continue(s.(running := false)) else s
    case Throw => s.(running := false)
  }

  /** The callbacks still to be started, in order. */
  function Pending(s: State): seq<Callback> {
    (if s.current.Some? && -1 <= s.index < |s.current.value| then s.current.value[s.index + 1..] else []) + s.queue
  }

  /**
   * Every callback asked for has been started or is pending, in call order; and pending callbacks always have a
   * drain on the stack or a timer to start one.
   */
  ghost predicate Inv(s: State) {
    s.called == s.ran + Pending(s) && Timed(s)
  }

  predicate Timed(s: State) {
    && (s.running ==> s.draining)
    && (if s.draining then
          s.current.Some? && 0 <= s.index < |s.current.value| && s.resumeTimers == 1 && s.drainTimers == 0
        else
          s.current.None? && s.index == -1 && s.resumeTimers == 0 && s.drainTimers == if |s.queue| == 0 then 0 else 1)
  }

  lemma {:induction false} ContinueKeepsInv(s: State)
    requires s.draining && s.current.Some? && -1 <= s.index < |s.current.value|
    requires s.resumeTimers == 1 && s.drainTimers == 0 && s.called == s.ran + Pending(s)
    ensures Inv(Continue(s))
  {
    ContinuePending(s);
    ContinueTimed(s);
  }

  lemma {:induction false} ContinueTimed(s: State)
    requires s.draining && s.current.Some? && -1 <= s.index < |s.current.value|
    requires s.resumeTimers == 1 && s.drainTimers == 0
    ensures Timed(Continue(s))
  {
  }

  /** Going on starts the first pending callback, if there is one. */
  lemma {:induction false} ContinuePending(s: State)
    requires s.current.Some? && -1 <= s.index < |s.current.value|
    ensures Continue(s).called == s.called && Continue(s).ran + Pending(Continue(s)) == s.ran + Pending(s)
  {
    var i, batch := s.index + 1, s.current.value;
    if i < |batch| {
      FirstStarts(s.ran, batch, i, s.queue);
    } else if |s.queue| > 0 {
      NextBatch(s);
    } else {
      assert Pending(s) == [] && Pending(Continue(s)) == [];
    }
  }

  lemma {:induction false} NextBatch(s: State)
    requires s.current.Some? && s.index + 1 == |s.current.value| && |s.queue| > 0
    ensures Continue(s).ran + Pending(Continue(s)) == s.ran + Pending(s)
  {
    FirstStarts(s.ran, s.queue, 0, []);
    WithNothing(s.queue, s.current.value[s.index + 1..]);
    WithNothing(s.queue[1..], []);
    Whole(s.queue);
    WithNothing(s.queue, []);
    assert Pending(s) == s.queue && Pending(Continue(s)) == s.queue[1..];
  }

  lemma {:induction false} FirstStarts(ran: seq<Callback>, batch: seq<Callback>, i: nat, queue: seq<Callback>)
    requires i < |batch|
    ensures (ran + [batch[i]]) + (batch[i + 1..] + queue) == ran + (batch[i..] + queue)
  {
    assert batch[i..] == [batch[i]] + batch[i + 1..];
  }

  lemma {:induction false} CallKeepsInv(s: State, cb: Callback)
    requires Inv(s)
    ensures Inv(Step(s, Call(cb)))
  {
    var t := Step(s, Call(cb));
    assert Pending(t) == Pending(s) + [cb];
    assert s.ran + (Pending(s) + [cb]) == s.ran + Pending(s) + [cb];
  }

  lemma {:induction false} FireDrainKeepsInv(s: State)
    requires Inv(s) && !s.running && s.drainTimers > 0
    ensures Inv(Step(s, FireDrain))
  {
    var t := s.(drainTimers := 0, resumeTimers := 1, draining := true, current := Some(s.queue), queue := []);
    assert Step(s, FireDrain) == Continue(t);
    assert s.queue[0..] == s.queue;
    assert Pending(t) == Pending(s);
    ContinueKeepsInv(t);
  }

  lemma {:induction false} FireResumeKeepsInv(s: State)
    requires Inv(s) && !s.running && s.resumeTimers > 0
    ensures Inv(Step(s, FireResume))
  {
    var batch := s.current.value;
    var t := s.(current := Some(batch + s.queue), queue := []);
    assert Step(s, FireResume) == Continue(t);
    assert (batch + s.queue)[s.index + 1..] == batch[s.index + 1..] + s.queue;
    assert Pending(t) == Pending(s);
    ContinueKeepsInv(t);
  }

  lemma {:induction false} ReturnKeepsInv(s: State)
    requires Inv(s) && s.running
    ensures Inv(Step(s, Return))
  {
    assert Pending(s.(running := false)) == Pending(s);
    ContinueKeepsInv(s.(running := false));
  }

  lemma {:induction false} ThrowKeepsInv(s: State)
    requires Inv(s)
    ensures Inv(Step(s, Throw))
  {
    assert Pending(s.(running := false)) == Pending(s);
  }

  lemma {:induction false} StepKeepsInv(s: State, a: Action)
    requires Inv(s)
    ensures Inv(Step(s, a))
  {
    match a
    case Call(cb) => CallKeepsInv(s, cb);
    case FireDrain =>
      if !s.running && s.drainTimers > 0 {
        FireDrainKeepsInv(s);
      }
    case FireResume =>
      if !s.running && s.resumeTimers > 0 {
        FireResumeKeepsInv(s);
      }
    case Return =>
      if s.running {
        ReturnKeepsInv(s);
      }
    case Throw => ThrowKeepsInv(s);
  }

  function Exec(run: seq<Action>): State {
    if |run| == 0 then INITIAL else Step(Exec(run[..|run| - 1]), run[|run| - 1])
  }

  lemma {:induction false} RunKeepsInv(run: seq<Action>)
    ensures Inv(Exec(run))
  {
    if |run| > 0 {
      RunKeepsInv(run[..|run| - 1]);
      StepKeepsInv(Exec(run[..|run| - 1]), run[|run| - 1]);
    }
  }

  /**
   * In every run, with callbacks queued and thrown from anywhere, the callbacks started are a prefix of the callbacks
   * asked for, and whenever some are still owed, a callback is running or exactly one timer is set.
   */
  lemma {:induction false} ExactlyOnceInOrder(run: seq<Action>)
    ensures var s := Exec(run);
            && s.called == s.ran + Pending(s)
            && (Pending(s) != [] && !s.running ==> s.drainTimers + s.resumeTimers == 1)
  {
    RunKeepsInv(run);
  }

  function Returns(s: State, n: nat): State
    decreases n
  {
    if n == 0 then s else Returns(Step(s, Return), n - 1)
  }

  lemma {:induction false} ReturnRuns(s: State)
    requires Inv(s) && s.running
    ensures var t := Step(s, Return);
            && t.called == s.called
            && (if |Pending(s)| == 0 then !t.running && t.ran == s.ran && t.drainTimers == t.resumeTimers == 0
                else t.running && |t.ran| == |s.ran| + 1)
  {
  }

  lemma {:induction false} Lengths(s: State)
    requires s.called == s.ran + Pending(s)
    ensures |s.called| == |s.ran| + |Pending(s)|
  {
  }

  /** A callback that returns hands over to the next one, or ends the drain. */
  lemma {:induction false} ReturnStep(s: State)
    requires Inv(s) && s.running
    ensures var t := Step(s, Return);
            && Inv(t) && t.called == s.called
            && (if |Pending(s)| == 0 then !t.running && t.ran == s.ran && t.drainTimers == t.resumeTimers == 0
                else t.running && |Pending(t)| == |Pending(s)| - 1)
  {
    StepKeepsInv(s, Return);
    ReturnRuns(s);
    Lengths(s);
    Lengths(Step(s, Return));
  }

  /** Once callbacks stop throwing and queueing, the drain on the stack runs all that is owed and leaves no timer. */
  lemma {:induction false} DrainFinishes(s: State, n: nat)
    requires Inv(s) && s.running && n == |Pending(s)|
    ensures var t := Returns(s, n + 1);
            t.ran == s.called && !t.running && t.drainTimers == t.resumeTimers == 0
    decreases n
  {
    ReturnStep(s);
    if n == 0 {
      assert s.ran + [] == s.ran;
      assert Returns(Step(s, Return), 0) == Step(s, Return);
    } else {
      DrainFinishes(Step(s, Return), n - 1);
    }
  }

  /** A timer that fires while callbacks are owed starts the next one. */
  lemma {:induction false} TimerMakesProgress(s: State, a: Action)
    requires Inv(s) && !s.running && Pending(s) != []
    requires a == if s.drainTimers > 0 then FireDrain else FireResume
    ensures Step(s, a).running && Step(s, a).ran == s.ran + [Pending(s)[0]]
  {
    if a == FireResume {
      var batch := s.current.value;
      assert (batch + s.queue)[s.index + 1..] == Pending(s);
    }
  }

  /** A callback that throws ends the drain, and the timer set for that goes on with the callback behind it. */
  lemma {:induction false} ThrowThenResumes(s: State)
    requires Inv(s) && s.running
    ensures var t := Step(s, Throw);
            && !t.running && t.ran == s.ran && Pending(t) == Pending(s) && t.resumeTimers == 1
            && (Pending(s) != [] ==> Step(t, FireResume).running && Step(t, FireResume).ran == s.ran + [Pending(s)[0]])
  {
    var t := Step(s, Throw);
    ThrowKeepsInv(s);
    if Pending(s) != [] {
      TimerMakesProgress(t, FireResume);
    }
  }
}
