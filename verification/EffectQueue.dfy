/**
 * The reactive core and the job queue together: a triggered effect is put into the queue, and a microtask walks the
 * queue and calls the effects. The walk can be interleaved with anything that the called functions do.
 */
module EffectQueue {
  import opened Options
  import opened Seqs
  import R = Reactive
  import Q = JobQueue

  type Effect = R.Effect

  /** Outside the flush, inside the call of the job at index `at`, or behind a flush that a job has broken off. */
  datatype Phase = Idle | Calling(at: nat, frames: nat) | Broken

  datatype State = State(
    r: R.State, q: Q.State, phase: Phase,
    // History: the reactive actions so far; the effects that have been triggered and neither started since nor taken
    // out of the queue; those of them that the queue does not hold for a later turn; those taken out.
    run: R.Run, owed: set<Effect>, missed: set<Effect>, dropped: set<Effect>)

  datatype Action =
    | Do(act: R.Action, order: seq<Effect>)   // user code acts; the effects this triggers are queued in that order
    | TakeOut(effect: Effect)                 // user code takes an effect out of the queue
    | Begin                                   // the microtask starts the flush
    | Done                                    // the called job returns, and the flush goes on
    | Throw                                   // the called job throws

  predicate Initial(s: State) {
    && R.IsInitial(s.r) && s.q == Q.State([], -1, false, false, 0) && s.phase == Idle
    && |s.run| == |s.owed| == |s.missed| == |s.dropped| == 0
  }

  function JobOf(e: Effect): Q.Job {
    Q.Job(e.id)
  }

  function EffectOf(j: Q.Job): Effect {
    R.Effect(j.id)
  }

  // ---------------------------------------------------------------------------------------------
  // Steps
  // ---------------------------------------------------------------------------------------------

  /** How many places of the queue the flush has reached; the job at the last of them is being called. */
  function Position(p: Phase): nat {
    if p.Calling? then p.at + 1 else 0
  }

  function Place(q: Q.State, e: Effect): int {
    IndexOf(q.queue, JobOf(e))
  }

  /** The queue holds the effect at a place that the flush has reached: it does not add it again, nor call it. */
  predicate Reached(q: Q.State, pos: nat, e: Effect) {
    0 <= Place(q, e) < pos
  }

  predicate Waits(q: Q.State, pos: nat, e: Effect) {
    pos <= Place(q, e)
  }

  function EnqueueAll(q: Q.State, order: seq<Effect>): Q.State
    decreases |order|
  {
    if |order| == 0 then q else EnqueueAll(Q.Apply(q, Q.Enqueue(JobOf(order[0]))), order[1..])
  }

  /** The effect that an action starts. */
  function Begun(r: R.State, a: R.Action): set<Effect> {
    if a.Enter? && R.Starts(r, a.effect) then {a.effect} else {}
  }

  /** The effects queued in that order which then stand where the flush will not come any more. */
  function Late(s: State, order: seq<Effect>): set<Effect> {
    set e | e in order && Reached(EnqueueAll(s.q, order), Position(s.phase), e)
  }

  function Record(s: State, a: R.Action): State {
    s.(r := R.Step(s.r, a), run := s.run + [a])
  }

  /** User code cannot end the call that the flush is in. */
  predicate CanDo(s: State, a: R.Action) {
    a.Exit? && s.phase.Calling? ==> |s.r.stack| > s.phase.frames
  }

  function DoAct(s: State, a: R.Action, order: seq<Effect>): State {
    var told, begun := R.Triggered(s.r, a), Begun(s.r, a);
    if !CanDo(s, a) || Elems(order) != told then s
    else
      Record(s, a).(q := EnqueueAll(s.q, order),
                    owed := s.owed - begun + told,
                    missed := s.missed - begun - told + Late(s, order),
                    dropped := s.dropped - begun - told)
  }

  /** The effect that moves to the place of the running job when that job is taken out, if it is owed a run. */
  function PassedOver(s: State, i: int): set<Effect> {
    if 0 <= i < Position(s.phase) && i + 1 < |s.q.queue| then {EffectOf(s.q.queue[i + 1])} * s.owed else {}
  }

  function DoTakeOut(s: State, e: Effect): State {
    var i := Place(s.q, e);
    if i == -1 || i <= s.q.lastFlushed then s
    else
      s.(q := Q.Apply(s.q, Q.Dequeue(JobOf(e))),
         owed := s.owed - {e},
         missed := s.missed - {e} + PassedOver(s, i),
         dropped := s.dropped + {e} * s.owed)
  }

  /** The head of the loop at index `i`: calls the job there, or ends the flush. */
  function Call(s: State, i: nat): State {
    if i < |s.q.queue| then
      var e := EffectOf(s.q.queue[i]);
      Record(s, R.Enter(e)).(phase := Calling(i, if R.Starts(s.r, e) then 1 else 0),
                             owed := s.owed - {e}, missed := s.missed - {e}, dropped := s.dropped - {e})
    else s.(q := Q.Cleared(s.q), phase := Idle)
  }

  /** The called job leaves its own frame, if it has one. */
  function Leave(s: State): State {
    if s.phase.Calling? && s.phase.frames == 1 then Record(s, R.Exit) else s
  }

  function Step(s: State, a: Action): State {
    match a
    case Do(act, order) => DoAct(s, act, order)
    case TakeOut(e) => DoTakeOut(s, e)
    case Begin =>
      if s.phase.Idle? && s.q.microtasks > 0 && |s.r.stack| == 0 then Call(s.(q := Q.Started(s.q)), 0) else s
    case Done =>
      if s.phase.Calling? && |s.r.stack| == s.phase.frames then
        Call(Leave(s).(q := s.q.(lastFlushed := s.phase.at)), s.phase.at + 1)
      else s
    case Throw =>
      if s.phase.Calling? && |s.r.stack| == s.phase.frames then Leave(s).(phase := Broken) else s
  }

  function Run(s: State, acts: seq<Action>): State
    decreases |acts|
  {
    if |acts| == 0 then s else Run(Step(s, acts[0]), acts[1..])
  }

  // ---------------------------------------------------------------------------------------------
  // Who is owed a run
  // ---------------------------------------------------------------------------------------------

  /** An effect that is owed a run either waits for its turn or has been missed. */
  ghost predicate Split(q: Q.State, pos: nat, owed: set<Effect>, missed: set<Effect>) {
    missed <= owed && forall e :: e in owed ==> (e in missed <==> !Waits(q, pos, e))
  }

  ghost predicate Inv(s: State) {
    && (s.phase.Broken? ==> s.q.flushing && !s.q.pending && s.q.microtasks == 0)
    && (!s.phase.Broken? ==> Q.Inv(s.q) && Split(s.q, Position(s.phase), s.owed, s.missed))
    && (s.phase.Idle? ==> !s.q.flushing)
    && (s.phase.Calling? ==> s.q.flushing && !s.q.pending && s.q.lastFlushed == s.phase.at - 1)
    && (s.phase.Calling? ==> s.phase.frames <= 1 && s.phase.frames <= |s.r.stack|)
  }

  lemma {:induction false} FirstIndex<T>(s: seq<T>, x: T, i: nat)
    requires i < |s| && s[i] == x && x !in s[..i]
    ensures IndexOf(s, x) == i
  {
    if i > 0 {
      assert s[0] == s[..i][0];
      assert s[1..][..i - 1] == s[..i][1..];
      FirstIndex(s[1..], x, i - 1);
    }
  }

  lemma {:induction false} IndexOfPrefix<T>(s: seq<T>, t: seq<T>, x: T)
    requires s <= t
    ensures x in s ==> IndexOf(t, x) == IndexOf(s, x)
    ensures x !in s && x in t ==> IndexOf(t, x) >= |s|
  {
    assert forall i :: 0 <= i < |s| ==> t[i] == s[i];
    if x in s {
      var j := IndexOf(s, x);
      assert t[..j] == s[..j];
      FirstIndex(t, x, j);
    }
  }

  lemma {:induction false} IndexAfterRemove(q: seq<Q.Job>, i: nat, x: Q.Job)
    requires Distinct(q) && i < |q|
    ensures var j := IndexOf(q, x);
            IndexOf(Q.Remove(q, i), x) == if j < i then j else if j == i then -1 else j - 1
  {
    var r, j := Q.Remove(q, i), IndexOf(q, x);
    Q.RemoveDistinct(q, i);
    if x in r {
      var k := IndexOf(r, x);
      assert r[k] == q[if k < i then k else k + 1];
    }
  }

  lemma {:induction false} EnqueueAllKeeps(q: Q.State, order: seq<Effect>)
    requires Q.Inv(q)
    ensures var q' := EnqueueAll(q, order);
            && Q.Inv(q') && q.queue <= q'.queue && q'.lastFlushed == q.lastFlushed && q'.flushing == q.flushing
            && (q.flushing ==> q'.pending == q.pending)
            && (forall e :: e in order ==> JobOf(e) in q'.queue)
            && (forall j :: j in q'.queue && j !in q.queue ==> EffectOf(j) in order)
    decreases |order|
  {
    if |order| > 0 {
      var op := Q.Enqueue(JobOf(order[0]));
      Q.ApplyKeepsInv(q, op);
      EnqueueAllKeeps(Q.Apply(q, op), order[1..]);
      assert JobOf(order[0]) in Q.Apply(q, op).queue;
      assert forall e :: e in order <==> e == order[0] || e in order[1..];
    }
  }

  /** Queueing effects leaves every other place as it is. */
  lemma {:induction false} EnqueuedWaits(q: Q.State, order: seq<Effect>, pos: nat, e: Effect)
    requires Q.Inv(q)
    ensures if e in order then Place(EnqueueAll(q, order), e) >= 0
            else Waits(EnqueueAll(q, order), pos, e) <==> Waits(q, pos, e)
  {
    EnqueueAllKeeps(q, order);
    IndexOfPrefix(q.queue, EnqueueAll(q, order).queue, JobOf(e));
    assert EffectOf(JobOf(e)) == e;
  }

  lemma {:induction false} DoKeepsSplit(s: State, a: R.Action, order: seq<Effect>)
    requires Inv(s) && !s.phase.Broken? && CanDo(s, a) && Elems(order) == R.Triggered(s.r, a)
    ensures var t := DoAct(s, a, order); Split(t.q, Position(t.phase), t.owed, t.missed)
  {
    var t, pos := DoAct(s, a, order), Position(s.phase);
    forall e | e in t.owed
      ensures e in t.missed <==> !Waits(t.q, pos, e)
    {
      assert e in order <==> e in Elems(order);
      EnqueuedWaits(s.q, order, pos, e);
    }
  }

  lemma {:induction false} DoKeepsInv(s: State, a: R.Action, order: seq<Effect>)
    requires Inv(s)
    ensures Inv(DoAct(s, a, order))
  {
    if s.phase.Broken? {
      BrokenEnqueues(s.q, order);
    } else {
      EnqueueAllKeeps(s.q, order);
      if CanDo(s, a) && Elems(order) == R.Triggered(s.r, a) {
        DoKeepsSplit(s, a, order);
      }
    }
  }

  lemma {:induction false} BrokenEnqueues(q: Q.State, order: seq<Effect>)
    requires q.flushing
    ensures var q' := EnqueueAll(q, order); q'.flushing && q'.pending == q.pending && q'.microtasks == q.microtasks
    decreases |order|
  {
    if |order| > 0 {
      BrokenEnqueues(Q.Apply(q, Q.Enqueue(JobOf(order[0]))), order[1..]);
    }
  }

  lemma {:induction false} TakeOutKeepsSplit(s: State, e: Effect)
    requires Inv(s) && !s.phase.Broken? && Place(s.q, e) > s.q.lastFlushed && Place(s.q, e) != -1
    ensures var t := DoTakeOut(s, e); Split(t.q, Position(t.phase), t.owed, t.missed)
  {
    var t, i, pos := DoTakeOut(s, e), Place(s.q, e), Position(s.phase);
    forall x | x in t.owed
      ensures x in t.missed <==> !Waits(t.q, pos, x)
    {
      IndexAfterRemove(s.q.queue, i, JobOf(x));
      assert EffectOf(JobOf(x)) == x;
      NextPlace(s.q, i, x);
    }
    assert t.missed <= t.owed by {
      assert PassedOver(s, i) <= s.owed;
      assert e !in PassedOver(s, i) by { NextPlace(s.q, i, e); }
    }
  }

  lemma {:induction false} NextPlace(q: Q.State, i: nat, x: Effect)
    requires Distinct(q.queue)
    ensures i + 1 < |q.queue| ==> (EffectOf(q.queue[i + 1]) == x <==> Place(q, x) == i + 1)
  {
    if i + 1 < |q.queue| && EffectOf(q.queue[i + 1]) == x {
      assert q.queue[i + 1] == JobOf(x);
    }
  }

  lemma {:induction false} TakeOutKeepsInv(s: State, e: Effect)
    requires Inv(s)
    ensures Inv(DoTakeOut(s, e))
  {
    if !s.phase.Broken? {
      Q.ApplyKeepsInv(s.q, Q.Dequeue(JobOf(e)));
      if Place(s.q, e) > s.q.lastFlushed && Place(s.q, e) != -1 {
        TakeOutKeepsSplit(s, e);
      }
    }
  }

  /** The loop goes on at index `i`. */
  lemma {:induction false} CallKeepsInv(s: State, i: nat)
    requires Distinct(s.q.queue) && s.q.flushing && !s.q.pending && s.q.microtasks == 0 && s.q.lastFlushed == i - 1
    requires Split(s.q, i, s.owed, s.missed)
    ensures Inv(Call(s, i))
    ensures i >= |s.q.queue| ==> Call(s, i).owed == Call(s, i).missed
  {
    if i < |s.q.queue| {
      CallSplits(s, i);
    } else {
      forall e | e in s.owed
        ensures e in s.missed && !Waits(Q.Cleared(s.q), 0, e)
      {
        assert !Waits(s.q, i, e);
      }
    }
  }

  /** The called effect is owed nothing any more; the others that waited go on waiting. */
  lemma {:induction false} CallSplits(s: State, i: nat)
    requires Distinct(s.q.queue) && i < |s.q.queue| && Split(s.q, i, s.owed, s.missed)
    ensures var t := Call(s, i); Split(t.q, i + 1, t.owed, t.missed)
  {
    var t := Call(s, i);
    forall e | e in t.owed
      ensures e in t.missed <==> !Waits(t.q, i + 1, e)
    {
      assert EffectOf(JobOf(e)) == e;
    }
  }

  lemma {:induction false} DoneKeepsInv(s: State)
    requires Inv(s) && s.phase.Calling?
    ensures Inv(Call(Leave(s).(q := s.q.(lastFlushed := s.phase.at)), s.phase.at + 1))
  {
    var q := s.q.(lastFlushed := s.phase.at);
    assert forall e :: Place(q, e) == Place(s.q, e);
    CallKeepsInv(Leave(s).(q := q), s.phase.at + 1);
  }

  lemma {:induction false} BeginKeepsInv(s: State)
    requires Inv(s) && s.phase.Idle? && s.q.microtasks > 0
    ensures Inv(Call(s.(q := Q.Started(s.q)), 0))
  {
    assert forall e :: Place(Q.Started(s.q), e) == Place(s.q, e);
    CallKeepsInv(s.(q := Q.Started(s.q)), 0);
  }

  lemma {:induction false} StepKeepsInv(s: State, a: Action)
    requires Inv(s)
    ensures Inv(Step(s, a))
  {
    match a
    case Do(act, order) => DoKeepsInv(s, act, order);
    case TakeOut(e) => TakeOutKeepsInv(s, e);
    case Begin => if s.phase.Idle? && s.q.microtasks > 0 { BeginKeepsInv(s); }
    case Done => if s.phase.Calling? { DoneKeepsInv(s); }
    case Throw =>
  }

  lemma {:induction false} RunKeepsInv(s: State, acts: seq<Action>)
    requires Inv(s)
    ensures Inv(Run(s, acts))
    decreases |acts|
  {
    if |acts| > 0 {
      StepKeepsInv(s, acts[0]);
      RunKeepsInv(Step(s, acts[0]), acts[1..]);
    }
  }

  lemma {:induction false} InitialInv(s: State)
    requires Initial(s)
    ensures Inv(s)
  {
  }

  // ---------------------------------------------------------------------------------------------
  // Missed triggers
  // ---------------------------------------------------------------------------------------------

  /** The flush is over and nothing is queued. */
  predicate Flushed(s: State) {
    s.phase.Idle? && |s.q.queue| == 0
  }

  /**
   * The action triggers an effect that the queue holds, or gets, at a place that the flush has reached; or it takes the
   * running job out of the queue in front of an effect that is owed a run.
   */
  predicate ComesLate(s: State, a: Action) {
    match a
    case Do(act, order) =>
      CanDo(s, act) && Elems(order) == R.Triggered(s.r, act) && Late(s, order) != {}
    case TakeOut(e) => Place(s.q, e) != -1 && Place(s.q, e) > s.q.lastFlushed && PassedOver(s, Place(s.q, e)) != {}
    case _ => false
  }

  predicate NeverLate(s: State, acts: seq<Action>)
    decreases |acts|
  {
    |acts| > 0 ==> !ComesLate(s, acts[0]) && NeverLate(Step(s, acts[0]), acts[1..])
  }

  predicate NeverMisses(s: State, acts: seq<Action>)
    decreases |acts|
  {
    s.missed == {} && (|acts| > 0 ==> NeverMisses(Step(s, acts[0]), acts[1..]))
  }

  lemma {:induction false} MissesIff(s: State, a: Action)
    requires s.missed == {}
    ensures Step(s, a).missed == {} <==> !ComesLate(s, a)
  {
  }

  lemma {:induction false} NeverMissesIff(s: State, acts: seq<Action>)
    requires s.missed == {}
    ensures NeverMisses(s, acts) <==> NeverLate(s, acts)
    decreases |acts|
  {
    if |acts| > 0 {
      MissesIff(s, acts[0]);
      if !ComesLate(s, acts[0]) {
        NeverMissesIff(Step(s, acts[0]), acts[1..]);
      }
    }
  }

  /**
   * In every run: whenever a flush has emptied the queue, the effects still owed a run are exactly those missed; and no
   * trigger is ever missed if and only if none comes late.
   */
  lemma {:induction false} NothingMissedIff(init: State, acts: seq<Action>)
    requires Initial(init)
    ensures Flushed(Run(init, acts)) ==> Run(init, acts).owed == Run(init, acts).missed
    ensures NeverMisses(init, acts) <==> NeverLate(init, acts)
  {
    InitialInv(init);
    RunKeepsInv(init, acts);
    NeverMissesIff(init, acts);
    var s := Run(init, acts);
    if Flushed(s) {
      assert forall e :: !Waits(s.q, 0, e);
    }
  }

  /** So, from a state in which nothing is missed, flushes without late triggers run every effect that is triggered. */
  lemma {:induction false} FlushServesAll(init: State, before: seq<Action>, acts: seq<Action>)
    requires Initial(init) && Run(init, before).missed == {} && NeverLate(Run(init, before), acts)
    requires Flushed(Run(init, before + acts))
    ensures Run(init, before + acts).owed == {}
  {
    NothingMissedIff(init, before + acts);
    NeverMissesIff(Run(init, before), acts);
    NeverMissesLast(Run(init, before), acts);
    RunConcat(init, before, acts);
  }

  lemma {:induction false} NeverMissesLast(s: State, acts: seq<Action>)
    requires NeverMisses(s, acts)
    ensures Run(s, acts).missed == {}
    decreases |acts|
  {
    if |acts| > 0 {
      NeverMissesLast(Step(s, acts[0]), acts[1..]);
    }
  }

  /** The flush never makes up for a missed trigger; only user code does, by calling, triggering or taking out. */
  lemma {:induction false} MissedStays(s: State, a: Action, e: Effect)
    requires Inv(s) && !s.phase.Broken? && e in s.missed
    ensures || e in Step(s, a).missed || a == TakeOut(e)
            || (a.Do? && a.act == R.Enter(e))
            || (a.Do? && e in R.Triggered(s.r, a.act) && Place(s.q, e) == -1)
  {
    assert !Waits(s.q, Position(s.phase), e);
    match a
    case Do(act, order) =>
      EnqueueAllKeeps(s.q, order);
      IndexOfPrefix(s.q.queue, EnqueueAll(s.q, order).queue, JobOf(e));
      assert e in order <==> e in Elems(order);
    case TakeOut(x) =>
    case Begin => CallMisses(s.(q := if s.q.microtasks > 0 then Q.Started(s.q) else s.q), 0, e);
    case Done =>
      if s.phase.Calling? {
        CallMisses(Leave(s).(q := s.q.(lastFlushed := s.phase.at)), s.phase.at + 1, e);
      }
    case Throw =>
  }

  lemma {:induction false} CallMisses(s: State, i: nat, e: Effect)
    requires Distinct(s.q.queue) && e in s.missed
    ensures e in Call(s, i).missed || Waits(s.q, i, e)
  {
    if i < |s.q.queue| {
      FirstPlace(s.q.queue, i);
      assert JobOf(EffectOf(s.q.queue[i])) == s.q.queue[i];
    }
  }

  lemma {:induction false} FirstPlace(q: seq<Q.Job>, i: nat)
    requires Distinct(q) && i < |q|
    ensures IndexOf(q, q[i]) == i
  {
    FirstIndex(q, q[i], i);
  }

  /** A job that throws breaks the flush off, and no flush ever begins again. */
  lemma {:induction false} ThrowBreaks(s: State, later: seq<Action>)
    requires Inv(s) && s.phase.Calling? && |s.r.stack| == s.phase.frames
    ensures var t := Run(Step(s, Throw), later); t.phase.Broken? && t.q.microtasks == 0
  {
    StepKeepsInv(s, Throw);
    BrokenStays(Step(s, Throw), later);
  }

  lemma {:induction false} BrokenStays(s: State, acts: seq<Action>)
    requires Inv(s) && s.phase.Broken?
    ensures Run(s, acts).phase.Broken? && Run(s, acts).q.microtasks == 0
    decreases |acts|
  {
    if |acts| > 0 {
      StepKeepsInv(s, acts[0]);
      BrokenStays(Step(s, acts[0]), acts[1..]);
    }
  }

  // ---------------------------------------------------------------------------------------------
  // What the effects show
  // ---------------------------------------------------------------------------------------------

  /**
   * A live effect has been triggered since its last start exactly if it is owed a run or has been taken out of the
   * queue since, and not both.
   */
  ghost predicate Accounted(init: R.State, s: State) {
    && s.r == R.Exec(init, s.run) && s.owed !! s.dropped
    && forall e :: e !in s.r.stopped ==> (R.Told(init, s.run, e) <==> e in s.owed || e in s.dropped)
  }

  lemma {:induction false} RecordTells(init: R.State, s: State, a: R.Action, e: Effect)
    requires s.r == R.Exec(init, s.run)
    ensures var t := Record(s, a);
            && t.r == R.Exec(init, t.run) && s.r.stopped <= t.r.stopped
            && (R.Told(init, t.run, e) <==>
                !(a == R.Enter(e) && R.Starts(s.r, e)) && (R.Told(init, s.run, e) || e in R.Triggered(s.r, a)))
  {
    assert (s.run + [a])[..|s.run|] == s.run;
    R.StoppedStays(s.r, a);
  }

  lemma {:induction false} DoAccounts(init: R.State, s: State, a: R.Action, order: seq<Effect>)
    requires Accounted(init, s)
    ensures Accounted(init, DoAct(s, a, order))
  {
    var t := DoAct(s, a, order);
    if CanDo(s, a) && Elems(order) == R.Triggered(s.r, a) {
      RecordTells(init, s, a, R.Effect(0));
      forall e | e !in t.r.stopped
        ensures R.Told(init, t.run, e) <==> e in t.owed || e in t.dropped
      {
        RecordTells(init, s, a, e);
      }
    }
  }

  lemma {:induction false} CallAccounts(init: R.State, s: State, i: nat)
    requires Accounted(init, s) && |s.r.stack| == 0
    ensures Accounted(init, Call(s, i))
  {
    var t := Call(s, i);
    if i < |s.q.queue| {
      var enter := R.Enter(EffectOf(s.q.queue[i]));
      RecordTells(init, s, enter, R.Effect(0));
      forall e | e !in t.r.stopped
        ensures R.Told(init, t.run, e) <==> e in t.owed || e in t.dropped
      {
        RecordTells(init, s, enter, e);
      }
    }
  }

  lemma {:induction false} LeaveAccounts(init: R.State, s: State)
    requires Accounted(init, s) && s.phase.Calling? && |s.r.stack| == s.phase.frames <= 1
    ensures Accounted(init, Leave(s)) && |Leave(s).r.stack| == 0
  {
    var t := Leave(s);
    if s.phase.frames == 1 {
      RecordTells(init, s, R.Exit, R.Effect(0));
      forall e | e !in t.r.stopped
        ensures R.Told(init, t.run, e) <==> e in t.owed || e in t.dropped
      {
        RecordTells(init, s, R.Exit, e);
      }
    }
  }

  lemma {:induction false} StepAccounts(init: R.State, s: State, a: Action)
    requires Accounted(init, s) && Inv(s)
    ensures Accounted(init, Step(s, a))
  {
    match a
    case Do(act, order) => DoAccounts(init, s, act, order);
    case TakeOut(e) => TakeOutAccounts(init, s, e);
    case Begin => BeginAccounts(init, s);
    case Done => ReturnAccounts(init, s);
    case Throw => ThrowAccounts(init, s);
  }

  lemma {:induction false} BeginAccounts(init: R.State, s: State)
    requires Accounted(init, s)
    ensures Accounted(init, Step(s, Begin))
  {
    if s.phase.Idle? && s.q.microtasks > 0 && |s.r.stack| == 0 {
      CallAccounts(init, s.(q := Q.Started(s.q)), 0);
    }
  }

  lemma {:induction false} TakeOutAccounts(init: R.State, s: State, e: Effect)
    requires Accounted(init, s)
    ensures Accounted(init, DoTakeOut(s, e))
  {
  }

  lemma {:induction false} ReturnAccounts(init: R.State, s: State)
    requires Accounted(init, s) && (s.phase.Calling? ==> s.phase.frames <= 1)
    ensures Accounted(init, Step(s, Done))
  {
    if s.phase.Calling? && |s.r.stack| == s.phase.frames {
      LeaveAccounts(init, s);
      CallAccounts(init, Leave(s).(q := s.q.(lastFlushed := s.phase.at)), s.phase.at + 1);
    }
  }

  lemma {:induction false} ThrowAccounts(init: R.State, s: State)
    requires Accounted(init, s) && (s.phase.Calling? ==> s.phase.frames <= 1)
    ensures Accounted(init, Step(s, Throw))
  {
    if s.phase.Calling? && |s.r.stack| == s.phase.frames {
      LeaveAccounts(init, s);
    }
  }

  lemma {:induction false} RunAccounts(init: R.State, s: State, acts: seq<Action>)
    requires Accounted(init, s) && Inv(s)
    ensures Accounted(init, Run(s, acts))
    decreases |acts|
  {
    if |acts| > 0 {
      StepKeepsInv(s, acts[0]);
      StepAccounts(init, s, acts[0]);
      RunAccounts(init, Step(s, acts[0]), acts[1..]);
    }
  }

  /**
   * In every run, once a flush has emptied the queue, every effect would see what it saw when it last ran: unless it
   * was stopped, was missed, was taken out of the queue, or has itself changed what it depends on.
   */
  lemma {:induction false} FlushedShowsData(init: State, acts: seq<Action>, e: Effect, o: R.Seen)
    requires Initial(init) && Flushed(Run(init, acts))
    requires var s := Run(init, acts);
             && o in R.Saw(init.r, s.run, e) && !R.ChangedItself(init.r, s.run, e)
             && e !in s.r.stopped && e !in s.missed && e !in s.dropped
    ensures R.StillTrue(Run(init, acts).r, o)
  {
    var s := Run(init, acts);
    InitialInv(init);
    RunAccounts(init.r, init, acts);
    NothingMissedIff(init, acts);
    R.NoMissedUpdate(init.r, s.run, e, o);
  }

  // ---------------------------------------------------------------------------------------------
  // A late trigger
  // ---------------------------------------------------------------------------------------------

  /** Nobody depends on anything, except `a` on the property. */
  ghost predicate Sole(r: R.State, a: Effect, t: R.Target, k: R.Key) {
    forall e, d :: e in R.SetOf(r, d) ==> e == a && d == R.Prop(t, k)
  }

  /** `a` is running and has read the property; nobody depends on anything else. */
  ghost predicate HasRead(r: R.State, a: Effect, t: R.Target, k: R.Key) {
    R.GraphInv(r) && Sole(r, a, t, k) && a in R.SetOf(r, R.Prop(t, k)) && R.Listens(r, a)
  }

  lemma {:induction false} EnterThenGet(r: R.State, a: Effect, t: R.Target, k: R.Key)
    requires R.GraphInv(r) && Sole(r, a, t, k) && R.Starts(r, a) && R.Ordinary(k)
    ensures var r2 := R.Step(R.Step(r, R.Enter(a)), R.Get(t, k));
            HasRead(r2, a, t, k) && r2.stack == r.stack + [a] && r2.store == r.store && r2.stopped == r.stopped
  {
    var r1 := R.Step(r, R.Enter(a));
    var r2 := R.Step(r1, R.Get(t, k));
    R.StepKeepsInv(r, R.Enter(a));
    R.StepKeepsInv(r1, R.Get(t, k));
    R.EnteredHasNone(r, a);
    R.GetAddsOne(r1, a, t, k);
    R.CleanupEdges(r, a);
    assert forall d :: R.SetOf(r1, d) == R.SetOf(R.Cleanup(r, a), d);
    forall e, d | e in R.SetOf(r2, d)
      ensures e == a && d == R.Prop(t, k)
    {
      assert e in R.SetOf(r1, d) || e == a;
    }
  }

  lemma {:induction false} SetTells(r: R.State, a: Effect, t: R.Target, k: R.Key, v: R.Val)
    requires Sole(r, a, t, k) && a in R.SetOf(r, R.Prop(t, k)) && r.current != Some(a)
    requires R.Read(R.ObjOf(r, t), k) != v
    ensures R.Triggered(r, R.Set(t, k, v)) == {a}
  {
    var told := R.Triggered(r, R.Set(t, k, v));
    if k in R.ObjOf(r, t).vals {
      R.HasChangedIsDifference(v, R.ObjOf(r, t).vals[k]);
    }
    assert R.Prop(t, k) in R.Touched(r, R.Set(t, k, v));
    assert a in told;
    assert forall e :: e in told ==> e == a;
  }

  /** An action that triggers nothing leaves the queue alone. */
  lemma {:induction false} QuietDo(s: State, a: R.Action)
    requires CanDo(s, a) && !a.Set? && !a.Delete?
    ensures var t := Step(s, Do(a, []));
            t.r == R.Step(s.r, a) && t.run == s.run + [a] && t.q == s.q && t.phase == s.phase
    ensures !a.Enter? ==> Step(s, Do(a, [])).missed == s.missed
  {
    assert R.Triggered(s.r, a) == {};
    assert Late(s, []) == {};
  }

  lemma {:induction false} SetDo(s: State, t: R.Target, k: R.Key, v: R.Val, a: Effect)
    requires R.Triggered(s.r, R.Set(t, k, v)) == {a}
    ensures var set_ := R.Set(t, k, v);
            var s' := Step(s, Do(set_, [a]));
            && s'.r == R.Step(s.r, set_) && s'.run == s.run + [set_] && s'.phase == s.phase
            && s'.q == Q.Apply(s.q, Q.Enqueue(JobOf(a)))
            && (Reached(s'.q, Position(s.phase), a) ==> a in s'.missed)
  {
    assert Elems([a]) == {a};
    assert [a][1..] == [];
    assert EnqueueAll(s.q, [a]) == Q.Apply(s.q, Q.Enqueue(JobOf(a)));
  }

  /** Outside the flush, `a` has run once and has read the property. */
  ghost predicate ReadOnce(s: State, a: Effect, t: R.Target, k: R.Key) {
    && s.phase == Idle && s.q == Q.State([], -1, false, false, 0)
    && R.GraphInv(s.r) && Sole(s.r, a, t, k) && a in R.SetOf(s.r, R.Prop(t, k))
    && |s.r.stack| == 0 && s.r.stopped == {}
  }

  lemma {:induction false} FirstRead(s: State, a: Effect, t: R.Target, k: R.Key)
    requires Initial(s) && R.Ordinary(k)
    ensures var s' := Step(Step(Step(s, Do(R.Enter(a), [])), Do(R.Get(t, k), [])), Do(R.Exit, []));
            ReadOnce(s', a, t, k) && s'.r.store == s.r.store
  {
    var s1 := Step(s, Do(R.Enter(a), []));
    var s2 := Step(s1, Do(R.Get(t, k), []));
    QuietDo(s, R.Enter(a));
    QuietDo(s1, R.Get(t, k));
    QuietDo(s2, R.Exit);
    ReadAndExit(s.r, a, t, k);
  }

  lemma {:induction false} ReadAndExit(r: R.State, a: Effect, t: R.Target, k: R.Key)
    requires R.IsInitial(r) && R.Ordinary(k)
    ensures var r' := R.Step(R.Step(R.Step(r, R.Enter(a)), R.Get(t, k)), R.Exit);
            && R.GraphInv(r') && Sole(r', a, t, k) && a in R.SetOf(r', R.Prop(t, k))
            && |r'.stack| == 0 && r'.stopped == {} && r'.store == r.store
  {
    R.RunKeepsInv(r, []);
    EnterThenGet(r, a, t, k);
    var r2 := R.Step(R.Step(r, R.Enter(a)), R.Get(t, k));
    R.QuietKeepsGraph(r2, R.Exit);
    R.StepKeepsInv(r2, R.Exit);
    assert forall d :: R.SetOf(R.Step(r2, R.Exit), d) == R.SetOf(r2, d);
  }

  /** The flush is in its first job `a`, which has read `v`. */
  ghost predicate InFlush(s: State, a: Effect, t: R.Target, k: R.Key, v: R.Val) {
    && s.phase == Calling(0, 1) && s.q == Q.State([JobOf(a)], -1, false, true, 0)
    && HasRead(s.r, a, t, k) && s.r.stack == [a] && s.r.stopped == {}
    && R.Read(R.ObjOf(s.r, t), k) == v
  }

  lemma {:induction false} FlushReads(s: State, a: Effect, t: R.Target, k: R.Key, v: R.Val)
    requires ReadOnce(s, a, t, k) && R.Ordinary(k) && R.Read(R.ObjOf(s.r, t), k) != v
    ensures var m := Step(Step(s, Do(R.Set(t, k, v), [a])), Begin);
            var s' := Step(m, Do(R.Get(t, k), []));
            && R.Listens(m.r, a) && R.Read(R.ObjOf(m.r, t), k) == v
            && InFlush(s', a, t, k, v) && s'.run == m.run + [R.Get(t, k)]
  {
    SetTells(s.r, a, t, k, v);
    SetDo(s, t, k, v, a);
    var s1 := Step(s, Do(R.Set(t, k, v), [a]));
    assert s1.q.queue == [JobOf(a)] && EffectOf(JobOf(a)) == a;
    R.StepKeepsInv(s.r, R.Set(t, k, v));
    assert forall d :: R.SetOf(s1.r, d) == R.SetOf(s.r, d);
    var s2 := Step(s1, Begin);
    assert s2 == Call(s1.(q := Q.Started(s1.q)), 0);
    QuietDo(s2, R.Get(t, k));
    EnterThenGet(s1.r, a, t, k);
  }

  /** Another effect that `a` calls changes the property: `a` is triggered, and missed. */
  lemma {:induction false} NestedWrite(s: State, a: Effect, b: Effect, t: R.Target, k: R.Key, v: R.Val, v': R.Val)
    requires InFlush(s, a, t, k, v) && a != b && v' != v
    ensures var s' := Step(Step(Step(s, Do(R.Enter(b), [])), Do(R.Set(t, k, v'), [a])), Do(R.Exit, []));
            && s'.phase == s.phase && s'.q == s.q && a in s'.missed && s'.r.stack == [a] && s'.r.stopped == {}
            && R.Read(R.ObjOf(s'.r, t), k) == v'
            && s'.run == s.run + [R.Enter(b)] + [R.Set(t, k, v')] + [R.Exit]
  {
    var s1 := Step(s, Do(R.Enter(b), []));
    QuietDo(s, R.Enter(b));
    R.CleanupEdges(s.r, b);
    assert forall d :: R.SetOf(s1.r, d) == R.SetOf(R.Cleanup(s.r, b), d);
    SetTells(s1.r, a, t, k, v');
    SetDo(s1, t, k, v', a);
    FirstPlace(s.q.queue, 0);
    QuietDo(Step(s1, Do(R.Set(t, k, v'), [a])), R.Exit);
  }

  lemma {:induction false} SawStays(init: R.State, run: R.Run, x: R.Action, e: Effect, o: R.Seen)
    requires o in R.Saw(init, run, e) && x != R.Enter(e)
    ensures o in R.Saw(init, run + [x], e)
  {
    assert (run + [x])[..|run|] == run;
  }

  /** The effect that the flush calls first has read the new value. */
  lemma {:induction false} IntoFlush(init: State, a: Effect, t: R.Target, k: R.Key, v: R.Val)
    returns (acts: seq<Action>)
    requires Initial(init) && R.Ordinary(k) && R.Read(R.ObjOf(init.r, t), k) != v
    ensures var s := Run(init, acts); InFlush(s, a, t, k, v) && R.SawValue(t, k, v) in R.Saw(init.r, s.run, a)
  {
    var write, get := Do(R.Set(t, k, v), [a]), Do(R.Get(t, k), []);
    FirstRead(init, a, t, k);
    var s1 := Step(Step(Step(init, Do(R.Enter(a), [])), get), Do(R.Exit, []));
    FlushReads(s1, a, t, k, v);
    acts := [Do(R.Enter(a), []), get, Do(R.Exit, []), write, Begin];
    var m := Step(Step(s1, write), Begin);
    RunFive(init, acts);
    InitialInv(init);
    RunAccounts(init.r, init, acts);
    SeesNow(init.r, m, a, t, k);
    RunConcat(init, acts, [get]);
    RunOne(m, get);
    acts := acts + [get];
  }

  lemma {:induction false} OutOfFlush(
    init: R.State, s: State, a: Effect, b: Effect, t: R.Target, k: R.Key, v: R.Val, v': R.Val)
    returns (acts: seq<Action>)
    requires InFlush(s, a, t, k, v) && a != b && v' != v && R.SawValue(t, k, v) in R.Saw(init, s.run, a)
    ensures var s' := Run(s, acts);
            && Flushed(s') && a in s'.missed && a !in s'.r.stopped && R.Read(R.ObjOf(s'.r, t), k) == v'
            && R.SawValue(t, k, v) in R.Saw(init, s'.run, a)
  {
    var o := R.SawValue(t, k, v);
    NestedWrite(s, a, b, t, k, v, v');
    acts := [Do(R.Enter(b), []), Do(R.Set(t, k, v'), [a]), Do(R.Exit, []), Done];
    RunFour(s, acts);
    var s3 := Step(Step(Step(s, acts[0]), acts[1]), acts[2]);
    LastJobDone(s3, a);
    NestedSaw(init, s.run, a, b, R.Set(t, k, v'), o);
  }

  lemma {:induction false} NestedSaw(init: R.State, run: R.Run, a: Effect, b: Effect, write: R.Action, o: R.Seen)
    requires o in R.Saw(init, run, a) && a != b && write.Set?
    ensures o in R.Saw(init, run + [R.Enter(b)] + [write] + [R.Exit] + [R.Exit], a)
  {
    var r1 := run + [R.Enter(b)];
    var r2 := r1 + [write];
    var r3 := r2 + [R.Exit];
    SawStays(init, run, R.Enter(b), a, o);
    SawStays(init, r1, write, a, o);
    SawStays(init, r2, R.Exit, a, o);
    SawStays(init, r3, R.Exit, a, o);
  }

  /**
   * Such a run: `a` reads a property, which then changes; in the flush `a` reads it again and calls `b`, which changes
   * it once more. When the flush is over, `a` shows the value before.
   */
  lemma {:induction false} LateTriggerRun(
    init: State, a: Effect, b: Effect, t: R.Target, k: R.Key, v: R.Val, v': R.Val) returns (acts: seq<Action>)
    requires Initial(init) && a != b && R.Ordinary(k) && R.Read(R.ObjOf(init.r, t), k) != v && v' != v
    ensures var s, o := Run(init, acts), R.SawValue(t, k, v);
            && Flushed(s) && a in s.missed && a !in s.r.stopped
            && o in R.Saw(init.r, s.run, a) && !R.StillTrue(s.r, o)
  {
    var first := IntoFlush(init, a, t, k, v);
    var second := OutOfFlush(init.r, Run(init, first), a, b, t, k, v, v');
    RunConcat(init, first, second);
    acts := first + second;
  }

  lemma {:induction false} LastJobDone(s: State, a: Effect)
    requires s.phase == Calling(0, 1) && s.q.queue == [JobOf(a)] && s.r.stack == [a]
    ensures var t := Step(s, Done);
            && Flushed(t) && t.r == R.Step(s.r, R.Exit) && t.run == s.run + [R.Exit] && t.missed == s.missed
  {
  }

  lemma {:induction false} SeesNow(init: R.State, s: State, e: Effect, t: R.Target, k: R.Key)
    requires s.r == R.Exec(init, s.run) && R.Listens(s.r, e) && R.Ordinary(k)
    ensures R.SawValue(t, k, R.Read(R.ObjOf(s.r, t), k)) in R.Saw(init, s.run + [R.Get(t, k)], e)
  {
    assert (s.run + [R.Get(t, k)])[..|s.run|] == s.run;
  }

  lemma {:induction false} RunOne(s: State, a: Action)
    ensures Run(s, [a]) == Step(s, a)
  {
    assert |[a][1..]| == 0;
  }

  lemma {:induction false} RunFour(s: State, acts: seq<Action>)
    requires |acts| == 4
    ensures Run(s, acts) == Step(Step(Step(Step(s, acts[0]), acts[1]), acts[2]), acts[3])
  {
    var s1 := Step(s, acts[0]);
    var s2 := Step(s1, acts[1]);
    assert acts[1..][1..] == [acts[2], acts[3]] && [acts[2], acts[3]][1..] == [acts[3]];
    assert Run(s, acts) == Run(s2, [acts[2], acts[3]]);
    assert Run(s2, [acts[2], acts[3]]) == Run(Step(s2, acts[2]), [acts[3]]);
    RunOne(Step(s2, acts[2]), acts[3]);
  }

  lemma {:induction false} RunFive(s: State, acts: seq<Action>)
    requires |acts| == 5
    ensures Run(s, acts) == Step(Step(Step(Step(Step(s, acts[0]), acts[1]), acts[2]), acts[3]), acts[4])
  {
    RunFour(Step(s, acts[0]), acts[1..]);
  }

  lemma {:induction false} RunConcat(s: State, a: seq<Action>, b: seq<Action>)
    ensures Run(s, a + b) == Run(Run(s, a), b)
    decreases |a|
  {
    if |a| == 0 {
      assert a + b == b;
    } else {
      assert (a + b)[1..] == a[1..] + b;
      RunConcat(Step(s, a[0]), a[1..], b);
    }
  }
}
